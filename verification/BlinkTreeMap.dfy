/** The leaves of the B-link tree hold a map: whatever splits and searches interleave, what the leaf pages of
    `BlinkTree` bind is what the leaf insertions so far leave in a map, and a search that stops finds its key's entry
    in it. */
module BlinkTreeMap {
  import opened BlinkTree

  /** Slot `j` of the page binds `k` to `id`. */
  predicate BindsAt(pg: Page, k: int, id: PageNo, j: int) {
    0 <= j < |pg.keys| && j < |pg.ids| && pg.keys[j] == k && pg.ids[j] == id
  }

  ghost predicate Binds(pg: Page, k: int, id: PageNo) { exists j :: BindsAt(pg, k, id, j) }

  ghost predicate BoundIn(s: State, k: int, id: PageNo, q: PageNo) {
    q in s.pages && At(s, q).lvl == 0 && Binds(At(s, q), k, id)
  }

  /** Some leaf binds `k` to `id`. */
  ghost predicate Bound(s: State, k: int, id: PageNo) { exists q :: BoundIn(s, k, id, q) }

  // ----- pages

  lemma UpdateBinds(pg: Page, i: nat, id0: PageNo, k: int, id: PageNo)
    requires i < |pg.keys| == |pg.ids| && Ascending(pg.keys)
    ensures Binds(pg.(ids := pg.ids[i := id0]), k, id) <==> if k == pg.keys[i] then id == id0 else Binds(pg, k, id)
  {
    var pg' := pg.(ids := pg.ids[i := id0]);
    if Binds(pg', k, id) {
      var j :| BindsAt(pg', k, id, j);
      assert j != i ==> BindsAt(pg, k, id, j);
      assert j != i ==> pg.keys[j] != pg.keys[i];
    }
    if k == pg.keys[i] { assert id == id0 ==> BindsAt(pg', k, id, i); }
    else if Binds(pg, k, id) {
      var j :| BindsAt(pg, k, id, j);
      assert BindsAt(pg', k, id, j);
    }
  }

  lemma NewSlotBinds(pg: Page, i: nat, k0: int, id0: PageNo, k: int, id: PageNo)
    requires i <= |pg.keys| == |pg.ids| && k0 !in pg.keys
    ensures Binds(pg.(keys := InsertAt(pg.keys, i, k0), ids := InsertAt(pg.ids, i, id0)), k, id) <==>
      if k == k0 then id == id0 else Binds(pg, k, id)
  {
    var pg' := pg.(keys := InsertAt(pg.keys, i, k0), ids := InsertAt(pg.ids, i, id0));
    assert BindsAt(pg', k0, id0, i);
    if Binds(pg', k, id) {
      var j :| BindsAt(pg', k, id, j);
      assert j != i ==> BindsAt(pg, k, id, if j < i then j else j - 1);
    }
    if k != k0 && Binds(pg, k, id) {
      var j :| BindsAt(pg, k, id, j);
      assert BindsAt(pg', k, id, if j < i then j else j + 1);
    }
  }

  /** `bt_insertkey` on a page rebinds the key and nothing else. */
  lemma InsertBinds(pg: Page, top: int, k0: int, id0: PageNo, k: int, id: PageNo)
    requires KeysOk(pg, top) && Covers(pg, k0)
    ensures Binds(Insert(pg, k0, id0), k, id) <==> if k == k0 then id == id0 else Binds(pg, k, id)
  {
    var i := FindSlot(pg.keys, k0);
    if pg.keys[i] == k0 {
      UpdateBinds(pg, i, id0, k, id);
    } else {
      forall j | 0 <= j < |pg.keys| ensures pg.keys[j] != k0 {
        if j > i { assert pg.keys[i] < pg.keys[j]; }
      }
      NewSlotBinds(pg, i, k0, id0, k, id);
    }
  }

  /** The halves of a split bind together what the page bound. */
  lemma HalvesBind(pg: Page, i: nat, r: PageNo, k: int, id: PageNo)
    requires i + 1 < |pg.keys| && |pg.ids| == |pg.keys|
    ensures Binds(pg, k, id) <==> Binds(LeftHalf(pg, i, r), k, id) || Binds(RightHalf(pg, i), k, id)
  {
    var left, right := LeftHalf(pg, i, r), RightHalf(pg, i);
    if Binds(pg, k, id) {
      var j :| BindsAt(pg, k, id, j);
      assert if j <= i then BindsAt(left, k, id, j) else BindsAt(right, k, id, j - (i + 1));
    }
    if Binds(left, k, id) {
      var j :| BindsAt(left, k, id, j);
      assert BindsAt(pg, k, id, j);
    }
    if Binds(right, k, id) {
      var j :| BindsAt(right, k, id, j);
      assert BindsAt(pg, k, id, j + i + 1);
    }
  }

  lemma BoundIsCovered(s: State, k: int, id: PageNo, q: PageNo)
    requires Tree(s) && BoundIn(s, k, id, q)
    ensures Covers(At(s, q), k)
  {
    var j :| BindsAt(At(s, q), k, id, j);
    assert At(s, q).keys[j] in At(s, q).keys && PageOk(s, q);
    KeyIsCovered(s, q, k);
  }

  // ----- steps

  /** The leaves of `s'` are those of `s`. */
  lemma SameLeaves(s: State, s': State, k: int, id: PageNo)
    requires forall q :: (q in s.pages && At(s, q).lvl == 0) || (q in s'.pages && At(s', q).lvl == 0) ==>
      q in s.pages && q in s'.pages && At(s', q) == At(s, q)
    ensures Bound(s', k, id) <==> Bound(s, k, id)
  {
    if Bound(s, k, id) { var q :| BoundIn(s, k, id, q); assert BoundIn(s', k, id, q); }
    if Bound(s', k, id) { var q :| BoundIn(s', k, id, q); assert BoundIn(s, k, id, q); }
  }

  lemma LeafBinds(s: State, q: PageNo, k0: int, id0: PageNo, k: int, id: PageNo)
    requires Inv(s) && Target(s, q, 0, k0)
    ensures Bound(LeafStep(s, q, k0, id0), k, id) <==> if k == k0 then id == id0 else Bound(s, k, id)
  {
    var s' := LeafStep(s, q, k0, id0);
    assert PageOk(s, q);
    InsertBinds(At(s, q), s.top, k0, id0, k, id);
    assert At(s', q) == Insert(At(s, q), k0, id0) && At(s', q).lvl == 0;
    assert Binds(At(s', q), k, id) ==> BoundIn(s', k, id, q);
    assert Binds(At(s, q), k, id) ==> BoundIn(s, k, id, q);
    if Bound(s', k, id) {
      var p :| BoundIn(s', k, id, p);
      if p != q {
        assert At(s', p) == At(s, p) && BoundIn(s, k, id, p);
        BoundIsCovered(s, k, id, p);
        if k == k0 { CoverUnique(s, p, q, k); }
      }
    }
    if k != k0 && Bound(s, k, id) {
      var p :| BoundIn(s, k, id, p);
      assert BoundIn(s', k, id, p);
    }
  }

  lemma InsertionBinds(s: State, u: Tid, q: PageNo, k0: int, id0: PageNo, k: int, id: PageNo)
    requires Inv(s) && Latches(s, u, k0, 0, q)
    ensures Bound(LeafStep(Goto(s, u, Idle), q, k0, id0), k, id) <==>
      if k == k0 then id == id0 else Bound(s, k, id)
  {
    LatchedIsTarget(s, u, k0, 0, q);
    SameLeaves(s, Goto(s, u, Idle), k, id);
    LeafBinds(Goto(s, u, Idle), q, k0, id0, k, id);
  }

  /** A page split into two pages of its level, beside the others, leaves the bindings as they were. */
  lemma SplitBinds(s: State, s': State, p: PageNo, i: nat, a: PageNo, b: PageNo, k: int, id: PageNo)
    requires p in s.pages && i + 1 < |At(s, p).keys| && |At(s, p).ids| == |At(s, p).keys| && a != b
    requires b !in s.pages && (a == p || a !in s.pages)
    requires a in s'.pages && At(s', a) == LeftHalf(At(s, p), i, b)
    requires b in s'.pages && At(s', b) == RightHalf(At(s, p), i)
    requires a != p ==> p in s'.pages && At(s', p).lvl > 0
    requires forall q :: q != p && q != a && q != b ==> (q in s'.pages <==> q in s.pages) && At(s', q) == At(s, q)
    ensures Bound(s', k, id) <==> Bound(s, k, id)
  {
    HalvesBind(At(s, p), i, b, k, id);
    if Bound(s, k, id) {
      var q :| BoundIn(s, k, id, q);
      assert q != p ==> BoundIn(s', k, id, q);
      assert q == p ==> BoundIn(s', k, id, a) || BoundIn(s', k, id, b);
    }
    if Bound(s', k, id) {
      var q :| BoundIn(s', k, id, q);
      assert q == a || q == b ==> BoundIn(s, k, id, p);
      assert q != a && q != b ==> BoundIn(s, k, id, q);
    }
  }

  lemma CutBinds(s: State, t: Tid, p: PageNo, i: nat, r: PageNo, k: int, id: PageNo)
    requires Tree(s) && Enabled(s, Cut(t, p, i, r))
    ensures Bound(CutStep(s, t, p, i, r), k, id) <==> Bound(s, k, id)
  {
    assert PageOk(s, p);
    SplitBinds(s, CutStep(s, t, p, i, r), p, i, p, r, k, id);
  }

  lemma RootBinds(s: State, i: nat, l: PageNo, r: PageNo, k: int, id: PageNo)
    requires Tree(s) && Enabled(s, SplitRoot(i, l, r))
    ensures Bound(RootStep(s, i, l, r), k, id) <==> Bound(s, k, id)
  {
    assert PageOk(s, ROOT);
    SplitBinds(s, RootStep(s, i, l, r), ROOT, i, l, r, k, id);
  }

  /** Every step other than a leaf insertion leaves the bindings as they were, and that one rebinds its key. */
  lemma StepBinds(s: State, a: Act, k: int, id: PageNo)
    requires Inv(s) && Enabled(s, a)
    ensures Bound(Step(s, a), k, id) <==> if a.InsertLeaf? && k == a.k then id == a.id else Bound(s, k, id)
  {
    match a
    case InsertLeaf(u, q, k0, id0) => InsertionBinds(s, u, q, k0, id0, k, id);
    case Cut(t, p, i, r) => CutBinds(s, t, p, i, r, k, id);
    case SplitRoot(i, l, r) => RootBinds(s, i, l, r, k, id);
    case _ => SameLeaves(s, Step(s, a), k, id);
  }

  // ----- whole runs

  /** The reference: the map the leaf insertions among the first `i` actions leave, from the stopper's entry on. */
  ghost function Replayed(top: int, acts: seq<Act>, i: nat): map<int, PageNo>
    requires i <= |acts|
  {
    if i == 0 then map[top := 0]
    else if acts[i - 1].InsertLeaf? then Replayed(top, acts, i - 1)[acts[i - 1].k := acts[i - 1].id]
    else Replayed(top, acts, i - 1)
  }

  lemma InitBinds(s: State, k: int, id: PageNo)
    requires Init(s)
    ensures Bound(s, k, id) <==> k == s.top && id == 0
  {
    assert BindsAt(At(s, LEAF), s.top, 0, 0) && BoundIn(s, s.top, 0, LEAF);
    if Bound(s, k, id) {
      var q :| BoundIn(s, k, id, q);
      var j :| BindsAt(At(s, q), k, id, j);
    }
  }

  /** The tree refines a map: in every state of every run, half-done splits included, the leaves bind exactly what the
      insertions so far leave. */
  lemma {:induction false} TreeIsMap(run: seq<State>, acts: seq<Act>, i: nat, k: int, id: PageNo)
    requires IsRun(run, acts) && i < |run|
    ensures var m := Replayed(run[0].top, acts, i); Bound(run[i], k, id) <==> k in m && m[k] == id
  {
    if i == 0 {
      InitBinds(run[0], k, id);
    } else {
      TreeIsMap(run, acts, i - 1, k, id);
      RunKeeps(run, acts, i - 1);
      assert MovesAt(run, acts, i - 1);
      StepBinds(run[i - 1], acts[i - 1], k, id);
    }
  }

  /** A search at the leaf level that stops is on the page and at the slot of its key's binding, if there is one; if
      there is none, the slot holds another key. */
  lemma SearchFindsBinding(run: seq<State>, acts: seq<Act>, i: nat, t: Tid)
    requires IsRun(run, acts) && i < |acts| && acts[i] == SearchStep(t)
    requires PcOf(run[i], t).Search? && PcOf(run[i], t).lvl == 0 && PcOf(run[i + 1], t).Found?
    ensures var pg, k, m := At(run[i], PcOf(run[i], t).at), PcOf(run[i], t).k, Replayed(run[0].top, acts, i);
      var j := FindSlot(pg.keys, k);
      && j < |pg.keys| && j < |pg.ids|
      && (if k in m then pg.keys[j] == k && pg.ids[j] == m[k] else pg.keys[j] != k)
  {
    var s, pc := run[i], PcOf(run[i], t);
    var pg, k, m := At(s, pc.at), pc.k, Replayed(run[0].top, acts, i);
    var j := FindSlot(pg.keys, k);
    SearchFindsPage(run, acts, i, t);
    RunKeeps(run, acts, i);
    assert PageOk(s, pc.at);
    if pg.keys[j] == k {
      assert BindsAt(pg, k, pg.ids[j], j) && BoundIn(s, k, pg.ids[j], pc.at);
      TreeIsMap(run, acts, i, k, pg.ids[j]);
    }
    if k in m {
      TreeIsMap(run, acts, i, k, m[k]);
      FoundSlot(s, pc.at, k, m[k]);
    }
  }

  /** The page that covers a bound key binds it, at the slot the search finds. */
  lemma FoundSlot(s: State, at: PageNo, k: int, id: PageNo)
    requires Inv(s) && Bound(s, k, id) && at in s.pages && At(s, at).lvl == 0 && Covers(At(s, at), k)
    ensures var pg := At(s, at); var j := FindSlot(pg.keys, k); BindsAt(pg, k, id, j)
  {
    var q :| BoundIn(s, k, id, q);
    BoundIsCovered(s, k, id, q);
    CoverUnique(s, q, at, k);
    var pg := At(s, at);
    var h :| BindsAt(pg, k, id, h);
    var j := FindSlot(pg.keys, k);
    assert PageOk(s, at);
  }
}
