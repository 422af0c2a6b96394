/** When no split is under way, the pages of the B-link tree of sandbox/btree2s.c describe each other exactly: every
    slot of an interior page points at the one page that covers just the keys of the slot, so that a search goes down
    without ever sliding right.  While splits are under way the only slots that do not are those whose old fence is
    about to be redirected. */
module BlinkTreeExact {
  import opened Prelude
  import opened BlinkTree

  ghost predicate IsLow(s: State, lvl: nat, x: int, c: PageNo) {
    c in s.pages && At(s, c).lvl == lvl && At(s, c).low == Some(x)
  }

  ghost predicate LowAt(s: State, lvl: nat, x: int) { exists c :: IsLow(s, lvl, x, c) }

  /** Every key of an interior page is where a page of the level below begins, or the stopper. */
  ghost predicate BoundOk(s: State, lvl: nat, x: int) { Posted(s, lvl + 1, x) && x != s.top ==> LowAt(s, lvl, x) }

  /** A split has not posted its fence before it is its turn. */
  ghost predicate UnpostedOk(s: State, t: Tid) {
    var pc := PcOf(s, t);
    pc.Waiting? || pc.Posting? ==> !Posted(s, At(s, pc.p).lvl + 1, pc.f)
  }

  /** The slot still points at the left page of a split that is about to redirect it. */
  ghost predicate Stale(s: State, t: Tid, pg: Page, i: nat)
    requires i < |pg.ids| == |pg.keys|
  {
    var pc := PcOf(s, t);
    pc.Redirecting? && pc.p == pg.ids[i] && pc.hi == pg.keys[i] && Lower(pg, i) == Some(pc.f)
  }

  ghost predicate SlotIs(s: State, pg: Page, i: nat)
    requires i < |pg.ids| == |pg.keys|
  {
    At(s, pg.ids[i]).low == Lower(pg, i) || exists t :: Stale(s, t, pg, i)
  }

  /** The page a slot points at begins where the slot begins, unless the slot is stale. */
  ghost predicate SlotsOk(s: State, q: PageNo) {
    var pg := At(s, q);
    q in s.pages && pg.lvl > 0 && |pg.ids| == |pg.keys| ==> forall i: nat :: i < |pg.ids| ==> SlotIs(s, pg, i)
  }

  ghost predicate Exact(s: State) {
    && (forall lvl: nat, x :: BoundOk(s, lvl, x)) && (forall t :: UnpostedOk(s, t)) && (forall q :: SlotsOk(s, q))
  }

  // ----- no key lies strictly inside a page

  lemma LowUnique(s: State, c: PageNo, d: PageNo)
    requires Tree(s) && c in s.pages && d in s.pages && At(s, c).lvl == At(s, d).lvl && At(s, c).low == At(s, d).low
    ensures c == d
  {
    assert PageOk(s, c) && PageOk(s, d) && Apart(s, c, d);
    KeyIsCovered(s, c, High(At(s, c)));
    KeyIsCovered(s, d, High(At(s, d)));
  }

  /** No page begins strictly inside another. */
  lemma NoLowInside(s: State, p: PageNo, x: int)
    requires Tree(s) && p in s.pages && Over(At(s, p).low, x) && x < High(At(s, p))
    ensures !LowAt(s, At(s, p).lvl, x)
  {
    if LowAt(s, At(s, p).lvl, x) {
      var c :| IsLow(s, At(s, p).lvl, x, c);
      assert PageOk(s, c) && PageOk(s, p) && Apart(s, c, p);
      KeyIsCovered(s, c, High(At(s, c)));
    }
  }

  /** Between the lower bound of a page and the fence that is known of it, no key is posted, however often the page has
      been cut again meanwhile. */
  lemma {:induction false} NonePosted(s: State, p: PageNo, fence: int, x: int)
    requires Inv(s) && Exact(s) && p in s.pages && p != ROOT && FenceIs(s, p, fence)
    requires Over(At(s, p).low, x) && x < fence <= s.top
    ensures !Posted(s, At(s, p).lvl + 1, x)
    decreases |Rightward(s, p)|
  {
    var lvl := At(s, p).lvl;
    assert BoundOk(s, lvl, x) && PageOk(s, p) && WriterOk(s, p);
    if x < High(At(s, p)) {
      NoLowInside(s, p, x);
    } else {
      var t := s.writer[p];
      var pc := PcOf(s, t);
      assert SplitOk(s, t) && UnpostedOk(s, t) && LocksOk(s, pc.r);
      if x > pc.f {
        assert PageOk(s, pc.r);
        CutIsRightward(s, p, pc.r);
        NonePosted(s, pc.r, fence, x);
      }
    }
  }

  lemma CutIsRightward(s: State, p: PageNo, r: PageNo)
    requires Tree(s) && p in s.pages && r in s.pages && At(s, r).lvl == At(s, p).lvl
    requires At(s, r).low.Some? && Over(At(s, p).low, At(s, r).low.value)
    ensures |Rightward(s, r)| < |Rightward(s, p)|
  {
    assert r in Rightward(s, p) && r !in Rightward(s, r) && Rightward(s, r) <= Rightward(s, p);
    var rest := Rightward(s, p) - Rightward(s, r);
    assert r in rest && Rightward(s, p) == Rightward(s, r) + rest;
  }

  // ----- steps that leave the pages alone

  /** The pages are the same, no split begins, and splits that are about to redirect stay so. */
  ghost predicate Quiet(s: State, s': State) {
    && s'.pages == s.pages && s'.top == s.top
    && forall t :: var pc, pc' := PcOf(s, t), PcOf(s', t);
         && (pc.Redirecting? || pc'.Redirecting? ==> pc' == pc)
         && (pc'.Waiting? || pc'.Posting? ==> (pc.Waiting? || pc.Posting?) && pc.p == pc'.p && pc.f == pc'.f)
  }

  lemma SamePosted(s: State, s': State, lvl: nat, x: int)
    requires s'.pages == s.pages && s'.top == s.top
    ensures Posted(s', lvl, x) <==> Posted(s, lvl, x)
  {
    forall q ensures PostedIn(s', lvl, x, q) <==> PostedIn(s, lvl, x, q) {}
  }

  lemma QuietKeeps(s: State, s': State)
    requires Exact(s) && Quiet(s, s')
    ensures Exact(s')
  {
    forall p ensures At(s', p) == At(s, p) {}
    forall lvl: nat, x ensures BoundOk(s', lvl, x) {
      assert BoundOk(s, lvl, x);
      SamePosted(s, s', lvl + 1, x);
      if c :| IsLow(s, lvl, x, c) { assert IsLow(s', lvl, x, c); }
    }
    forall t ensures UnpostedOk(s', t) {
      assert UnpostedOk(s, t);
      var pc := PcOf(s', t);
      if pc.Waiting? || pc.Posting? { SamePosted(s, s', At(s, pc.p).lvl + 1, pc.f); }
    }
    forall q ensures SlotsOk(s', q) {
      assert SlotsOk(s, q);
      var pg := At(s, q);
      if q in s.pages && pg.lvl > 0 && |pg.ids| == |pg.keys| {
        forall i: nat | i < |pg.ids| ensures SlotIs(s', pg, i) {
          assert SlotIs(s, pg, i);
          if t :| Stale(s, t, pg, i) { assert Stale(s', t, pg, i); }
        }
      }
    }
  }


  // ----- steps that write pages

  /** Pages stay where they begin. */
  ghost predicate LowsStay(s: State, s': State) {
    && s'.top == s.top
    && forall c :: c in s.pages && c != ROOT ==>
         c in s'.pages && At(s', c).lvl == At(s, c).lvl && At(s', c).low == At(s, c).low
  }

  ghost predicate StalesStay(s: State, s': State) {
    forall t :: PcOf(s, t).Redirecting? ==> PcOf(s', t) == PcOf(s, t)
  }

  lemma LowStays(s: State, s': State, lvl: nat, x: int)
    requires Tree(s) && LowsStay(s, s') && LowAt(s, lvl, x)
    ensures LowAt(s', lvl, x)
  {
    var c :| IsLow(s, lvl, x, c);
    assert PageOk(s, ROOT);
    assert IsLow(s', lvl, x, c);
  }

  /** A slot with the same bounds, key and page is as good as before. */
  lemma SlotStays(s: State, s': State, pg: Page, i: nat, pg': Page, i': nat)
    requires LowsStay(s, s') && StalesStay(s, s')
    requires i < |pg.ids| == |pg.keys| && i' < |pg'.ids| == |pg'.keys| && SlotIs(s, pg, i)
    requires pg.ids[i] in s.pages && pg.ids[i] != ROOT
    requires pg'.ids[i'] == pg.ids[i] && pg'.keys[i'] == pg.keys[i] && Lower(pg', i') == Lower(pg, i)
    ensures SlotIs(s', pg', i')
  {
    if t :| Stale(s, t, pg, i) { assert Stale(s', t, pg', i'); }
  }

  lemma PageStays(s: State, s': State, q: PageNo)
    requires Tree(s) && SlotsOk(s, q) && LowsStay(s, s') && StalesStay(s, s')
    requires q in s.pages && q in s'.pages && At(s', q) == At(s, q)
    ensures SlotsOk(s', q)
  {
    var pg := At(s, q);
    assert PageOk(s, q);
    if pg.lvl > 0 {
      forall i: nat | i < |pg.ids| ensures SlotIs(s', pg, i) {
        assert ChildOk(s, pg, i);
        SlotStays(s, s', pg, i, pg, i);
      }
    }
  }

  lemma LeafPosted(s: State, q: PageNo, k: int, id: PageNo, lvl: nat, x: int)
    requires Target(s, q, 0, k) && lvl > 0
    ensures Posted(LeafStep(s, q, k, id), lvl, x) <==> Posted(s, lvl, x)
  {
    var s' := LeafStep(s, q, k, id);
    forall p ensures PostedIn(s', lvl, x, p) <==> PostedIn(s, lvl, x, p) {}
  }

  lemma LeafExact(s: State, q: PageNo, k: int, id: PageNo)
    requires Inv(s) && Exact(s) && Target(s, q, 0, k)
    ensures Exact(LeafStep(s, q, k, id))
  {
    var s' := LeafStep(s, q, k, id);
    forall p ensures p != q ==> At(s', p) == At(s, p) {}
    assert At(s', q).lvl == 0 && At(s', q).low == At(s, q).low;
    assert LowsStay(s, s') && StalesStay(s, s');
    forall lvl: nat, x ensures BoundOk(s', lvl, x) {
      assert BoundOk(s, lvl, x);
      LeafPosted(s, q, k, id, lvl + 1, x);
      if LowAt(s, lvl, x) { LowStays(s, s', lvl, x); }
    }
    forall t ensures UnpostedOk(s', t) {
      var pc := PcOf(s, t);
      assert UnpostedOk(s, t) && SplitOk(s, t);
      if Pending(pc) { LeafPosted(s, q, k, id, At(s, pc.p).lvl + 1, pc.f); }
    }
    forall p ensures SlotsOk(s', p) {
      assert SlotsOk(s, p);
      if p in s.pages && p != q { PageStays(s, s', p); }
    }
  }

  // ----- posting the fence of the left page

  lemma PostedKey(s: State, q: PageNo, i: nat)
    requires q in s.pages && i < |At(s, q).keys|
    ensures Posted(s, At(s, q).lvl, At(s, q).keys[i])
  {
    assert PostedIn(s, At(s, q).lvl, At(s, q).keys[i], q);
  }

  /** The lower bound of a slot is a key of the level. */
  lemma LowerPosted(s: State, q: PageNo, i: nat)
    requires Inv(s) && q in s.pages && i < |At(s, q).keys| && Lower(At(s, q), i).Some?
    ensures Posted(s, At(s, q).lvl, Lower(At(s, q), i).value)
  {
    var pg := At(s, q);
    if i > 0 { PostedKey(s, q, i - 1); } else { LeftNeighbour(s, q); }
  }

  /** A page that does not begin at the left end begins at another page's fence. */
  lemma LeftNeighbour(s: State, q: PageNo)
    requires Inv(s) && q in s.pages && At(s, q).low.Some?
    ensures Posted(s, At(s, q).lvl, At(s, q).low.value)
  {
    var x, lvl := At(s, q).low.value, At(s, q).lvl;
    assert PageOk(s, q) && PageOk(s, ROOT);
    KeyIsCovered(s, q, High(At(s, q)));
    var p := Descend(s, x, lvl, ROOT);
    assert PageOk(s, p) && Apart(s, p, q);
    assert High(At(s, p)) == x;
    PostedKey(s, p, |At(s, p).keys| - 1);
  }

  lemma NoneInSplit(s: State, t: Tid, x: int)
    requires Inv(s) && Exact(s) && PcOf(s, t).Posting?
    requires var pc := PcOf(s, t); Over(At(s, pc.p).low, x) && x < pc.hi
    ensures !Posted(s, At(s, PcOf(s, t).p).lvl + 1, x)
  {
    var pc := PcOf(s, t);
    assert SplitOk(s, t) && LocksOk(s, pc.p) && LocksOk(s, pc.r) && UnpostedOk(s, t);
    if x < pc.f { NonePosted(s, pc.p, pc.f, x); } else if x > pc.f { NonePosted(s, pc.r, pc.hi, x); }
  }

  /** The slot that the fence of the left page goes into is that of the old fence, points at the left page and begins
      where that begins. */
  lemma PostsIntoOldSlot(s: State, t: Tid, q: PageNo) returns (j: nat)
    requires Inv(s) && Exact(s) && PcOf(s, t).Posting? && Target(s, q, At(s, PcOf(s, t).p).lvl + 1, PcOf(s, t).f)
    ensures var pg, pc := At(s, q), PcOf(s, t);
      && j == FindSlot(pg.keys, pc.f) && j < |pg.keys| == |pg.ids| && pg.keys[j] == pc.hi
      && Lower(pg, j) == At(s, pc.p).low && pg.ids[j] == pc.p
  {
    var pg, pc := At(s, q), PcOf(s, t);
    var low := At(s, pc.p).low;
    j := FindSlot(pg.keys, pc.f);
    assert PageOk(s, q) && SplitOk(s, t) && LocksOk(s, pc.p);
    PostedKey(s, q, j);
    if pg.keys[j] < pc.hi { NoneInSplit(s, t, pg.keys[j]); }
    HiIsNext(s, q, pc.f, pc.hi);
    if Lower(pg, j).Some? {
      LowerPosted(s, q, j);
      if Over(low, Lower(pg, j).value) { NoneInSplit(s, t, Lower(pg, j).value); }
    }
    if low.Some? { BoundaryBelow(s, pg.lvl, low.value, q, pc.f); }
    assert Lower(pg, j) == low;
    OldSlotPage(s, t, q, j);
  }

  /** A posted key above `k` is not below the key of the slot for `k`. */
  lemma HiIsNext(s: State, q: PageNo, k: int, hi: int)
    requires Inv(s) && q in s.pages && Covers(At(s, q), k) && k < hi && Posted(s, At(s, q).lvl, hi)
    ensures var j := FindSlot(At(s, q).keys, k); j < |At(s, q).keys| && At(s, q).keys[j] <= hi
  {
    var q' :| PostedIn(s, At(s, q).lvl, hi, q');
    assert PageOk(s, q) && PageOk(s, q') && Apart(s, q, q');
    KeyIsCovered(s, q', hi);
    var keys, j := At(s, q).keys, FindSlot(At(s, q).keys, k);
    if q' == q {
      var h :| 0 <= h < |keys| && keys[h] == hi;
      assert h >= j;
    } else {
      if j < |keys| - 1 { assert keys[j] < keys[|keys| - 1]; }
    }
  }

  lemma OldSlotPage(s: State, t: Tid, q: PageNo, j: nat)
    requires Inv(s) && Exact(s) && PcOf(s, t).Posting? && Target(s, q, At(s, PcOf(s, t).p).lvl + 1, PcOf(s, t).f)
    requires j < |At(s, q).keys| == |At(s, q).ids| && Lower(At(s, q), j) == At(s, PcOf(s, t).p).low
    ensures At(s, q).ids[j] == PcOf(s, t).p
  {
    var pg, pc := At(s, q), PcOf(s, t);
    assert SlotsOk(s, q) && SplitOk(s, t) && PageOk(s, q);
    assert ChildOk(s, pg, j) && SlotIs(s, pg, j);
    if At(s, pg.ids[j]).low == Lower(pg, j) {
      LowUnique(s, pg.ids[j], pc.p);
    } else {
      var v :| Stale(s, v, pg, j);
      assert SplitOk(s, v);
      LowUnique(s, PcOf(s, v).r, pc.p);
    }
  }

  lemma InsertPosted(s: State, s': State, q: PageNo, k: int, id: PageNo, lvl: nat, x: int)
    requires Tree(s) && q in s.pages && Covers(At(s, q), k) && s'.top == s.top
    requires s'.pages == s.pages[q := Insert(At(s, q), k, id)]
    ensures Posted(s', lvl, x) <==> Posted(s, lvl, x) || (lvl == At(s, q).lvl && x == k)
  {
    assert PageOk(s, q);
    InsertKeys(At(s, q), s.top, k, id);
    InsertOnly(At(s, q), k, id, x);
    PostedElsewhere(s, s', q, lvl, x);
    if lvl == At(s, q).lvl && x == k { assert PostedIn(s', lvl, x, q); }
    if PostedIn(s', lvl, x, q) && x in At(s, q).keys { assert PostedIn(s, lvl, x, q); }
  }

  /** Only page `q` differs, and it has the same keys and perhaps one more. */
  lemma PostedElsewhere(s: State, s': State, q: PageNo, lvl: nat, x: int)
    requires q in s.pages && q in s'.pages && s'.top == s.top && At(s', q).lvl == At(s, q).lvl
    requires forall p :: p != q ==> (p in s'.pages <==> p in s.pages) && At(s', p) == At(s, p)
    requires x in At(s, q).keys ==> x in At(s', q).keys
    ensures Posted(s, lvl, x) ==> Posted(s', lvl, x)
    ensures Posted(s', lvl, x) ==> Posted(s, lvl, x) || PostedIn(s', lvl, x, q)
  {
    if Posted(s, lvl, x) { var p :| PostedIn(s, lvl, x, p); assert PostedIn(s', lvl, x, p); }
    if Posted(s', lvl, x) { var p :| PostedIn(s', lvl, x, p); assert p != q ==> PostedIn(s, lvl, x, p); }
  }

  lemma InsertOnly(pg: Page, k: int, id: PageNo, x: int)
    requires |pg.ids| == |pg.keys|
    ensures x in Insert(pg, k, id).keys ==> x in pg.keys || x == k
  {
  }

  lemma InsertLows(s: State, s': State, q: PageNo, k: int, id: PageNo)
    requires q in s.pages && s'.top == s.top && s'.pages == s.pages[q := Insert(At(s, q), k, id)]
    ensures LowsStay(s, s')
  {
    forall c | c in s.pages ensures c in s'.pages && At(s', c).lvl == At(s, c).lvl && At(s', c).low == At(s, c).low {}
  }

  /** The slots of the parent after posting. */
  lemma PostedSlots(s: State, t: Tid, q: PageNo)
    requires Inv(s) && Exact(s) && PcOf(s, t).Posting? && Target(s, q, At(s, PcOf(s, t).p).lvl + 1, PcOf(s, t).f)
    ensures SlotsOk(PostStep(s, t, q), q)
  {
    var s', pc, pg := PostStep(s, t, q), PcOf(s, t), At(s, q);
    var j := PostsIntoOldSlot(s, t, q);
    assert SplitOk(s, t) && PageOk(s, q) && SlotsOk(s, q);
    InsertLows(s, s', q, pc.f, pc.p);
    assert StalesStay(s, s');
    var pg' := At(s', q);
    assert pg' == pg.(keys := InsertAt(pg.keys, j, pc.f), ids := InsertAt(pg.ids, j, pc.p));
    forall i: nat | i < |pg'.ids| ensures SlotIs(s', pg', i) {
      if i == j {
        assert Lower(pg', j) == Lower(pg, j);
      } else if i == j + 1 {
        assert Stale(s', t, pg', i);
      } else {
        var h := if i < j then i else i - 1;
        assert ChildOk(s, pg, h) && SlotIs(s, pg, h);
        LowerBeside(pg, j, pc.f, pc.p, i);
        SlotStays(s, s', pg, h, pg', i);
      }
    }
  }

  /** A slot that is neither the new one nor the next has the bounds it had. */
  lemma LowerBeside(pg: Page, j: nat, k: int, id: PageNo, i: nat)
    requires j <= |pg.keys| == |pg.ids| && i <= |pg.keys| && i != j && i != j + 1
    ensures var pg', h := pg.(keys := InsertAt(pg.keys, j, k), ids := InsertAt(pg.ids, j, id)),
      if i < j then i else i - 1;
      Lower(pg', i) == Lower(pg, h) && pg'.keys[i] == pg.keys[h] && pg'.ids[i] == pg.ids[h]
  {
  }

  lemma PostUnposted(s: State, t: Tid, q: PageNo, u: Tid)
    requires Inv(s) && Exact(s) && PcOf(s, t).Posting? && Target(s, q, At(s, PcOf(s, t).p).lvl + 1, PcOf(s, t).f)
    ensures UnpostedOk(PostStep(s, t, q), u)
  {
    var s', pc, pu := PostStep(s, t, q), PcOf(s, t), PcOf(s, u);
    assert UnpostedOk(s, u) && SplitOk(s, u) && SplitOk(s, t);
    if u != t && (pu.Waiting? || pu.Posting?) {
      InsertLows(s, s', q, pc.f, pc.p);
      InsertPosted(s, s', q, pc.f, pc.p, At(s, pu.p).lvl + 1, pu.f);
      if pu.f == pc.f && At(s, pu.p).lvl == At(s, pc.p).lvl { LowUnique(s, pu.r, pc.r); }
    }
  }

  lemma PostExact(s: State, t: Tid, q: PageNo)
    requires Inv(s) && Exact(s) && PcOf(s, t).Posting? && Target(s, q, At(s, PcOf(s, t).p).lvl + 1, PcOf(s, t).f)
    ensures Exact(PostStep(s, t, q))
  {
    var s', pc := PostStep(s, t, q), PcOf(s, t);
    assert SplitOk(s, t);
    InsertLows(s, s', q, pc.f, pc.p);
    forall lvl: nat, x ensures BoundOk(s', lvl, x) {
      assert BoundOk(s, lvl, x);
      InsertPosted(s, s', q, pc.f, pc.p, lvl + 1, x);
      if x == pc.f && lvl == At(s, pc.p).lvl { assert IsLow(s, lvl, x, pc.r); }
      if LowAt(s, lvl, x) { LowStays(s, s', lvl, x); }
    }
    forall u ensures UnpostedOk(s', u) { PostUnposted(s, t, q, u); }
    forall p ensures SlotsOk(s', p) {
      assert SlotsOk(s, p);
      if p == q { PostedSlots(s, t, q); } else if p in s.pages { PageStays(s, s', p); }
    }
  }

  // ----- redirecting the old fence to the right page

  lemma RedirectedSlots(s: State, t: Tid, q: PageNo)
    requires Inv(s) && Exact(s) && PcOf(s, t).Redirecting? && Target(s, q, At(s, PcOf(s, t).p).lvl + 1, PcOf(s, t).hi)
    ensures SlotsOk(RedirectStep(s, t, q), q)
  {
    var s', pc, pg := RedirectStep(s, t, q), PcOf(s, t), At(s, q);
    RedirectSlot(s, t, q);
    assert PageOk(s, q) && SlotsOk(s, q) && LocksOk(s, pc.r);
    InsertLows(s, s', q, pc.hi, pc.r);
    var j := FindSlot(pg.keys, pc.hi);
    OldFenceSlot(pg, s.top, pc.hi);
    var pg' := At(s', q);
    assert pg' == pg.(ids := pg.ids[j := pc.r]);
    forall i: nat | i < |pg'.ids| ensures SlotIs(s', pg', i) {
      if i == j {
        RedirectedLower(s, t, q);
      } else {
        assert ChildOk(s, pg, i) && SlotIs(s, pg, i) && pg.keys[i] != pg.keys[j];
        OtherSlot(s, s', t, pg, i, pg');
      }
    }
  }

  lemma OldFenceSlot(pg: Page, top: int, k: int)
    requires KeysOk(pg, top) && k in pg.keys
    ensures var j := FindSlot(pg.keys, k); j < |pg.keys| && pg.keys[j] == k
  {
    var h :| 0 <= h < |pg.keys| && pg.keys[h] == k;
  }

  /** The slot of the old fence begins at the new one. */
  lemma RedirectedLower(s: State, t: Tid, q: PageNo)
    requires Inv(s) && Exact(s) && PcOf(s, t).Redirecting? && Target(s, q, At(s, PcOf(s, t).p).lvl + 1, PcOf(s, t).hi)
    ensures Lower(At(s, q), FindSlot(At(s, q).keys, PcOf(s, t).hi)) == Some(PcOf(s, t).f)
  {
    var pg, pc := At(s, q), PcOf(s, t);
    var j := FindSlot(pg.keys, pc.hi);
    assert SplitOk(s, t) && LocksOk(s, pc.r) && PageOk(s, q);
    BoundaryBelow(s, pg.lvl, pc.f, q, pc.hi);
    LowerPosted(s, q, j);
    if Lower(pg, j).value > pc.f { NonePosted(s, pc.r, pc.hi, Lower(pg, j).value); }
  }

  /** A slot with another key was not the one that `t` was about to redirect. */
  lemma OtherSlot(s: State, s': State, t: Tid, pg: Page, i: nat, pg': Page)
    requires LowsStay(s, s') && PcOf(s, t).Redirecting?
    requires forall u :: u != t ==> PcOf(s', u) == PcOf(s, u)
    requires i < |pg.ids| == |pg.keys| && |pg'.ids| == |pg.ids| && pg'.keys == pg.keys && pg'.low == pg.low
    requires pg'.ids[i] == pg.ids[i] && SlotIs(s, pg, i)
    requires pg.ids[i] in s.pages && pg.ids[i] != ROOT && pg.keys[i] != PcOf(s, t).hi
    ensures SlotIs(s', pg', i)
  {
    if v :| Stale(s, v, pg, i) {
      assert v != t;
      assert Stale(s', v, pg', i);
    }
  }

  /** On another page no slot has the old fence as its key. */
  lemma OtherPage(s: State, t: Tid, q: PageNo, p: PageNo)
    requires Inv(s) && Exact(s) && PcOf(s, t).Redirecting? && Target(s, q, At(s, PcOf(s, t).p).lvl + 1, PcOf(s, t).hi)
    requires p in s.pages && p != q
    ensures SlotsOk(RedirectStep(s, t, q), p)
  {
    var s', pc, pg := RedirectStep(s, t, q), PcOf(s, t), At(s, p);
    assert SlotsOk(s, p) && PageOk(s, p) && SplitOk(s, t);
    InsertLows(s, s', q, pc.hi, pc.r);
    assert At(s', p) == pg;
    if pg.lvl > 0 {
      forall i: nat | i < |pg.ids| ensures SlotIs(s', pg, i) {
        assert ChildOk(s, pg, i) && SlotIs(s, pg, i);
        if v :| Stale(s, v, pg, i) {
          if v == t {
            KeyIsCovered(s, p, pc.hi);
            CoverUnique(s, p, q, pc.hi);
          }
          assert Stale(s', v, pg, i);
        }
      }
    }
  }


  lemma RedirectExact(s: State, t: Tid, q: PageNo)
    requires Inv(s) && Exact(s) && PcOf(s, t).Redirecting? && Target(s, q, At(s, PcOf(s, t).p).lvl + 1, PcOf(s, t).hi)
    ensures Exact(RedirectStep(s, t, q))
  {
    var s', pc := RedirectStep(s, t, q), PcOf(s, t);
    assert SplitOk(s, t);
    InsertLows(s, s', q, pc.hi, pc.r);
    forall lvl: nat, x ensures BoundOk(s', lvl, x) {
      assert BoundOk(s, lvl, x);
      InsertPosted(s, s', q, pc.hi, pc.r, lvl + 1, x);
      if LowAt(s, lvl, x) { LowStays(s, s', lvl, x); }
    }
    forall u ensures UnpostedOk(s', u) {
      var pu := PcOf(s, u);
      assert UnpostedOk(s, u) && SplitOk(s, u);
      if u != t && Pending(pu) { InsertPosted(s, s', q, pc.hi, pc.r, At(s, pu.p).lvl + 1, pu.f); }
    }
    forall p ensures SlotsOk(s', p) {
      if p == q { RedirectedSlots(s, t, q); } else if p in s.pages { OtherPage(s, t, q, p); }
    }
  }

  // ----- cutting a page

  /** The halves of a page have its slots between them. */
  lemma HalfSlots(s: State, s': State, q: PageNo, i: nat, r: PageNo)
    requires Tree(s) && SlotsOk(s, q) && q in s.pages && i + 1 < |At(s, q).keys| && At(s, q).lvl > 0
    requires LowsStay(s, s') && StalesStay(s, s')
    ensures var pg := At(s, q); |pg.ids| == |pg.keys|
    ensures var pg' := LeftHalf(At(s, q), i, r); forall m: nat :: m < |pg'.ids| ==> SlotIs(s', pg', m)
    ensures var pg' := RightHalf(At(s, q), i); forall m: nat :: m < |pg'.ids| ==> SlotIs(s', pg', m)
  {
    var pg := At(s, q);
    assert PageOk(s, q);
    var left, right := LeftHalf(pg, i, r), RightHalf(pg, i);
    forall m: nat | m < |left.ids| ensures SlotIs(s', left, m) {
      assert ChildOk(s, pg, m) && SlotIs(s, pg, m);
      SlotStays(s, s', pg, m, left, m);
    }
    forall m: nat | m < |right.ids| ensures SlotIs(s', right, m) {
      var h := m + i + 1;
      assert ChildOk(s, pg, h) && SlotIs(s, pg, h);
      SlotStays(s, s', pg, h, right, m);
    }
  }

  lemma HalfKeys(pg: Page, i: nat, r: PageNo, x: int)
    requires i + 1 < |pg.keys| && |pg.ids| == |pg.keys|
    ensures x in pg.keys <==> x in LeftHalf(pg, i, r).keys || x in RightHalf(pg, i).keys
  {
    assert pg.keys == pg.keys[..i + 1] + pg.keys[i + 1..];
  }

  lemma CutPosted(s: State, t: Tid, p: PageNo, i: nat, r: PageNo, lvl: nat, x: int)
    requires Tree(s) && Enabled(s, Cut(t, p, i, r))
    ensures Posted(CutStep(s, t, p, i, r), lvl, x) <==> Posted(s, lvl, x)
  {
    var s', pg := CutStep(s, t, p, i, r), At(s, p);
    assert PageOk(s, p);
    HalfKeys(pg, i, r, x);
    if Posted(s, lvl, x) {
      var q :| PostedIn(s, lvl, x, q);
      if q == p { assert PostedIn(s', lvl, x, p) || PostedIn(s', lvl, x, r); } else { assert PostedIn(s', lvl, x, q); }
    }
    if Posted(s', lvl, x) {
      var q :| PostedIn(s', lvl, x, q);
      if q == p || q == r { assert PostedIn(s, lvl, x, p); } else { assert PostedIn(s, lvl, x, q); }
    }
  }

  lemma CutUnposted(s: State, t: Tid, p: PageNo, i: nat, r: PageNo, u: Tid)
    requires Inv(s) && Exact(s) && Enabled(s, Cut(t, p, i, r))
    ensures UnpostedOk(CutStep(s, t, p, i, r), u)
  {
    var s', pg, pu := CutStep(s, t, p, i, r), At(s, p), PcOf(s, u);
    assert PageOk(s, p) && UnpostedOk(s, u) && SplitOk(s, u);
    if u == t {
      var f := pg.keys[i];
      assert f < pg.keys[|pg.keys| - 1];
      KeyIsCovered(s, p, f);
      NoLowInside(s, p, f);
      assert BoundOk(s, pg.lvl, f);
      CutPosted(s, t, p, i, r, pg.lvl + 1, f);
    } else if Pending(pu) {
      CutPosted(s, t, p, i, r, At(s, pu.p).lvl + 1, pu.f);
    }
  }

  lemma CutExact(s: State, t: Tid, p: PageNo, i: nat, r: PageNo)
    requires Inv(s) && Exact(s) && Enabled(s, Cut(t, p, i, r))
    ensures Exact(CutStep(s, t, p, i, r))
  {
    var s', pg := CutStep(s, t, p, i, r), At(s, p);
    assert PageOk(s, p) && SlotsOk(s, p);
    assert At(s', p) == LeftHalf(pg, i, r) && At(s', r) == RightHalf(pg, i);
    forall q ensures q != p && q != r ==> At(s', q) == At(s, q) && (q in s'.pages <==> q in s.pages) {}
    assert LowsStay(s, s') && StalesStay(s, s');
    forall lvl: nat, x ensures BoundOk(s', lvl, x) {
      assert BoundOk(s, lvl, x);
      CutPosted(s, t, p, i, r, lvl + 1, x);
      if LowAt(s, lvl, x) { LowStays(s, s', lvl, x); }
    }
    forall u ensures UnpostedOk(s', u) { CutUnposted(s, t, p, i, r, u); }
    if pg.lvl > 0 { HalfSlots(s, s', p, i, r); }
    forall q ensures SlotsOk(s', q) {
      assert SlotsOk(s, q);
      if q != p && q != r && q in s.pages { PageStays(s, s', q); }
    }
  }

  // ----- splitting the root

  lemma RootPosted(s: State, i: nat, a: PageNo, b: PageNo, lvl: nat, x: int)
    requires Tree(s) && Enabled(s, SplitRoot(i, a, b))
    ensures var pg := At(s, ROOT);
      Posted(RootStep(s, i, a, b), lvl, x) <==>
        Posted(s, lvl, x) || (lvl == pg.lvl + 1 && (x == pg.keys[i] || x == s.top))
  {
    var s', pg := RootStep(s, i, a, b), At(s, ROOT);
    assert PageOk(s, ROOT);
    HalfKeys(pg, i, b, x);
    if Posted(s, lvl, x) {
      var q :| PostedIn(s, lvl, x, q);
      if q == ROOT { assert PostedIn(s', lvl, x, a) || PostedIn(s', lvl, x, b); }
      else { assert PostedIn(s', lvl, x, q); }
    }
    if lvl == pg.lvl + 1 && (x == pg.keys[i] || x == s.top) { assert PostedIn(s', lvl, x, ROOT); }
    if Posted(s', lvl, x) {
      var q :| PostedIn(s', lvl, x, q);
      if q == a || q == b { assert PostedIn(s, lvl, x, ROOT); }
      else if q != ROOT { assert PostedIn(s, lvl, x, q); }
    }
  }

  lemma RootBounds(s: State, i: nat, a: PageNo, b: PageNo, lvl: nat, x: int)
    requires Inv(s) && Exact(s) && Enabled(s, SplitRoot(i, a, b))
    ensures BoundOk(RootStep(s, i, a, b), lvl, x)
  {
    var s', pg := RootStep(s, i, a, b), At(s, ROOT);
    assert PageOk(s, ROOT) && BoundOk(s, lvl, x);
    RootPosted(s, i, a, b, lvl + 1, x);
    assert LowsStay(s, s');
    if lvl == pg.lvl && x == pg.keys[i] { assert IsLow(s', lvl, x, b); }
    if LowAt(s, lvl, x) { LowStays(s, s', lvl, x); }
  }

  lemma RootUnposted(s: State, i: nat, a: PageNo, b: PageNo, u: Tid)
    requires Inv(s) && Exact(s) && Enabled(s, SplitRoot(i, a, b))
    ensures UnpostedOk(RootStep(s, i, a, b), u)
  {
    var pu := PcOf(s, u);
    assert UnpostedOk(s, u) && SplitOk(s, u);
    if Pending(pu) {
      assert PageOk(s, pu.p) && PageOk(s, ROOT);
      RootPosted(s, i, a, b, At(s, pu.p).lvl + 1, pu.f);
    }
  }

  lemma RootSlots(s: State, i: nat, a: PageNo, b: PageNo, q: PageNo)
    requires Inv(s) && Exact(s) && Enabled(s, SplitRoot(i, a, b))
    ensures SlotsOk(RootStep(s, i, a, b), q)
  {
    var s', pg := RootStep(s, i, a, b), At(s, ROOT);
    assert PageOk(s, ROOT) && SlotsOk(s, ROOT) && SlotsOk(s, q);
    assert LowsStay(s, s') && StalesStay(s, s');
    if q == ROOT {
      assert SlotIs(s', At(s', ROOT), 0) && SlotIs(s', At(s', ROOT), 1);
    } else if q == a || q == b {
      if pg.lvl > 0 { HalfSlots(s, s', ROOT, i, b); }
    } else if q in s.pages {
      PageStays(s, s', q);
    }
  }

  lemma RootExact(s: State, i: nat, a: PageNo, b: PageNo)
    requires Inv(s) && Exact(s) && Enabled(s, SplitRoot(i, a, b))
    ensures Exact(RootStep(s, i, a, b))
  {
    var s' := RootStep(s, i, a, b);
    forall lvl: nat, x ensures BoundOk(s', lvl, x) { RootBounds(s, i, a, b, lvl, x); }
    forall u ensures UnpostedOk(s', u) { RootUnposted(s, i, a, b, u); }
    forall q ensures SlotsOk(s', q) { RootSlots(s, i, a, b, q); }
  }

  // ----- every step, every run

  lemma IdleExact(s: State, u: Tid)
    requires Exact(s) && PcOf(s, u).Search?
    ensures Exact(Goto(s, u, Idle))
  {
    QuietKeeps(s, Goto(s, u, Idle));
  }

  lemma InsertionExact(s: State, u: Tid, q: PageNo, k: int, id: PageNo)
    requires Inv(s) && Exact(s) && Latches(s, u, k, 0, q)
    ensures Exact(LeafStep(Goto(s, u, Idle), q, k, id))
  {
    LatchedIsTarget(s, u, k, 0, q);
    IdleExact(s, u);
    LeafExact(Goto(s, u, Idle), q, k, id);
  }

  lemma PostingExact(s: State, t: Tid, u: Tid, q: PageNo)
    requires Inv(s) && Exact(s) && Enabled(s, Post(t, u, q))
    ensures Exact(PostStep(Goto(s, u, Idle), t, q))
  {
    LatchedIsTarget(s, u, PcOf(s, t).f, At(s, PcOf(s, t).p).lvl + 1, q);
    IdleExact(s, u);
    PostExact(Goto(s, u, Idle), t, q);
  }

  lemma RedirectingExact(s: State, t: Tid, u: Tid, q: PageNo)
    requires Inv(s) && Exact(s) && Enabled(s, Redirect(t, u, q))
    ensures Exact(RedirectStep(Goto(s, u, Idle), t, q))
  {
    LatchedIsTarget(s, u, PcOf(s, t).hi, At(s, PcOf(s, t).p).lvl + 1, q);
    IdleExact(s, u);
    RedirectExact(Goto(s, u, Idle), t, q);
  }

  lemma QuietSteps(s: State, a: Act)
    requires Enabled(s, a) && (a.StartSearch? || a.SearchStep? || a.Acquire? || a.Release?)
    ensures Quiet(s, Step(s, a))
  {
  }

  lemma StepExact(s: State, a: Act)
    requires Inv(s) && Exact(s) && Enabled(s, a)
    ensures Exact(Step(s, a))
  {
    match a
    case InsertLeaf(u, q, k, id) => InsertionExact(s, u, q, k, id);
    case Post(t, u, q) => PostingExact(s, t, u, q);
    case Redirect(t, u, q) => RedirectingExact(s, t, u, q);
    case Cut(t, p, i, r) => CutExact(s, t, p, i, r);
    case SplitRoot(i, l, r) => RootExact(s, i, l, r);
    case _ => QuietSteps(s, a); QuietKeeps(s, Step(s, a));
  }

  lemma InitExact(s: State)
    requires Init(s)
    ensures Exact(s)
  {
    forall lvl: nat, x ensures BoundOk(s, lvl, x) {}
    forall t ensures UnpostedOk(s, t) { assert PcOf(s, t).Idle?; }
    assert SlotIs(s, At(s, ROOT), 0);
    forall q ensures SlotsOk(s, q) {}
  }

  lemma {:induction false} RunExact(run: seq<State>, acts: seq<Act>, i: nat)
    requires IsRun(run, acts) && i < |run|
    ensures Inv(run[i]) && Exact(run[i])
  {
    RunKeeps(run, acts, i);
    if i == 0 {
      InitExact(run[0]);
    } else {
      RunExact(run, acts, i - 1);
      assert MovesAt(run, acts, i - 1);
      StepExact(run[i - 1], acts[i - 1]);
    }
  }

  // ----- what that means at rest

  /** Slot `i` of the page and the page it points at cover the same keys. */
  ghost predicate Matches(s: State, pg: Page, i: nat)
    requires i < |pg.ids| == |pg.keys|
  {
    var c := At(s, pg.ids[i]);
    c.low == Lower(pg, i) && High(c) == pg.keys[i]
  }

  /** A page that begins with a slot, and is not being split, ends with it. */
  lemma EndsWithSlot(s: State, q: PageNo, i: nat)
    requires Inv(s) && Exact(s) && (forall t :: !Pending(PcOf(s, t)))
    requires q in s.pages && At(s, q).lvl > 0 && i < |At(s, q).ids| == |At(s, q).keys|
    requires At(s, At(s, q).ids[i]).low == Lower(At(s, q), i)
    ensures High(At(s, At(s, q).ids[i])) == At(s, q).keys[i]
  {
    var pg := At(s, q);
    var c, k := pg.ids[i], pg.keys[i];
    assert PageOk(s, q) && ChildOk(s, pg, i) && PageOk(s, c) && LocksOk(s, c) && OwnerOk(s, c) && WriterOk(s, c);
    assert c !in s.owner && c !in s.writer;
    var x :| FenceIs(s, c, x) && Posted(s, pg.lvl, x);
    KeyIsCovered(s, c, x);
    KeyIsCovered(s, q, k);
    AboveLower(pg, s.top, i);
    if x < k {
      BoundaryBelow(s, pg.lvl, x, q, k);
      OldFenceSlot(pg, s.top, k);
      OneSlot(pg, s.top, i);
    } else if k < x {
      PostedKey(s, q, i);
      NonePosted(s, c, x, k);
    }
  }

  lemma AboveLower(pg: Page, top: int, i: nat)
    requires KeysOk(pg, top) && i < |pg.keys|
    ensures Over(Lower(pg, i), pg.keys[i])
  {
  }

  lemma OneSlot(pg: Page, top: int, i: nat)
    requires KeysOk(pg, top) && i < |pg.keys|
    ensures FindSlot(pg.keys, pg.keys[i]) == i
  {
  }

  /** In every state of every run in which no split is under way, every slot of every interior page points at the page
      that covers exactly the keys of the slot. */
  lemma RestIsExact(run: seq<State>, acts: seq<Act>, h: nat, q: PageNo, i: nat)
    requires IsRun(run, acts) && h < |run| && forall t :: !Pending(PcOf(run[h], t))
    requires q in run[h].pages && At(run[h], q).lvl > 0 && i < |At(run[h], q).ids|
    ensures |At(run[h], q).ids| == |At(run[h], q).keys| && Matches(run[h], At(run[h], q), i)
  {
    var s, pg := run[h], At(run[h], q);
    RunExact(run, acts, h);
    assert PageOk(s, q) && SlotsOk(s, q) && SlotIs(s, pg, i);
    EndsWithSlot(s, q, i);
  }

  /** So a search at rest goes straight down: from a page that covers its key to a page that does. */
  lemma NeverSlides(run: seq<State>, acts: seq<Act>, h: nat, q: PageNo, k: int)
    requires IsRun(run, acts) && h < |run| && forall t :: !Pending(PcOf(run[h], t))
    requires q in run[h].pages && At(run[h], q).lvl > 0 && Covers(At(run[h], q), k)
    ensures var pg := At(run[h], q); var i := FindSlot(pg.keys, k);
      i < |pg.keys| == |pg.ids| && pg.ids[i] in run[h].pages && Covers(At(run[h], pg.ids[i]), k)
  {
    var s, pg := run[h], At(run[h], q);
    var i := FindSlot(pg.keys, k);
    RunKeeps(run, acts, h);
    assert PageOk(s, q);
    RestIsExact(run, acts, h, q, i);
    assert ChildOk(s, pg, i);
  }
}
