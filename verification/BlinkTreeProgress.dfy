/** Searches and splits of the B-link tree of sandbox/btree2s.c get on: a search is for the key and the level it was
    begun with and, if nobody else moves, ends at the page that covers the key; and splits that wait for each other's
    parent locks and page latches never wait in a circle. */
module BlinkTreeProgress {
  import opened Prelude
  import opened BlinkTree

  // ----- what a search is for

  /** The latest of the first `i` acts that began a search of `t`; -1 if there is none. */
  ghost function SearchOf(acts: seq<Act>, i: nat, t: Tid): (c: int)
    requires i <= |acts|
    ensures -1 <= c < i && (c >= 0 ==> acts[c].StartSearch? && acts[c].t == t)
  {
    if i == 0 then -1
    else if acts[i - 1].StartSearch? && acts[i - 1].t == t then i - 1
    else SearchOf(acts, i - 1, t)
  }

  predicate IsSearch(pc: Pc) { pc.Search? || pc.Found? }

  lemma SearchStays(s: State, a: Act, t: Tid)
    requires Enabled(s, a) && IsSearch(PcOf(Step(s, a), t)) && !(a.StartSearch? && a.t == t)
    ensures IsSearch(PcOf(s, t)) && PcOf(Step(s, a), t).k == PcOf(s, t).k && PcOf(Step(s, a), t).lvl == PcOf(s, t).lvl
  {
    match a
    case Cut(u, p, i, r) => CutPcs(s, u, p, i, r, t);
    case SplitRoot(i, l, r) => RootPcs(s, i, l, r);
    case _ =>
  }

  lemma CutPcs(s: State, u: Tid, p: PageNo, i: nat, r: PageNo, t: Tid)
    requires i + 1 < |At(s, p).keys|
    ensures PcOf(CutStep(s, u, p, i, r), t) == PcOf(s, t) || (t == u && PcOf(CutStep(s, u, p, i, r), t).Waiting?)
  {
  }

  lemma RootPcs(s: State, i: nat, l: PageNo, r: PageNo)
    requires i + 1 < |At(s, ROOT).keys|
    ensures RootStep(s, i, l, r).pcs == s.pcs
  {
  }

  /** A search looks, and has found, for the key and the level with which it was begun. */
  lemma {:induction false} SearchIsFor(run: seq<State>, acts: seq<Act>, i: nat, t: Tid)
    requires IsRun(run, acts) && i < |run| && IsSearch(PcOf(run[i], t))
    ensures var c := SearchOf(acts, i, t);
      c >= 0 && acts[c] == StartSearch(t, PcOf(run[i], t).k, PcOf(run[i], t).lvl)
  {
    assert i > 0 by { assert PcOf(run[0], t).Idle?; }
    assert MovesAt(run, acts, i - 1);
    if !(acts[i - 1].StartSearch? && acts[i - 1].t == t) {
      SearchStays(run[i - 1], acts[i - 1], t);
      SearchIsFor(run, acts, i - 1, t);
    }
  }

  // ----- a search that runs alone

  /** The state after `n` turns of the search of `t` alone. */
  ghost function Alone(s: State, t: Tid, n: nat): State
    decreases n
  {
    if n == 0 || !Enabled(s, SearchStep(t)) then s else Alone(Step(s, SearchStep(t)), t, n - 1)
  }

  lemma GotoTwice(s: State, t: Tid, a: Pc, b: Pc)
    ensures Goto(Goto(s, t, a), t, b) == Goto(s, t, b)
  {
    assert Goto(Goto(s, t, a), t, b).pcs == Goto(s, t, b).pcs;
  }

  lemma Here(s: State, t: Tid)
    requires !PcOf(s, t).Idle?
    ensures Goto(s, t, PcOf(s, t)) == s
  {
    assert Goto(s, t, PcOf(s, t)).pcs == s.pcs;
  }

  /** Page `q` of the level covers the key. */
  ghost predicate IsPage(s: State, q: PageNo, lvl: nat, k: int) {
    q in s.pages && At(s, q).lvl == lvl && Covers(At(s, q), k)
  }

  /** Where a turn that does not stop leads. */
  function NextPage(s: State, k: int, at: PageNo): PageNo {
    var pg := At(s, at);
    var i := FindSlot(pg.keys, k);
    if i == |pg.keys| then pg.right else if i < |pg.ids| then pg.ids[i] else 0
  }

  predicate Stops(s: State, k: int, lvl: nat, at: PageNo) {
    FindSlot(At(s, at).keys, k) < |At(s, at).keys| && At(s, at).lvl == lvl
  }

  ghost predicate OnCourse(s: State, k: int, lvl: nat, at: PageNo) {
    at in s.pages && k <= s.top && lvl <= At(s, at).lvl && Over(At(s, at).low, k)
  }

  lemma TurnIs(s: State, t: Tid, k: int, lvl: nat, at: PageNo, n: nat)
    requires !Stops(s, k, lvl, at) && n > 0
    ensures Alone(Goto(s, t, Search(k, lvl, at)), t, n) ==
            Alone(Goto(s, t, Search(k, lvl, NextPage(s, k, at))), t, n - 1)
  {
    var s0 := Goto(s, t, Search(k, lvl, at));
    assert At(s0, at) == At(s, at);
    GotoTwice(s, t, Search(k, lvl, at), Search(k, lvl, NextPage(s, k, at)));
  }

  lemma TurnLeads(s: State, k: int, lvl: nat, at: PageNo)
    requires Tree(s) && OnCourse(s, k, lvl, at) && !Stops(s, k, lvl, at)
    ensures var next := NextPage(s, k, at);
      && OnCourse(s, k, lvl, next)
      && (At(s, next).lvl < At(s, at).lvl
          || (At(s, next).lvl == At(s, at).lvl && |Rightward(s, next)| < |Rightward(s, at)|))
  {
    SearchTurn(s, k, lvl, at);
    if FindSlot(At(s, at).keys, k) == |At(s, at).keys| {
      NotLast(s, at, k);
      FewerRightward(s, at);
    }
  }

  /** From any page that does not begin above the key the search arrives, after some number of turns, at the page of its
      level that covers the key. */
  lemma {:induction false} Arrives(s: State, t: Tid, k: int, lvl: nat, at: PageNo) returns (n: nat, q: PageNo)
    requires Tree(s) && OnCourse(s, k, lvl, at)
    ensures Alone(Goto(s, t, Search(k, lvl, at)), t, n) == Goto(s, t, Search(k, lvl, q)) && IsPage(s, q, lvl, k)
    decreases At(s, at).lvl, |Rightward(s, at)|
  {
    if Stops(s, k, lvl, at) {
      SearchTurn(s, k, lvl, at);
      n, q := 0, at;
    } else {
      TurnLeads(s, k, lvl, at);
      n, q := Arrives(s, t, k, lvl, NextPage(s, k, at));
      n := n + 1;
      TurnIs(s, t, k, lvl, at, n);
    }
  }

  /** In every state of every run, whatever splits are half done, a search that is begun and during which nobody else
      moves stops at the page of its level that covers its key. */
  lemma SearchAlone(run: seq<State>, acts: seq<Act>, i: nat, t: Tid, k: int, lvl: nat) returns (n: nat, q: PageNo)
    requires IsRun(run, acts) && i < |run| && Enabled(run[i], StartSearch(t, k, lvl))
    ensures IsPage(run[i], q, lvl, k)
    ensures var s := Alone(Step(run[i], StartSearch(t, k, lvl)), t, n);
      && s == Goto(run[i], t, Search(k, lvl, q))
      && Enabled(s, SearchStep(t)) && PcOf(Step(s, SearchStep(t)), t) == Found(k, lvl, q)
  {
    var s := run[i];
    RunKeeps(run, acts, i);
    assert PageOk(s, ROOT);
    n, q := Arrives(s, t, k, lvl, ROOT);
    assert At(Goto(s, t, Search(k, lvl, q)), q) == At(s, q);
    assert PageOk(s, q);
    SlotThere(At(s, q), k);
  }

  lemma SlotThere(pg: Page, k: int)
    requires Covers(pg, k) && |pg.keys| > 0
    ensures FindSlot(pg.keys, k) < |pg.keys|
  {
  }

  // ----- splits do not wait in a circle

  ghost predicate HasTarget(s: State, lvl: nat, k: int) { exists q :: Target(s, q, lvl, k) }

  /** What a pending split waits for is there: its parent lock is free, or the page one level up that covers the fence
      it is to post or redirect is not latched. */
  ghost predicate CanMove(s: State, t: Tid) {
    var pc := PcOf(s, t);
    match pc
    case Waiting(_, _, _, _) => Enabled(s, Acquire(t))
    case Posting(p, _, f, _) => HasTarget(s, At(s, p).lvl + 1, f)
    case Redirecting(p, _, _, hi) => HasTarget(s, At(s, p).lvl + 1, hi)
    case Releasing(_, _, _, _) => Enabled(s, Release(t))
    case _ => false
  }

  /** The pages of the level that begin further left. */
  ghost function Leftward(s: State, p: PageNo): set<PageNo> {
    set q | q in s.pages && At(s, q).lvl == At(s, p).lvl && At(s, p).low.Some? && Over(At(s, q).low, At(s, p).low.value)
  }

  lemma FewerLeftward(s: State, p: PageNo, r: PageNo)
    requires p in s.pages && r in s.pages && At(s, p).lvl == At(s, r).lvl
    requires At(s, r).low.Some? && Over(At(s, p).low, At(s, r).low.value)
    ensures |Leftward(s, p)| < |Leftward(s, r)|
  {
    assert p in Leftward(s, r) && p !in Leftward(s, p) && Leftward(s, p) <= Leftward(s, r);
    var rest := Leftward(s, r) - Leftward(s, p);
    assert p in rest && Leftward(s, r) == Leftward(s, p) + rest;
  }

  /** The covering page one level up is free, or latched by a split of that level that waits. */
  lemma UpOrLatched(s: State, p: PageNo, k: int) returns (q: PageNo)
    requires Inv(s) && p in s.pages && p != ROOT && k <= s.top
    ensures IsPage(s, q, At(s, p).lvl + 1, k)
    ensures q in s.writer ==> PcOf(s, s.writer[q]).Waiting? && PcOf(s, s.writer[q]).p == q && q != ROOT
  {
    assert PageOk(s, p) && PageOk(s, ROOT);
    q := Descend(s, k, At(s, p).lvl + 1, ROOT);
    assert WriterOk(s, q);
  }

  /** Follow what a split waits for: to the holder of its parent lock, which is further left or past waiting for its
      own; or up to the split that latches the page it wants to write.  This ends. */
  lemma {:induction false} Mover(s: State, t: Tid) returns (x: Tid)
    requires Inv(s) && Pending(PcOf(s, t))
    ensures Pending(PcOf(s, x)) && CanMove(s, x)
    decreases At(s, ROOT).lvl - At(s, PcOf(s, t).p).lvl, if PcOf(s, t).Waiting? then 1 else 0,
              |Leftward(s, PcOf(s, t).p)|
  {
    var pc := PcOf(s, t);
    assert SplitOk(s, t) && PageOk(s, pc.p) && LocksOk(s, pc.p);
    if CanMove(s, t) {
      x := t;
    } else if pc.Waiting? {
      var z := s.owner[pc.p];
      assert SplitOk(s, z);
      if PcOf(s, z).Waiting? { FewerLeftward(s, PcOf(s, z).p, pc.p); }
      x := Mover(s, z);
    } else {
      var k := if pc.Posting? then pc.f else pc.hi;
      var q := UpOrLatched(s, pc.p, k);
      if q !in s.writer { assert Target(s, q, At(s, pc.p).lvl + 1, k); }
      assert PageOk(s, q);
      x := Mover(s, s.writer[q]);
    }
  }

  /** In every state of every run in which a split is under way, some split can go on: it can take its parent lock, give
      its locks back, or write the page it is to write. */
  lemma SplitsGoOn(run: seq<State>, acts: seq<Act>, i: nat, t: Tid) returns (x: Tid)
    requires IsRun(run, acts) && i < |run| && Pending(PcOf(run[i], t))
    ensures Pending(PcOf(run[i], x)) && CanMove(run[i], x)
  {
    RunKeeps(run, acts, i);
    x := Mover(run[i], t);
  }

  /** A search begun now, with nobody else moving, comes to latch the page that a split wants to write. */
  lemma Latching(run: seq<State>, acts: seq<Act>, i: nat, u: Tid, k: int, lvl: nat) returns (n: nat, q: PageNo)
    requires IsRun(run, acts) && i < |run| && Enabled(run[i], StartSearch(u, k, lvl)) && HasTarget(run[i], lvl, k)
    ensures var s := Alone(Step(run[i], StartSearch(u, k, lvl)), u, n);
      s == Goto(run[i], u, Search(k, lvl, q)) && Latches(s, u, k, lvl, q)
  {
    var s := run[i];
    RunKeeps(run, acts, i);
    n, q := SearchAlone(run, acts, i, u, k, lvl);
    var q' :| Target(s, q', lvl, k);
    CoverUnique(s, q, q', k);
    assert PageOk(s, q) && At(Goto(s, u, Search(k, lvl, q)), q) == At(s, q);
    SlotThere(At(s, q), k);
  }

  /** A split that posts or redirects can do so after such a search. */
  lemma WritesNext(run: seq<State>, acts: seq<Act>, i: nat, x: Tid, u: Tid) returns (n: nat, q: PageNo)
    requires IsRun(run, acts) && i < |run| && (PcOf(run[i], x).Posting? || PcOf(run[i], x).Redirecting?)
    requires CanMove(run[i], x) && PcOf(run[i], u).Idle?
    ensures var s, pc := run[i], PcOf(run[i], x);
      var k, lvl := if pc.Posting? then pc.f else pc.hi, At(s, pc.p).lvl + 1;
      && Enabled(s, StartSearch(u, k, lvl))
      && Enabled(Alone(Step(s, StartSearch(u, k, lvl)), u, n), if pc.Posting? then Post(x, u, q) else Redirect(x, u, q))
  {
    var s, pc := run[i], PcOf(run[i], x);
    RunKeeps(run, acts, i);
    assert SplitOk(s, x) && PageOk(s, pc.p) && PageOk(s, ROOT);
    var k, lvl := if pc.Posting? then pc.f else pc.hi, At(s, pc.p).lvl + 1;
    n, q := Latching(run, acts, i, u, k, lvl);
    var s' := Goto(s, u, Search(k, lvl, q));
    assert PcOf(s', x) == pc && At(s', pc.p) == At(s, pc.p);
  }
}
