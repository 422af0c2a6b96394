/** What the callers of the free list of moody/concurrentqueue.h see, from the acts that begin their calls: when
    `try_get` may answer null, and what a call that runs alone does, whatever the others were in the middle of. */
module RefCountFreeListCalls {
  import opened Prelude
  import opened RefCountFreeList

  predicate Begins(a: Act, t: Tid) { !a.Run? && a.t == t }

  /** The latest of the first `i` acts that began a call of `t`; -1 if there is none. */
  ghost function CallOf(acts: seq<Act>, i: nat, t: Tid): (c: int)
    requires i <= |acts|
    ensures -1 <= c < i && (c >= 0 ==> Begins(acts[c], t))
  {
    if i == 0 then -1 else if Begins(acts[i - 1], t) then i - 1 else CallOf(acts, i - 1, t)
  }

  /** The list was empty at an instant of the call that `t` is in. */
  ghost predicate WasEmpty(run: seq<State>, acts: seq<Act>, i: nat, t: Tid)
    requires |run| == |acts| + 1 && i < |run|
  {
    exists j: nat :: CallOf(acts, i, t) < j <= i && run[j].list == []
  }

  predicate Linking(pc: Pc) { pc.LoadHead? || pc.StoreNext? || pc.StoreRefs? || pc.CasHead? || pc.Retry? }

  /** What a thread does is part of the call `a` that it began; a null that it remembers was read in that call. */
  predicate Fits(pc: Pc, a: Act, empty: bool) {
    match a
    case StartAdd(_, n) => pc.Idle? || pc == Add(n) || (Linking(pc) && pc.n == n && pc.k.Leave?)
    case StartGet(_) =>
      if Linking(pc) then pc.k.Continue? && (pc.k.head == None ==> empty)
      else !pc.Add? && (pc.Sub1? && pc.cur == None ==> empty)
    case Run(_) => false
  }

  lemma FitsOn(s: State, t: Tid, a: Act, empty: bool)
    requires Enabled(s, Run(t)) && Fits(PcOf(s, t), a, empty)
    ensures Fits(PcOf(Step(s, Run(t)), t), a, empty || s.head == None)
  {
  }

  ghost predicate InCall(run: seq<State>, acts: seq<Act>, i: nat, t: Tid)
    requires |run| == |acts| + 1 && i < |run|
  {
    var c := CallOf(acts, i, t);
    if c < 0 then PcOf(run[i], t).Idle? else Fits(PcOf(run[i], t), acts[c], WasEmpty(run, acts, i, t))
  }

  lemma StillEmpty(run: seq<State>, acts: seq<Act>, i: nat, t: Tid)
    requires IsRun(run, acts) && 0 < i < |run| && !Begins(acts[i - 1], t)
    ensures WasEmpty(run, acts, i - 1, t) || run[i - 1].head == None ==> WasEmpty(run, acts, i, t)
  {
    if WasEmpty(run, acts, i - 1, t) {
      var j: nat :| CallOf(acts, i - 1, t) < j <= i - 1 && run[j].list == [];
      assert CallOf(acts, i, t) < j <= i;
    }
    if run[i - 1].head == None {
      RunKeeps(run, acts, i - 1);
      assert CallOf(acts, i, t) < i - 1 && run[i - 1].list == [];
    }
  }

  lemma OthersStay(s: State, a: Act, t: Tid)
    requires Enabled(s, a) && a.t != t
    ensures PcOf(Step(s, a), t) == PcOf(s, t)
  {
  }

  lemma {:induction false} AlwaysInCall(run: seq<State>, acts: seq<Act>, i: nat, t: Tid)
    requires IsRun(run, acts) && i < |run|
    ensures InCall(run, acts, i, t)
  {
    if i == 0 {
      assert PcOf(run[0], t) == Idle;
    } else {
      AlwaysInCall(run, acts, i - 1, t);
      assert MovesAt(run, acts, i - 1);
      var s, a := run[i - 1], acts[i - 1];
      if !Begins(a, t) {
        StillEmpty(run, acts, i, t);
        var c := CallOf(acts, i - 1, t);
        if a.t != t {
          OthersStay(s, a, t);
        } else if c >= 0 {
          FitsOn(s, t, acts[c], WasEmpty(run, acts, i - 1, t));
        }
      }
    }
  }

  /** A call of `try_get` ends at act `i` without a node. */
  ghost predicate AnswersNull(run: seq<State>, acts: seq<Act>, i: nat, t: Tid)
    requires |run| == |acts| + 1 && i < |acts|
  {
    && acts[i] == Run(t) && CallOf(acts, i, t) >= 0 && acts[CallOf(acts, i, t)] == StartGet(t)
    && !PcOf(run[i], t).Sub2? && PcOf(run[i + 1], t).Idle?
  }

  lemma NullSeen(s: State, t: Tid, empty: bool)
    requires Enabled(s, Run(t)) && Fits(PcOf(s, t), StartGet(t), empty)
    requires !PcOf(s, t).Sub2? && PcOf(Step(s, Run(t)), t).Idle?
    ensures empty || s.head == None
  {
  }

  /** `try_get` answers null only if the list was empty at some instant of that call. */
  lemma NullAnswerWasTrue(run: seq<State>, acts: seq<Act>, i: nat, t: Tid) returns (j: nat)
    requires IsRun(run, acts) && i < |acts| && AnswersNull(run, acts, i, t)
    ensures CallOf(acts, i, t) < j <= i && run[j].list == [] && run[j].head == None
  {
    AlwaysInCall(run, acts, i, t);
    assert MovesAt(run, acts, i);
    NullSeen(run[i], t, WasEmpty(run, acts, i, t));
    j := i;
    if !(run[i].head == None) { j :| CallOf(acts, i, t) < j <= i && run[j].list == []; }
    RunKeeps(run, acts, j);
  }

  /** What a call that is adding adds is its argument; a call that hands out a node is a `try_get`. */
  lemma CallsAre(run: seq<State>, acts: seq<Act>, i: nat, t: Tid)
    requires IsRun(run, acts) && i < |run| && !PcOf(run[i], t).Idle?
    ensures CallOf(acts, i, t) >= 0
    ensures PcOf(run[i], t).Add? ==> acts[CallOf(acts, i, t)] == StartAdd(t, PcOf(run[i], t).n)
    ensures PcOf(run[i], t).Sub2? ==> acts[CallOf(acts, i, t)] == StartGet(t)
  {
    AlwaysInCall(run, acts, i, t);
  }

  // ----- calls that run alone

  /** The state after `n` steps of thread `t` alone. */
  ghost function Alone(s: State, t: Tid, n: nat): State
    decreases n
  {
    if n == 0 || !Enabled(s, Run(t)) then s else Alone(Step(s, Run(t)), t, n - 1)
  }

  /** With a reference in hand, the head is taken. */
  lemma Popped(s: State, t: Tid, h: Node)
    requires t in s.pcs && PcOf(s, t) == GetNext(h) && s.head == Some(h)
    ensures var s' := Alone(s, t, 2);
      PcOf(s', t) == Sub2(h) && s'.list == (if |s.list| > 0 then s.list[1..] else []) && s'.head == At(s, h).next
    ensures PcOf(Alone(s, t, 3), t).Idle? && Alone(s, t, 3).list == (if |s.list| > 0 then s.list[1..] else [])
  {
    var s1 := Step(s, Run(t));
    assert s1 == Goto(s, t, CasPop(h, At(s, h).next));
    var s2 := Step(s1, Run(t));
    assert Alone(s, t, 2) == Alone(s1, t, 1) == Alone(s2, t, 0);
    assert Alone(s, t, 3) == Alone(s1, t, 2) == Alone(s2, t, 1) == Alone(Step(s2, Run(t)), t, 0);
  }

  /** A `try_get` on a list that is not empty hands out the first node, if nobody else moves during the call. */
  lemma GetsFirst(s: State, t: Tid)
    requires Inv(s) && Enabled(s, StartGet(t)) && |s.list| > 0
    ensures var s' := Step(s, StartGet(t));
      && PcOf(Alone(s', t, 5), t) == Sub2(s.list[0])
      && PcOf(Alone(s', t, 6), t).Idle? && Alone(s', t, 6).list == s.list[1..]
  {
    var h := s.list[0];
    assert NodeOk(s, h) && h in s.list;
    FewHolders(s, h);
    var r := At(s, h).refs;
    assert 1 <= r < SHOULD && r % SHOULD == r;
    var s0 := Step(s, StartGet(t));
    var s1 := Step(s0, Run(t));
    assert s1 == Goto(s0, t, GetRefs(h));
    var s2 := Step(s1, Run(t));
    assert s2 == Goto(s1, t, CasRefs(h, r));
    var s3 := Step(s2, Run(t));
    assert PcOf(s3, t) == GetNext(h) && s3.list == s.list && s3.head == Some(h);
    assert Alone(s0, t, 5) == Alone(s1, t, 4) == Alone(s2, t, 3) == Alone(s3, t, 2);
    assert Alone(s0, t, 6) == Alone(s1, t, 5) == Alone(s2, t, 4) == Alone(s3, t, 3);
    Popped(s3, t, h);
  }

  /** The owner of a node without references puts it in front, if nobody else moves. */
  lemma Links(s: State, t: Tid, n: Node, k: After)
    requires t in s.pcs && PcOf(s, t) == LoadHead(n, k)
    ensures Alone(s, t, 4).list == [n] + s.list && PcOf(Alone(s, t, 4), t) == Resume(k)
  {
    var s1 := Step(s, Run(t));
    var s2 := Step(s1, Run(t));
    var s3 := Step(s2, Run(t));
    assert PcOf(s3, t) == CasHead(n, s.head, k) && s3.head == s.head && s3.list == s.list;
    var s4 := Step(s3, Run(t));
    assert Alone(s, t, 4) == Alone(s1, t, 3) == Alone(s2, t, 2) == Alone(s3, t, 1) == Alone(s4, t, 0);
  }

  /** An `add` during which nobody else moves puts its node in front of the list, unless somebody holds a reference to
      it; then the node is left to the holders. */
  lemma AddsFirst(s: State, t: Tid, n: Node)
    requires Inv(s) && Enabled(s, StartAdd(t, n))
    ensures var s' := Step(s, StartAdd(t, n));
      if Holders(s, n) == {} then PcOf(Alone(s', t, 5), t).Idle? && Alone(s', t, 5).list == [n] + s.list
      else PcOf(Alone(s', t, 1), t).Idle? && Alone(s', t, 1).list == s.list && At(Alone(s', t, 1), n).role.Waiting?
  {
    assert NodeOk(s, n);
    var s0 := Step(s, StartAdd(t, n));
    var s1 := Step(s0, Run(t));
    assert Alone(s0, t, 1) == Alone(s1, t, 0);
    if Holders(s, n) == {} {
      assert Alone(s0, t, 5) == Alone(s1, t, 4);
      Links(s1, t, n, Leave);
    } else {
      assert |Holders(s, n)| > 0;
    }
  }

  /** The last holder of a node that waits to be linked links it when it lets go. */
  lemma LastHolderLinks(s: State, t: Tid, n: Node, cur: Option<Node>)
    requires Inv(s) && t in s.pcs && PcOf(s, t) == Sub1(n, cur) && At(s, n).role.Waiting? && Holders(s, n) == {t}
    ensures Alone(s, t, 5).list == [n] + s.list
  {
    assert NodeOk(s, n) && At(s, n).refs == SHOULD + 1;
    var s1 := Step(s, Run(t));
    assert PcOf(s1, t) == LoadHead(n, Continue(cur)) && s1.list == s.list;
    assert Alone(s, t, 5) == Alone(s1, t, 4);
    Links(s1, t, n, Continue(cur));
  }

  /** A holder of a node that is not the first in the list comes to let go of it, without a node. */
  lemma HolderLetsGo(s: State, t: Tid, n: Node)
    requires Inv(s) && t in s.pcs && PcOf(s, t) == GetNext(n) && s.head != Some(n)
    ensures Alone(s, t, 2) == Goto(s, t, Sub1(n, s.head))
  {
    var s1 := Step(s, Run(t));
    assert Alone(s, t, 2) == Alone(s1, t, 1) == Alone(Step(s1, Run(t)), t, 0);
    assert Goto(s1, t, Sub1(n, s.head)).pcs == Goto(s, t, Sub1(n, s.head)).pcs;
  }
}
