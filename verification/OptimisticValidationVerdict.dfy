/** Exactly which transactions the validation of bench/cc/occ.cpp lets pass, told from the acts of a run: from what the
    transactions read and updated, when they entered and when they left. */
module OptimisticValidationVerdict {
  import opened Prelude
  import opened OptimisticValidation

  // ----- what the acts say

  ghost function ReadSet(acts: seq<Act>, i: nat, t: Txn): set<Row>
    requires i <= |acts|
  {
    set k | 0 <= k < i && acts[k].Read? && acts[k].t == t :: acts[k].x
  }

  ghost function WriteSet(acts: seq<Act>, i: nat, t: Txn): set<Row>
    requires i <= |acts|
  {
    set k | 0 <= k < i && acts[k].Update? && acts[k].t == t :: acts[k].x
  }

  ghost predicate HasEntered(acts: seq<Act>, i: nat, t: Txn) { i <= |acts| && Enter(t) in acts[..i] }
  ghost predicate HasLeft(acts: seq<Act>, i: nat, t: Txn) { i <= |acts| && Leave(t) in acts[..i] }

  /** Any run, whatever numbers transactions begin with and whatever rows they update. */
  ghost predicate IsAnyRun(run: seq<State>, acts: seq<Act>) {
    |run| == |acts| + 1 && run[0] == START && forall i :: 0 <= i < |acts| ==> MovesAt(run, acts, i)
  }

  // ----- the states follow the acts

  ghost predicate Follows(s: State, acts: seq<Act>, i: nat, t: Txn)
    requires i <= |acts|
  {
    var r := T(s, t);
    && r.rset == ReadSet(acts, i, t) && r.wset == WriteSet(acts, i, t)
    && (r.phase.Unborn? ==> r.rset == {} && r.wset == {})
    && (HasEntered(acts, i, t) <==> !r.phase.Unborn? && !r.phase.Running?)
    && (HasLeft(acts, i, t) <==> r.phase.Committed? || r.phase.Aborted?)
  }

  lemma Snoc(acts: seq<Act>, i: nat, t: Txn)
    requires 0 < i <= |acts|
    ensures HasEntered(acts, i, t) <==> HasEntered(acts, i - 1, t) || acts[i - 1] == Enter(t)
    ensures HasLeft(acts, i, t) <==> HasLeft(acts, i - 1, t) || acts[i - 1] == Leave(t)
  {
    assert acts[..i] == acts[..i - 1] + [acts[i - 1]];
  }

  lemma SnocReads(acts: seq<Act>, i: nat, t: Txn)
    requires 0 < i <= |acts|
    ensures ReadSet(acts, i, t) ==
      ReadSet(acts, i - 1, t) + if acts[i - 1].Read? && acts[i - 1].t == t then {acts[i - 1].x} else {}
    ensures WriteSet(acts, i, t) ==
      WriteSet(acts, i - 1, t) + if acts[i - 1].Update? && acts[i - 1].t == t then {acts[i - 1].x} else {}
  {
  }

  lemma FollowsOn(s: State, acts: seq<Act>, i: nat, t: Txn)
    requires 0 < i <= |acts| && Enabled(s, acts[i - 1]) && Follows(s, acts, i - 1, t)
    ensures Follows(Step(s, acts[i - 1]), acts, i, t)
  {
    Snoc(acts, i, t);
    SnocReads(acts, i, t);
  }

  lemma {:induction false} AllFollow(run: seq<State>, acts: seq<Act>, i: nat, t: Txn)
    requires IsAnyRun(run, acts) && i < |run|
    ensures Follows(run[i], acts, i, t)
  {
    if i > 0 {
      AllFollow(run, acts, i - 1, t);
      assert MovesAt(run, acts, i - 1);
      FollowsOn(run[i - 1], acts, i, t);
    }
  }

  /** Once it has entered, what a transaction read and updates is fixed. */
  lemma {:induction false} SetsAreFixed(run: seq<State>, acts: seq<Act>, e: nat, i: nat, t: Txn)
    requires IsAnyRun(run, acts) && e <= i < |run| && HasEntered(acts, e, t)
    ensures HasEntered(acts, i, t) && ReadSet(acts, i, t) == ReadSet(acts, e, t)
    ensures WriteSet(acts, i, t) == WriteSet(acts, e, t)
  {
    if e < i {
      SetsAreFixed(run, acts, e, i - 1, t);
      AllFollow(run, acts, i - 1, t);
      assert MovesAt(run, acts, i - 1);
      Snoc(acts, i, t);
      SnocReads(acts, i, t);
    }
  }

  /** The active list holds, once each, the writers that have entered and not left. */
  ghost predicate ActiveOk(s: State) {
    && NoDup(s.active)
    && forall t :: t in s.active <==>
         var x := T(s, t); x.wset != {} && (x.phase.Validating? || x.phase.Writing? || x.phase.Failed?)
  }

  lemma ActiveOn(s: State, a: Act)
    requires ActiveOk(s) && Enabled(s, a)
    ensures ActiveOk(Step(s, a))
  {
    var s' := Step(s, a);
    forall u | u != a.t ensures T(s', u) == T(s, u) {}
    if a.Leave? && T(s, a.t).wset != {} { UnlinkOk(s.active, a.t); }
  }

  lemma {:induction false} ActiveIs(run: seq<State>, acts: seq<Act>, i: nat)
    requires IsAnyRun(run, acts) && i < |run|
    ensures ActiveOk(run[i])
  {
    if i > 0 {
      ActiveIs(run, acts, i - 1);
      assert MovesAt(run, acts, i - 1);
      ActiveOn(run[i - 1], acts[i - 1]);
    }
  }

  // ----- the numbers given out

  /** Act `k` is a writer's leaving after it passed. */
  ghost predicate Commits(run: seq<State>, acts: seq<Act>, k: nat, t: Txn) {
    && k < |acts| && |run| == |acts| + 1 && acts[k] == Leave(t)
    && T(run[k], t).phase.Writing? && WriteSet(acts, k, t) != {}
  }

  /** How many writers have left after they passed. */
  ghost function Count(run: seq<State>, acts: seq<Act>, i: nat): nat
    requires |run| == |acts| + 1 && i < |run|
  {
    if i == 0 then 0 else Count(run, acts, i - 1) + if Commits(run, acts, i - 1, acts[i - 1].t) then 1 else 0
  }

  lemma {:induction false} CountGrows(run: seq<State>, acts: seq<Act>, i: nat, j: nat)
    requires |run| == |acts| + 1 && i <= j < |run|
    ensures Count(run, acts, i) <= Count(run, acts, j)
  {
    if i < j { CountGrows(run, acts, i, j - 1); }
  }

  lemma {:induction false} CounterIs(run: seq<State>, acts: seq<Act>, i: nat)
    requires IsAnyRun(run, acts) && i < |run|
    ensures run[i].tnc == Count(run, acts, i)
  {
    if i > 0 {
      CounterIs(run, acts, i - 1);
      assert MovesAt(run, acts, i - 1);
      AllFollow(run, acts, i - 1, acts[i - 1].t);
    }
  }

  /** A member of the history left at act `k` and has the number given out then. */
  ghost predicate Recorded(run: seq<State>, acts: seq<Act>, i: nat, h: Txn, k: nat)
    requires |run| == |acts| + 1 && i < |run|
  {
    k < i && Commits(run, acts, k, h) && T(run[i], h).phase.Committed? && T(run[i], h).tn == Count(run, acts, k + 1)
  }

  lemma LeaverStays(s: State, a: Act, h: Txn)
    requires Enabled(s, a) && (T(s, h).phase.Committed? || T(s, h).phase.Aborted?)
    ensures T(Step(s, a), h) == T(s, h)
  {
  }

  lemma HistoryStep(s: State, a: Act)
    requires Enabled(s, a)
    ensures Step(s, a).history ==
      if a.Leave? && T(s, a.t).phase.Writing? && T(s, a.t).wset != {} then [a.t] + s.history else s.history
  {
  }

  lemma RecordedNow(run: seq<State>, acts: seq<Act>, k: nat, h: Txn)
    requires IsAnyRun(run, acts) && Commits(run, acts, k, h)
    ensures h in run[k + 1].history && Recorded(run, acts, k + 1, h, k)
  {
    assert MovesAt(run, acts, k);
    AllFollow(run, acts, k, h);
    CounterIs(run, acts, k);
    HistoryStep(run[k], acts[k]);
  }

  lemma {:induction false} HistoryHolds(run: seq<State>, acts: seq<Act>, i: nat, h: Txn) returns (k: nat)
    requires IsAnyRun(run, acts) && i < |run| && h in run[i].history
    ensures Recorded(run, acts, i, h, k)
  {
    assert i > 0;
    assert MovesAt(run, acts, i - 1);
    HistoryStep(run[i - 1], acts[i - 1]);
    AllFollow(run, acts, i - 1, acts[i - 1].t);
    if Commits(run, acts, i - 1, h) {
      k := i - 1;
      RecordedNow(run, acts, k, h);
    } else {
      k := HistoryHolds(run, acts, i - 1, h);
      LeaverStays(run[i - 1], acts[i - 1], h);
    }
  }

  lemma {:induction false} HistoryKeeps(run: seq<State>, acts: seq<Act>, k: nat, i: nat, h: Txn)
    requires IsAnyRun(run, acts) && k < i < |run| && Commits(run, acts, k, h)
    ensures h in run[i].history && Recorded(run, acts, i, h, k)
  {
    if i == k + 1 {
      RecordedNow(run, acts, k, h);
    } else {
      HistoryKeeps(run, acts, k, i - 1, h);
      assert MovesAt(run, acts, i - 1);
      HistoryStep(run[i - 1], acts[i - 1]);
      LeaverStays(run[i - 1], acts[i - 1], h);
    }
  }

  // ----- the verdict

  /** What a transaction remembers of its entry at act `e`, and the number it began with. */
  ghost predicate Remembers(run: seq<State>, acts: seq<Act>, e: nat, i: nat, t: Txn)
    requires |run| == |acts| + 1 && e < i < |run|
  {
    T(run[i], t).finish == run[e].tnc && T(run[i], t).live == run[e].active && T(run[i], t).start == T(run[e], t).start
  }

  lemma MemoryStays(s: State, a: Act, t: Txn)
    requires Enabled(s, a) && !T(s, t).phase.Unborn? && !T(s, t).phase.Running?
    ensures T(Step(s, a), t).finish == T(s, t).finish && T(Step(s, a), t).live == T(s, t).live
    ensures T(Step(s, a), t).start == T(s, t).start
  {
  }

  lemma {:induction false} EntryIsRemembered(run: seq<State>, acts: seq<Act>, e: nat, i: nat, t: Txn)
    requires IsAnyRun(run, acts) && e < i < |run| && acts[e] == Enter(t)
    ensures Remembers(run, acts, e, i, t)
  {
    assert MovesAt(run, acts, i - 1);
    if e < i - 1 {
      EntryIsRemembered(run, acts, e, i - 1, t);
      AllFollow(run, acts, i - 1, t);
      assert acts[..i - 1][e] == Enter(t);
      MemoryStays(run[i - 1], acts[i - 1], t);
    }
  }

  /** A transaction keeps the number it began with. */
  lemma {:induction false} StartIs(run: seq<State>, acts: seq<Act>, b: nat, i: nat, t: Txn, start: nat)
    requires IsAnyRun(run, acts) && b < i < |run| && acts[b] == Begin(t, start)
    ensures T(run[i], t).start == start && !T(run[i], t).phase.Unborn?
  {
    assert MovesAt(run, acts, i - 1);
    if b < i - 1 { StartIs(run, acts, b, i - 1, t, start); }
  }

  /** No writer that left, having passed, before `t` entered at act `e`, with a number above `start`, updated a row that
      `t` read. */
  ghost predicate NoneBefore(run: seq<State>, acts: seq<Act>, e: nat, t: Txn, start: nat)
    requires |run| == |acts| + 1 && e < |acts|
  {
    forall k, h :: 0 <= k < e && Commits(run, acts, k, h) && start < Count(run, acts, k + 1) ==>
      WriteSet(acts, e, h) !! ReadSet(acts, e, t)
  }

  /** No transaction that had entered and not left when `t` entered updates a row that `t` read or updates. */
  ghost predicate NoneBeside(acts: seq<Act>, e: nat, t: Txn)
    requires e < |acts|
  {
    forall u :: HasEntered(acts, e, u) && !HasLeft(acts, e, u) ==>
      WriteSet(acts, e, u) !! ReadSet(acts, e, t) && WriteSet(acts, e, u) !! WriteSet(acts, e, t)
  }

  lemma BeforeIs(run: seq<State>, acts: seq<Act>, e: nat, i: nat, t: Txn)
    requires IsAnyRun(run, acts) && e < i < |run| && acts[e] == Enter(t)
    ensures var s, x := run[i], T(run[i], t);
      NoneBefore(run, acts, e, t, x.start) <==>
      forall h :: h in s.history && x.start < T(s, h).tn <= x.finish ==> T(s, h).wset !! x.rset
  {
    var s, x := run[i], T(run[i], t);
    OwnSets(run, acts, e, i, t);
    EntryIsRemembered(run, acts, e, i, t);
    CounterIs(run, acts, e);
    if NoneBefore(run, acts, e, t, x.start) {
      forall h | h in s.history && x.start < T(s, h).tn <= x.finish ensures T(s, h).wset !! x.rset {
        var k := HistoryHolds(run, acts, i, h);
        if k >= e { CountGrows(run, acts, e, k); }
        EarlierSets(run, acts, k, e, i, h);
      }
    }
    if forall h :: h in s.history && x.start < T(s, h).tn <= x.finish ==> T(s, h).wset !! x.rset {
      forall k, h | 0 <= k < e && Commits(run, acts, k, h) && x.start < Count(run, acts, k + 1)
        ensures WriteSet(acts, e, h) !! ReadSet(acts, e, t)
      {
        HistoryKeeps(run, acts, k, i, h);
        CountGrows(run, acts, k + 1, e);
        EarlierSets(run, acts, k, e, i, h);
      }
    }
  }

  lemma OwnSets(run: seq<State>, acts: seq<Act>, e: nat, i: nat, t: Txn)
    requires IsAnyRun(run, acts) && e < i < |run| && acts[e] == Enter(t)
    ensures T(run[i], t).rset == ReadSet(acts, e, t) && T(run[i], t).wset == WriteSet(acts, e, t)
  {
    AllFollow(run, acts, i, t);
    assert acts[..e + 1][e] == Enter(t);
    SetsAreFixed(run, acts, e + 1, i, t);
    SnocReads(acts, e + 1, t);
  }

  lemma EarlierSets(run: seq<State>, acts: seq<Act>, k: nat, e: nat, i: nat, h: Txn)
    requires IsAnyRun(run, acts) && k < e < i < |run| && Commits(run, acts, k, h)
    ensures T(run[i], h).wset == WriteSet(acts, e, h)
  {
    AllFollow(run, acts, k, h);
    AllFollow(run, acts, i, h);
    SetsAreFixed(run, acts, k, e, h);
    SetsAreFixed(run, acts, k, i, h);
  }

  lemma BesideIs(run: seq<State>, acts: seq<Act>, e: nat, i: nat, t: Txn)
    requires IsAnyRun(run, acts) && e < i < |run| && acts[e] == Enter(t)
    ensures var s, x := run[i], T(run[i], t);
      NoneBeside(acts, e, t) <==> forall a :: a in x.live ==> T(s, a).wset !! x.rset && T(s, a).wset !! x.wset
  {
    var s, x := run[i], T(run[i], t);
    OwnSets(run, acts, e, i, t);
    EntryIsRemembered(run, acts, e, i, t);
    ActiveIs(run, acts, e);
    forall u
      ensures u in x.live ==> HasEntered(acts, e, u) && !HasLeft(acts, e, u) && T(s, u).wset == WriteSet(acts, e, u)
      ensures HasEntered(acts, e, u) && !HasLeft(acts, e, u) && WriteSet(acts, e, u) != {} ==> u in x.live
    {
      AllFollow(run, acts, e, u);
      AllFollow(run, acts, i, u);
      if u in x.live { SetsAreFixed(run, acts, e, i, u); }
    }
    if NoneBeside(acts, e, t) {
      forall a | a in x.live ensures T(s, a).wset !! x.rset && T(s, a).wset !! x.wset {}
    }
  }

  /** Transaction `t` begins at act `b` with number `start`, enters at act `e` and is decided at act `i`. */
  ghost predicate Decided(run: seq<State>, acts: seq<Act>, b: nat, e: nat, i: nat, t: Txn, start: nat) {
    && IsAnyRun(run, acts) && b < e < i < |acts|
    && acts[b] == Begin(t, start) && acts[e] == Enter(t) && acts[i] == Decide(t)
  }

  /** The verdict: a transaction passes if and only if no writer that left before it entered, with a number above the
      one it began with, updated a row it read, and no transaction that had entered and not left then updates a row it
      read or updates.  This holds in every run, whatever happened between entry and verdict. */
  lemma VerdictIff(run: seq<State>, acts: seq<Act>, b: nat, e: nat, i: nat, t: Txn, start: nat)
    requires Decided(run, acts, b, e, i, t, start)
    ensures T(run[i + 1], t).phase.Writing? <==> NoneBefore(run, acts, e, t, start) && NoneBeside(acts, e, t)
    ensures T(run[i + 1], t).phase.Writing? || T(run[i + 1], t).phase.Failed?
  {
    assert MovesAt(run, acts, i);
    StartIs(run, acts, b, i, t, start);
    BeforeIs(run, acts, e, i, t);
    BesideIs(run, acts, e, i, t);
  }

  /** From the verdict on, a transaction is on the way to the end that the verdict says. */
  lemma {:induction false} Outcome(run: seq<State>, acts: seq<Act>, i: nat, l: nat, t: Txn)
    requires IsAnyRun(run, acts) && i < l < |run| && acts[i] == Decide(t)
    ensures T(run[l], t).phase.Writing? || T(run[l], t).phase.Committed? <==> T(run[i + 1], t).phase.Writing?
    ensures T(run[l], t).phase.Failed? || T(run[l], t).phase.Aborted? <==> T(run[i + 1], t).phase.Failed?
  {
    assert MovesAt(run, acts, i) && MovesAt(run, acts, l - 1);
    if i < l - 1 { Outcome(run, acts, i, l - 1, t); }
  }

  /** A transaction that leaves at act `l` has committed if and only if it passed; a writer then has the next number. */
  lemma CommitsIffPassed(run: seq<State>, acts: seq<Act>, b: nat, e: nat, i: nat, l: nat, t: Txn, start: nat)
    requires Decided(run, acts, b, e, i, t, start) && i < l < |acts| && acts[l] == Leave(t)
    ensures T(run[l + 1], t).phase.Committed? <==> NoneBefore(run, acts, e, t, start) && NoneBeside(acts, e, t)
    ensures T(run[l + 1], t).phase.Committed? || T(run[l + 1], t).phase.Aborted?
    ensures T(run[l + 1], t).phase.Committed? && WriteSet(acts, l, t) != {} ==>
      t in run[l + 1].history && T(run[l + 1], t).tn == Count(run, acts, l) + 1
  {
    VerdictIff(run, acts, b, e, i, t, start);
    Outcome(run, acts, i, l, t);
    assert MovesAt(run, acts, l);
    AllFollow(run, acts, l + 1, t);
    Snoc(acts, l + 1, t);
    if Commits(run, acts, l, t) { RecordedNow(run, acts, l, t); }
  }

  /** A transaction that no other one overlaps passes: nobody is between entering and leaving when it enters, and nobody
      has committed since it began with a number not below the counter. */
  lemma NoOverlapPasses(run: seq<State>, acts: seq<Act>, b: nat, e: nat, i: nat, t: Txn, start: nat)
    requires Decided(run, acts, b, e, i, t, start) && start >= run[b].tnc
    requires forall u :: HasEntered(acts, e, u) ==> HasLeft(acts, e, u)
    requires forall k, h :: b <= k < e ==> !Commits(run, acts, k, h)
    ensures T(run[i + 1], t).phase.Writing?
  {
    VerdictIff(run, acts, b, e, i, t, start);
    CounterIs(run, acts, b);
    forall k, h | 0 <= k < e && Commits(run, acts, k, h) && start < Count(run, acts, k + 1) ensures false {
      CountGrows(run, acts, k + 1, b);
    }
  }

  /** A transaction that shares no row with another passes, too. */
  lemma DisjointPasses(run: seq<State>, acts: seq<Act>, b: nat, e: nat, i: nat, t: Txn, start: nat)
    requires Decided(run, acts, b, e, i, t, start)
    requires forall u :: u != t ==> WriteSet(acts, e, u) !! ReadSet(acts, e, t) + WriteSet(acts, e, t)
    ensures T(run[i + 1], t).phase.Writing?
  {
    VerdictIff(run, acts, b, e, i, t, start);
    AllFollow(run, acts, e, t);
    assert MovesAt(run, acts, e);
    forall k, h | 0 <= k < e && Commits(run, acts, k, h) ensures h != t {
      HistoryKeeps(run, acts, k, e, h);
    }
  }


  // ----- what the copies are copies of

  /** The transaction that wrote row `x` last, by the acts. */
  ghost function LatestWrite(acts: seq<Act>, i: nat, x: Row): Option<Txn>
    requires i <= |acts|
  {
    if i == 0 then None
    else if acts[i - 1].Write? && acts[i - 1].x == x then Some(acts[i - 1].t)
    else LatestWrite(acts, i - 1, x)
  }

  lemma {:induction false} DatabaseIs(run: seq<State>, acts: seq<Act>, i: nat, x: Row)
    requires IsAnyRun(run, acts) && i < |run|
    ensures Db(run[i], x) == LatestWrite(acts, i, x)
  {
    if i > 0 {
      DatabaseIs(run, acts, i - 1, x);
      assert MovesAt(run, acts, i - 1);
    }
  }

  /** Act `k` is an access of `t`, for reading or for updating, and `c` is the version that was current then. */
  ghost predicate Copies(acts: seq<Act>, k: nat, t: Txn, c: Copy) {
    && k < |acts| && (acts[k].Read? || acts[k].Update?) && acts[k].t == t
    && c == Copy(acts[k].x, LatestWrite(acts, k, acts[k].x))
  }

  ghost predicate CopiedBefore(acts: seq<Act>, i: nat, t: Txn, c: Copy) {
    exists k: nat :: k < i && Copies(acts, k, t, c)
  }

  lemma CopiedNext(acts: seq<Act>, i: nat, t: Txn, c: Copy)
    requires 0 < i <= |acts|
    ensures CopiedBefore(acts, i, t, c) <==> CopiedBefore(acts, i - 1, t, c) || Copies(acts, i - 1, t, c)
  {
    if CopiedBefore(acts, i, t, c) {
      var k: nat :| k < i && Copies(acts, k, t, c);
    }
  }

  lemma SeenStep(s: State, a: Act, t: Txn, c: Copy)
    requires Enabled(s, a) && (T(s, t).phase.Unborn? ==> T(s, t).seen == {})
    ensures T(Step(s, a), t).phase.Unborn? ==> T(Step(s, a), t).seen == {}
    ensures c in T(Step(s, a), t).seen <==>
      c in T(s, t).seen || ((a.Read? || a.Update?) && a.t == t && c == Copy(a.x, Db(s, a.x)))
  {
  }

  /** A transaction has copied exactly the versions that were current at its accesses. */
  lemma {:induction false} SeenIs(run: seq<State>, acts: seq<Act>, i: nat, t: Txn, c: Copy)
    requires IsAnyRun(run, acts) && i < |run|
    ensures c in T(run[i], t).seen <==> CopiedBefore(acts, i, t, c)
    ensures T(run[i], t).phase.Unborn? ==> T(run[i], t).seen == {}
  {
    if i > 0 {
      SeenIs(run, acts, i - 1, t, c);
      assert MovesAt(run, acts, i - 1);
      var a := acts[i - 1];
      if a.Read? || a.Update? { DatabaseIs(run, acts, i - 1, a.x); }
      SeenStep(run[i - 1], a, t, c);
      CopiedNext(acts, i, t, c);
    }
  }


  /** Serializability told by the acts: the version that was current when a validated transaction read a row is the
      one it would read if the validated transactions ran one after another in the order in which they entered. */
  lemma EveryReadIsSerial(run: seq<State>, acts: seq<Act>, blind: bool, k: nat, i: nat, t: Txn, x: Row)
    requires IsRun(run, acts, 0, blind) && k < i < |run| && acts[k] == Read(t, x) && Validated(T(run[i], t))
    ensures T(run[i], t).rank < |run[i].order| && run[i].order[T(run[i], t).rank] == t
    ensures LatestWrite(acts, k, x) == LastWriter(run[i], run[i].order, T(run[i], t).rank, x)
  {
    var c := Copy(x, LatestWrite(acts, k, x));
    assert Copies(acts, k, t, c);
    SeenIs(run, acts, i, t, c);
    AllFollow(run, acts, i, t);
    assert x in ReadSet(acts, i, t);
    ReadsAreSerial(run, acts, blind, i, t, c);
  }
}
