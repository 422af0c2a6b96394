/** How many elements a call of `dequeue_bulk` of moody/concurrentqueue.h gets: all it asked for that are there, if it
    runs alone; otherwise what its second look at the tail leaves of its reservation. */
module DequeueCountersCalls {
  import opened DequeueCounters

  // ----- a call that runs alone

  /** The state after `n` steps of consumer `t` alone. */
  ghost function Alone(s: State, t: Tid, n: nat): State
    decreases n
  {
    if n == 0 || !Enabled(s, Run(t)) then s else Alone(Step(s, Run(t)), t, n - 1)
  }

  lemma NobodyHolds(s: State)
    requires Inv(s) && forall t :: PcOf(s, t).Idle?
    ensures s.optimistic == s.head + s.overcommit
  {
    var all := Units(0, s.optimistic);
    forall u | u in all ensures u in s.taken + s.returned { assert Accounted(s, u); }
    assert all == s.taken + s.returned;
  }

  /** With nothing to take, the call returns after its three loads. */
  lemma NothingThere(s: State, t: Tid, max: nat)
    requires PcOf(s, t).Idle? && s.optimistic == s.head + s.overcommit && s.tail <= s.head
    ensures var s' := Alone(Step(s, Start(t, max)), t, 6);
      PcOf(s', t).Idle? && s'.head == s.head && s'.owner == s.owner && s'.tail == s.tail
  {
    var s0 := Step(s, Start(t, max));
    var s1 := Step(s0, Run(t));
    var s2 := Step(s1, Run(t));
    assert PcOf(s2, t) == ReadOptimistic(max, s.tail, s.overcommit);
    var s3 := Step(s2, Run(t));
    assert Alone(s0, t, 6) == Alone(s1, t, 5) == Alone(s2, t, 4) == Alone(s3, t, 3) == s3;
  }

  lemma SomeThere(s: State, t: Tid, max: nat)
    requires PcOf(s, t).Idle? && s.optimistic == s.head + s.overcommit && s.head < s.tail
    ensures var s', n := Alone(Step(s, Start(t, max)), t, 6), Min(max, s.tail - s.head);
      && PcOf(s', t).Idle? && s'.head == s.head + n && s'.owner == Hand(s.owner, s.head, n, t) && s'.tail == s.tail
  {
    var n := Min(max, s.tail - s.head);
    var s0 := Step(s, Start(t, max));
    var s1 := Step(s0, Run(t));
    var s2 := Step(s1, Run(t));
    assert PcOf(s2, t) == ReadOptimistic(max, s.tail, s.overcommit);
    var s3 := Step(s2, Run(t));
    assert PcOf(s3, t) == Reserve(n, s.overcommit) && s3.optimistic == s.optimistic;
    var s4 := Step(s3, Run(t));
    assert PcOf(s4, t) == Recheck(s.optimistic, n, s.overcommit);
    var s5 := Step(s4, Run(t));
    assert PcOf(s5, t) == Claim(s.optimistic, n) && s5.head == s.head && s5.owner == s.owner;
    var s6 := Step(s5, Run(t));
    assert Alone(s0, t, 6) == Alone(s1, t, 5) == Alone(s2, t, 4) == Alone(s3, t, 3) == Alone(s4, t, 2)
        == Alone(s5, t, 1) == Alone(s6, t, 0);
  }

  /** A call of `dequeue_bulk(max)`, begun when no consumer is in a call and during which no other thread moves, hands
      the caller exactly the first min(max, size) elements. */
  lemma AloneTakesAll(run: seq<State>, acts: seq<Act>, i: nat, t: Tid, max: nat)
    requires IsRun(run, acts) && i < |run| && forall u :: PcOf(run[i], u).Idle?
    ensures var s := run[i];
      var s', n := Alone(Step(s, Start(t, max)), t, 6), Min(max, s.tail - s.head);
      && PcOf(s', t).Idle? && s'.head == s.head + n
      && forall k: nat :: k in s'.owner && s'.owner[k] == t <==>
           (k in s.owner && s.owner[k] == t) || s.head <= k < s.head + n
  {
    var s := run[i];
    RunKeeps(run, acts, i);
    NobodyHolds(s);
    if s.tail <= s.head { NothingThere(s, t, max); } else { SomeThere(s, t, max); }
  }

  // ----- calls that interleave

  /** What a reservation of `n` units from `my` on is worth when the tail is `tail` and `oc` units were given back. */
  function Share(tail: nat, my: nat, n: nat, oc: nat): nat {
    if my - oc >= tail then 0 else if my - oc + n <= tail then n else tail - (my - oc)
  }

  ghost function OwnedBy(s: State, t: Tid): set<nat> {
    set k | k in s.owner && s.owner[k] == t
  }

  /** The elements that the call of `t` is still to be handed. */
  function Due(pc: Pc): nat {
    match pc
    case ReturnSome(_, a, _) => a
    case Claim(_, a) => a
    case _ => 0
  }

  ghost function Total(s: State, t: Tid): nat { |OwnedBy(s, t)| + Due(PcOf(s, t)) }

  predicate Decides(s: State, a: Act, t: Tid) { a == Run(t) && PcOf(s, t).Recheck? }

  lemma HandsOn(s: State, u: Tid, my: nat, a: nat, t: Tid)
    requires Counts(s)
    ensures OwnedBy(Claimed(s, u, my, a), t) == OwnedBy(s, t) + if u == t then Units(s.head, a) else {}
    ensures OwnedBy(s, t) !! Units(s.head, a)
  {
  }

  lemma OthersStay(s: State, a: Act, t: Tid)
    requires Enabled(s, a) && (a.Enqueue? || a.t != t)
    ensures PcOf(Step(s, a), t) == PcOf(s, t)
  {
  }

  lemma OwnersStay(s: State, a: Act)
    requires Enabled(s, a) && !(a.Run? && PcOf(s, a.t).Claim?)
    ensures Step(s, a).owner == s.owner
  {
  }

  lemma VerdictIsShare(tail: nat, my: nat, n: nat, oc: nat)
    ensures Due(Verdict(tail, my, n, oc)) == Share(tail, my, n, oc)
  {
  }

  /** A step of `t` other than a claim. */
  lemma OwnStep(s: State, a: Act, t: Tid)
    requires Enabled(s, a) && !a.Enqueue? && a.t == t && !(a.Run? && PcOf(s, t).Claim?)
    ensures var pc := PcOf(s, t);
      Due(PcOf(Step(s, a), t)) == if Decides(s, a, t) then Share(s.tail, pc.my, pc.n, pc.oc) else Due(pc)
  {
    var pc := PcOf(s, t);
    if pc.Recheck? { VerdictIsShare(s.tail, pc.my, pc.n, pc.oc); }
  }

  /** The second look at the tail settles what a call gets; no other step changes it. */
  lemma TotalStep(s: State, a: Act, t: Tid)
    requires Counts(s) && Enabled(s, a)
    ensures var pc := PcOf(s, t);
      Total(Step(s, a), t) == Total(s, t) + if Decides(s, a, t) then Share(s.tail, pc.my, pc.n, pc.oc) else 0
  {
    if a.Run? && PcOf(s, a.t).Claim? {
      HandsOn(s, a.t, PcOf(s, a.t).my, PcOf(s, a.t).a, t);
      if a.t != t { OthersStay(s, a, t); }
    } else {
      OwnersStay(s, a);
      if a.Enqueue? || a.t != t { OthersStay(s, a, t); } else { OwnStep(s, a, t); }
    }
  }

  /** Thread `t` does not look at the tail for the second time in the acts from `i` on, short of `j`. */
  ghost predicate Undecided(run: seq<State>, acts: seq<Act>, i: nat, j: nat, t: Tid) {
    |run| == |acts| + 1 && j < |run| && forall k :: i <= k < j ==> !Decides(run[k], acts[k], t)
  }

  lemma NextTotal(run: seq<State>, acts: seq<Act>, i: nat, t: Tid)
    requires IsRun(run, acts) && i < |acts|
    ensures var pc := PcOf(run[i], t);
      Total(run[i + 1], t) ==
        Total(run[i], t) + if Decides(run[i], acts[i], t) then Share(run[i].tail, pc.my, pc.n, pc.oc) else 0
  {
    RunKeeps(run, acts, i);
    assert MovesAt(run, acts, i);
    TotalStep(run[i], acts[i], t);
  }

  lemma {:induction false} TotalStays(run: seq<State>, acts: seq<Act>, i: nat, j: nat, t: Tid)
    requires IsRun(run, acts) && i <= j && Undecided(run, acts, i, j, t)
    ensures Total(run[j], t) == Total(run[i], t)
  {
    if i < j {
      TotalStays(run, acts, i, j - 1, t);
      NextTotal(run, acts, j - 1, t);
    }
  }

  /** Whatever others do meanwhile, a call that looks at the tail for the second time at act `i` and has ended in state
      `j` has been handed exactly its share. */
  lemma CallGetsShare(run: seq<State>, acts: seq<Act>, i: nat, j: nat, t: Tid)
    requires IsRun(run, acts) && i < j < |run| && Decides(run[i], acts[i], t) && PcOf(run[j], t).Idle?
    requires Undecided(run, acts, i + 1, j, t)
    ensures var pc := PcOf(run[i], t);
      |OwnedBy(run[j], t)| == |OwnedBy(run[i], t)| + Share(run[i].tail, pc.my, pc.n, pc.oc)
  {
    NextTotal(run, acts, i, t);
    TotalStays(run, acts, i + 1, j, t);
  }

  lemma ReservedBelow(s: State, t: Tid)
    requires Inv(s) && PcOf(s, t).Recheck?
    ensures var pc := PcOf(s, t); pc.oc <= s.overcommit && (pc.n > 0 ==> pc.my + pc.n <= s.optimistic)
  {
    var pc := PcOf(s, t);
    assert Ok(s, t);
    if pc.n > 0 { assert pc.my + pc.n - 1 in Holding(pc); }
    var b := Below(s.returned, pc.my);
    assert s.returned == b + (s.returned - b);
  }

  /** A call is handed less than it reserved only if the elements left are fewer than the units in flight, its own
      included, and those that were given back since it looked. */
  lemma ShortOnlyIfContended(run: seq<State>, acts: seq<Act>, i: nat, t: Tid)
    requires IsRun(run, acts) && i < |run| && PcOf(run[i], t).Recheck?
    ensures var s, pc := run[i], PcOf(run[i], t);
      Share(s.tail, pc.my, pc.n, pc.oc) < pc.n ==>
        s.tail - s.head < |InFlight(s)| + (s.overcommit - pc.oc) && pc.oc <= s.overcommit
  {
    RunKeeps(run, acts, i);
    CountersBalance(run, acts, i);
    ReservedBelow(run[i], t);
  }

  // ----- what the loads before the reservation mean

  /** The argument of the call `t` is in, by the latest act that began one. */
  ghost function Asked(acts: seq<Act>, i: nat, t: Tid): nat
    requires i <= |acts|
  {
    if i == 0 then 0
    else if acts[i - 1].Start? && acts[i - 1].t == t then acts[i - 1].max
    else Asked(acts, i - 1, t)
  }

  predicate Within(pc: Pc, max: nat) {
    match pc
    case ReadTail(m) => m == max
    case ReadOvercommit(m, _) => m == max
    case ReadOptimistic(m, _, _) => m == max
    case Reserve(n, _) => n <= max
    case Recheck(_, n, _) => n <= max
    case ReturnSome(_, a, _) => a <= max
    case Claim(_, a) => a <= max
    case _ => true
  }

  lemma WithinOn(s: State, t: Tid, max: nat)
    requires Enabled(s, Run(t)) && Within(PcOf(s, t), max)
    ensures Within(PcOf(Step(s, Run(t)), t), max)
  {
  }

  /** No call is handed more than it asked for. */
  lemma {:induction false} NeverMoreThanAsked(run: seq<State>, acts: seq<Act>, i: nat, t: Tid)
    requires IsRun(run, acts) && i < |run|
    ensures Within(PcOf(run[i], t), Asked(acts, i, t))
  {
    if i == 0 {
      assert PcOf(run[0], t) == Idle;
    } else {
      NeverMoreThanAsked(run, acts, i - 1, t);
      assert MovesAt(run, acts, i - 1);
      var s, a := run[i - 1], acts[i - 1];
      if a.Enqueue? || a.t != t {
        OthersStay(s, a, t);
      } else if a.Run? {
        WithinOn(s, t, Asked(acts, i - 1, t));
      }
    }
  }


  /** How many elements the first `i` acts have enqueued. */
  ghost function Enqueued(acts: seq<Act>, i: nat): nat
    requires i <= |acts|
  {
    if i == 0 then 0 else Enqueued(acts, i - 1) + if acts[i - 1].Enqueue? then acts[i - 1].count else 0
  }

  lemma TailStep(s: State, a: Act)
    requires Enabled(s, a)
    ensures Step(s, a).tail == s.tail + if a.Enqueue? then a.count else 0
  {
  }

  /** The tail counts exactly the elements enqueued, whatever the consumers do. */
  lemma {:induction false} TailIsEnqueued(run: seq<State>, acts: seq<Act>, i: nat)
    requires IsRun(run, acts) && i < |run|
    ensures run[i].tail == Enqueued(acts, i)
  {
    if i > 0 {
      TailIsEnqueued(run, acts, i - 1);
      assert MovesAt(run, acts, i - 1);
      TailStep(run[i - 1], acts[i - 1]);
    }
  }
}
