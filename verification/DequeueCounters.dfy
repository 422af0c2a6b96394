/** The counters behind `dequeue` and `dequeue_bulk` of moody/concurrentqueue.h.

    A consumer first reserves optimistically (`dequeueOptimisticCount`), then either claims elements by
    advancing `headIndex` or gives the reservation back by advancing `dequeueOvercommit`.  The tail and the
    overcommit count it compares with may be stale.  `dequeue` is the case `max == 1`.  One atomic access is
    one step; any number of consumers and the one producer interleave freely. */
module DequeueCounters {
  type Tid = nat

  datatype Pc =
    | Idle
    | ReadTail(max: nat)
    | ReadOvercommit(max: nat, tail: nat)
    | ReadOptimistic(max: nat, tail: nat, oc: nat)
    | Reserve(n: nat, oc: nat)
    | Recheck(my: nat, n: nat, oc: nat)
    | ReturnSome(my: nat, a: nat, back: nat)
    | Claim(my: nat, a: nat)
    | ReturnAll(my: nat, n: nat)

  /** The four shared counters, the consumers, and three history variables: which reserved units became
      elements, which were given back, and which consumer got which element index. */
  datatype State = State(
    tail: nat, head: nat, optimistic: nat, overcommit: nat, pcs: map<Tid, Pc>,
    taken: set<nat>, returned: set<nat>, owner: map<nat, Tid>)

  datatype Act = Enqueue(count: nat) | Start(t: Tid, max: nat) | Run(t: Tid)

  function PcOf(s: State, t: Tid): Pc {
    if t in s.pcs then s.pcs[t] else Idle
  }

  function Goto(s: State, t: Tid, pc: Pc): State {
    s.(pcs := s.pcs[t := pc])
  }

  function Units(lo: nat, n: nat): (r: set<nat>)
    ensures forall u :: u in r <==> lo <= u < lo + n
    ensures |r| == n
  {
    if n == 0 then {} else Units(lo, n - 1) + {lo + n - 1}
  }

  /** Indices `lo .. lo + n` go to consumer `t`, whoever had them before. */
  function Hand(owner: map<nat, Tid>, lo: nat, n: nat, t: Tid): (r: map<nat, Tid>)
    ensures forall i: nat :: i in r <==> i in owner || lo <= i < lo + n
    ensures forall i: nat :: i in r ==> r[i] == if lo <= i < lo + n then t else owner[i]
  {
    owner + map i | i in Units(lo, n) :: t
  }

  function Min(a: int, b: int): int { if a < b then a else b }

  predicate Enabled(s: State, a: Act) {
    match a
    case Enqueue(_) => true
    case Start(t, _) => PcOf(s, t).Idle?
    case Run(t) => !PcOf(s, t).Idle?
  }

  /** `dequeueOptimisticCount.fetch_add(n)`. */
  function Reserved(s: State, t: Tid, n: nat, oc: nat): State {
    Goto(s, t, Recheck(s.optimistic, n, oc)).(optimistic := s.optimistic + n)
  }

  /** What a second look at the tail leaves of a reservation of `n` units starting at `my`. */
  function Verdict(tail: nat, my: nat, n: nat, oc: nat): Pc {
    var actual := tail - (my - oc);
    if actual <= 0 then ReturnAll(my, n)
    else if actual < n then ReturnSome(my, actual, n - actual)
    else Claim(my, n)
  }

  /** `dequeueOvercommit.fetch_add`, giving the units `back` back. */
  function Return(s: State, t: Tid, back: set<nat>, pc: Pc): State {
    Goto(s, t, pc).(overcommit := s.overcommit + |back|, returned := s.returned + back)
  }

  /** `headIndex.fetch_add(a)`: the consumer now owns the next `a` element indices. */
  function Claimed(s: State, t: Tid, my: nat, a: nat): State {
    Goto(s, t, Idle).(head := s.head + a, taken := s.taken + Units(my, a), owner := Hand(s.owner, s.head, a, t))
  }

  function Step(s: State, a: Act): State
    requires Enabled(s, a)
  {
    match a
    case Enqueue(count) => s.(tail := s.tail + count)
    case Start(t, max) => Goto(s, t, ReadTail(max))
    case Run(t) =>
      match PcOf(s, t)
      case ReadTail(max) => Goto(s, t, ReadOvercommit(max, s.tail))
      case ReadOvercommit(max, tail) => Goto(s, t, ReadOptimistic(max, tail, s.overcommit))
      case ReadOptimistic(max, tail, oc) =>
        var desired := tail - (s.optimistic - oc);
        if desired > 0 then Goto(s, t, Reserve(Min(desired, max), oc)) else Goto(s, t, Idle)
      case Reserve(n, oc) => Reserved(s, t, n, oc)
      case Recheck(my, n, oc) => Goto(s, t, Verdict(s.tail, my, n, oc))
      case ReturnSome(my, a, back) => Return(s, t, Units(my + a, back), Claim(my, a))
      case Claim(my, a) => Claimed(s, t, my, a)
      case ReturnAll(my, n) => Return(s, t, Units(my, n), Idle)
      case Idle => s
  }

  /** The reserved units a consumer has not yet accounted for. */
  function Holding(pc: Pc): set<nat> {
    match pc
    case Recheck(my, n, _) => Units(my, n)
    case ReturnSome(my, a, back) => Units(my, a + back)
    case Claim(my, a) => Units(my, a)
    case ReturnAll(my, n) => Units(my, n)
    case _ => {}
  }

  /** The units a consumer has decided to turn into elements. */
  function Granted(pc: Pc): set<nat> {
    match pc
    case ReturnSome(my, a, _) => Units(my, a)
    case Claim(my, a) => Units(my, a)
    case _ => {}
  }

  function Below(r: set<nat>, u: nat): set<nat> {
    set x | x in r && x < u
  }

  /** A unit may become an element: even discounting only returns of earlier units, it is below the tail. */
  ghost predicate Allowed(s: State, u: nat) {
    u < s.tail + |Below(s.returned, u)|
  }

  ghost predicate ThreadOk(s: State, pc: Pc) {
    && (forall u :: u in Holding(pc) ==> u < s.optimistic && u !in s.taken && u !in s.returned)
    && (forall u :: u in Granted(pc) ==> Allowed(s, u))
    && match pc
       case ReadOvercommit(_, tail) => tail <= s.tail
       case ReadOptimistic(_, tail, oc) => tail <= s.tail && oc <= s.overcommit
       case Reserve(_, oc) => oc <= s.overcommit
       case Recheck(my, _, oc) => oc <= |Below(s.returned, my)|
       case _ => true
  }

  ghost predicate Ok(s: State, t: Tid) { ThreadOk(s, PcOf(s, t)) }
  ghost predicate Apart(s: State, t: Tid, u: Tid) { t != u ==> Holding(PcOf(s, t)) !! Holding(PcOf(s, u)) }
  ghost predicate HeldBy(s: State, u: nat, t: Tid) { u in Holding(PcOf(s, t)) }

  ghost predicate Accounted(s: State, u: nat) {
    u in s.taken || u in s.returned || exists t :: HeldBy(s, u, t)
  }

  ghost predicate Counts(s: State) {
    && s.taken !! s.returned
    && (forall u :: u in s.taken ==> u < s.optimistic && Allowed(s, u))
    && (forall u :: u in s.returned ==> u < s.optimistic)
    && |s.taken| == s.head && |s.returned| == s.overcommit
    && (forall i: nat :: i in s.owner <==> i < s.head)
  }

  ghost predicate AllOk(s: State) { forall t :: Ok(s, t) }
  ghost predicate AllApart(s: State) { forall t, u :: Apart(s, t, u) }
  ghost predicate AllAccounted(s: State) { forall u: nat :: u < s.optimistic ==> Accounted(s, u) }

  ghost predicate Inv(s: State) {
    Counts(s) && AllOk(s) && AllApart(s) && AllAccounted(s) && s.head <= s.tail
  }

  // ----- why the head cannot pass the tail

  lemma BelowGrows(r: set<nat>, r': set<nat>, u: nat)
    requires r <= r'
    ensures |Below(r, u)| <= |Below(r', u)|
  {
    assert Below(r', u) == Below(r, u) + (Below(r', u) - Below(r, u));
  }

  lemma BelowSmaller(r: set<nat>, u: nat, v: nat)
    requires u <= v
    ensures |Below(r, u)| <= |Below(r, v)|
  {
    assert Below(r, v) == Below(r, u) + (Below(r, v) - Below(r, u));
  }

  lemma Largest(g: set<nat>) returns (m: nat)
    requires g != {}
    ensures m in g && forall u :: u in g ==> u <= m
  {
    var x :| x in g;
    m := x;
    if g != {x} {
      var k := Largest(g - {x});
      assert forall u :: u in g ==> u == x || u in g - {x};
      if k > x { m := k; }
    }
  }

  /** A set of allowed units, none of them returned, has at most `tail` members: compare it with the units up to
      its largest member, of which at least the returned ones are missing. */
  lemma AllowedFitsTail(s: State, g: set<nat>)
    requires g !! s.returned && forall u :: u in g ==> Allowed(s, u)
    ensures |g| <= s.tail
  {
    if g != {} {
      var m := Largest(g);
      var b := Below(s.returned, m);
      assert g + b <= Units(0, m + 1);
      assert |Units(0, m + 1)| == |g + b| + |Units(0, m + 1) - (g + b)| by {
        assert Units(0, m + 1) == (g + b) + (Units(0, m + 1) - (g + b));
      }
      assert |g + b| == |g| + |b|;
    }
  }

  // ----- every step keeps the invariant

  /** Facts of a thread survive when the tail and the set of returned units grow and its units stay its own. */
  lemma OkStays(s: State, s': State, t: Tid)
    requires Ok(s, t) && PcOf(s', t) == PcOf(s, t)
    requires s'.tail >= s.tail && s'.optimistic >= s.optimistic && s'.overcommit >= s.overcommit
    requires s.returned <= s'.returned
    requires Holding(PcOf(s, t)) !! s'.taken && Holding(PcOf(s, t)) !! s'.returned
    ensures Ok(s', t)
  {
    var pc := PcOf(s, t);
    forall u | u in Granted(pc) ensures Allowed(s', u) {
      BelowGrows(s.returned, s'.returned, u);
    }
    if pc.Recheck? { BelowGrows(s.returned, s'.returned, pc.my); }
  }

  /** Every reserved unit stays accounted for when the units one thread lets go are recorded. */
  lemma AccountedStays(s: State, s': State, t: Tid)
    requires AllAccounted(s)
    requires s'.optimistic == s.optimistic && s.taken <= s'.taken && s.returned <= s'.returned
    requires forall u :: u != t ==> PcOf(s', u) == PcOf(s, u)
    requires Holding(PcOf(s, t)) <= Holding(PcOf(s', t)) + s'.taken + s'.returned
    ensures AllAccounted(s')
  {
    forall u: nat | u < s'.optimistic ensures Accounted(s', u) {
      assert Accounted(s, u);
      if u !in s'.taken && u !in s'.returned {
        var x :| HeldBy(s, u, x);
        assert HeldBy(s', u, x);
      }
    }
  }

  /** No two threads hold a common unit after one of them kept a subset of what it held. */
  lemma ApartStays(s: State, s': State, t: Tid)
    requires AllApart(s)
    requires forall u :: u != t ==> PcOf(s', u) == PcOf(s, u)
    requires Holding(PcOf(s', t)) <= Holding(PcOf(s, t))
    ensures AllApart(s')
  {
    forall u, v ensures Apart(s', u, v) { assert Apart(s, u, v); }
  }

  /** The other threads' facts after one thread moved some of its units to `taken` or `returned`. */
  lemma OthersStay(s: State, s': State, t: Tid, moved: set<nat>)
    requires Inv(s) && moved <= Holding(PcOf(s, t))
    requires s'.taken <= s.taken + moved && s'.returned <= s.returned + moved && s.returned <= s'.returned
    requires s'.tail == s.tail && s'.optimistic == s.optimistic && s'.overcommit >= s.overcommit
    requires forall u :: u != t ==> PcOf(s', u) == PcOf(s, u)
    requires Ok(s', t)
    ensures AllOk(s')
  {
    forall u ensures Ok(s', u) {
      if u != t {
        assert Ok(s, u) && Apart(s, t, u);
        OkStays(s, s', u);
      }
    }
  }

  lemma AllowedStays(s: State, s': State, u: nat)
    requires Allowed(s, u) && s'.tail >= s.tail && s.returned <= s'.returned
    ensures Allowed(s', u)
  {
    BelowGrows(s.returned, s'.returned, u);
  }

  lemma EnqueueKeeps(s: State, count: nat)
    requires Inv(s)
    ensures Inv(Step(s, Enqueue(count)))
  {
    var s' := Step(s, Enqueue(count));
    forall t ensures Ok(s', t) { assert Ok(s, t); OkStays(s, s', t); }
    forall t, u ensures Apart(s', t, u) { assert Apart(s, t, u); }
    forall u: nat | u < s'.optimistic ensures Accounted(s', u) {
      assert Accounted(s, u);
      if t :| HeldBy(s, u, t) { assert HeldBy(s', u, t); }
    }
  }

  /** Reads, and the decision after the second tail read: the thread keeps exactly the units it held. */
  lemma LocalKeeps(s: State, t: Tid, pc: Pc)
    requires Inv(s) && ThreadOk(s, pc) && Holding(pc) == Holding(PcOf(s, t))
    ensures Inv(Goto(s, t, pc))
  {
    var s' := Goto(s, t, pc);
    forall u ensures Ok(s', u) { if u != t { assert Ok(s, u); OkStays(s, s', u); } }
    SameHoldings(s, s');
  }

  /** Nothing changes hands. */
  lemma SameHoldings(s: State, s': State)
    requires AllApart(s) && AllAccounted(s) && forall u :: Holding(PcOf(s', u)) == Holding(PcOf(s, u))
    requires s'.optimistic == s.optimistic && s'.taken == s.taken && s'.returned == s.returned
    ensures AllApart(s') && AllAccounted(s')
  {
    forall u, v ensures Apart(s', u, v) { assert Apart(s, u, v); }
    forall u: nat | u < s'.optimistic ensures Accounted(s', u) {
      assert Accounted(s, u);
      if x :| HeldBy(s, u, x) { assert HeldBy(s', u, x); }
    }
  }

  lemma ReserveKeeps(s: State, t: Tid, n: nat, oc: nat)
    requires Inv(s) && PcOf(s, t) == Reserve(n, oc)
    ensures Inv(Reserved(s, t, n, oc))
  {
    var s' := Reserved(s, t, n, oc);
    assert Ok(s, t);
    assert Below(s.returned, s.optimistic) == s.returned;
    forall u ensures Ok(s', u) { if u != t { assert Ok(s, u); OkStays(s, s', u); } }
    forall u, v ensures Apart(s', u, v) { assert Apart(s, u, v); assert Ok(s, u) && Ok(s, v); }
    forall u: nat | u < s'.optimistic ensures Accounted(s', u) {
      if u < s.optimistic {
        assert Accounted(s, u);
        if x :| HeldBy(s, u, x) { assert HeldBy(s', u, x); }
      } else {
        assert HeldBy(s', u, t);
      }
    }
  }

  /** The second tail read grants only allowed units, even though `oc` is stale. */
  lemma RecheckKeeps(s: State, t: Tid, my: nat, n: nat, oc: nat)
    requires Inv(s) && PcOf(s, t) == Recheck(my, n, oc)
    ensures Inv(Goto(s, t, Verdict(s.tail, my, n, oc)))
  {
    assert Ok(s, t);
    var pc := Verdict(s.tail, my, n, oc);
    forall u | u in Granted(pc) ensures Allowed(s, u) {
      BelowSmaller(s.returned, my, u);
    }
    LocalKeeps(s, t, pc);
  }

  lemma ReturnCounts(s: State, t: Tid, back: set<nat>, pc: Pc)
    requires Inv(s) && back <= Holding(PcOf(s, t))
    ensures Counts(Return(s, t, back, pc))
  {
    assert Ok(s, t);
    var s' := Return(s, t, back, pc);
    assert |s.returned + back| == |s.returned| + |back|;
    forall u | u in s'.taken ensures Allowed(s', u) { AllowedStays(s, s', u); }
  }

  lemma ReturnOk(s: State, t: Tid, back: set<nat>, pc: Pc)
    requires Inv(s)
    requires Holding(PcOf(s, t)) == back + Holding(pc) && back !! Holding(pc)
    requires Granted(pc) <= Granted(PcOf(s, t)) && (pc.Claim? || pc.Idle?)
    ensures Ok(Return(s, t, back, pc), t)
  {
    assert Ok(s, t);
    var s' := Return(s, t, back, pc);
    forall u | u in Granted(pc) ensures Allowed(s', u) { AllowedStays(s, s', u); }
  }

  /** Giving back the units `back` of a thread, which goes on holding `pc`'s. */
  lemma ReturnKeeps(s: State, t: Tid, back: set<nat>, pc: Pc)
    requires Inv(s)
    requires Holding(PcOf(s, t)) == back + Holding(pc) && back !! Holding(pc)
    requires Granted(pc) <= Granted(PcOf(s, t)) && (pc.Claim? || pc.Idle?)
    ensures Inv(Return(s, t, back, pc))
  {
    var s' := Return(s, t, back, pc);
    ReturnCounts(s, t, back, pc);
    ReturnOk(s, t, back, pc);
    OthersStay(s, s', t, back);
    ApartStays(s, s', t);
    AccountedStays(s, s', t);
  }

  lemma UnitsSplit(my: nat, a: nat, back: nat)
    ensures Units(my, a + back) == Units(my + a, back) + Units(my, a)
    ensures Units(my + a, back) !! Units(my, a)
  {
  }

  lemma ReturnSomeIs(s: State, t: Tid, my: nat, a: nat, back: nat)
    requires PcOf(s, t) == ReturnSome(my, a, back)
    ensures Step(s, Run(t)) == Return(s, t, Units(my + a, back), Claim(my, a))
  {
  }

  lemma ReturnSomeKeeps(s: State, t: Tid, my: nat, a: nat, back: nat)
    requires Inv(s) && PcOf(s, t) == ReturnSome(my, a, back)
    ensures Inv(Step(s, Run(t)))
  {
    UnitsSplit(my, a, back);
    ReturnSomeIs(s, t, my, a, back);
    ReturnKeeps(s, t, Units(my + a, back), Claim(my, a));
  }

  /** All granted units, claimed or about to be: the claim that is about to happen fits below the tail. */
  lemma ClaimFits(s: State, t: Tid, my: nat, a: nat)
    requires Inv(s) && PcOf(s, t) == Claim(my, a)
    ensures s.head + a <= s.tail
  {
    assert Ok(s, t);
    var g := s.taken + Units(my, a);
    assert |g| == |s.taken| + |Units(my, a)|;
    AllowedFitsTail(s, g);
  }

  lemma ClaimCounts(s: State, t: Tid, my: nat, a: nat)
    requires Inv(s) && PcOf(s, t) == Claim(my, a)
    ensures Counts(Claimed(s, t, my, a))
  {
    var s' := Claimed(s, t, my, a);
    assert Ok(s, t);
    assert |s'.taken| == |s.taken| + |Units(my, a)|;
    forall u | u in s'.taken ensures Allowed(s', u) { AllowedStays(s, s', u); }
  }

  lemma ClaimShape(s: State, t: Tid, head: nat, taken: set<nat>, owner: map<nat, Tid>)
    ensures var s' := Goto(s, t, Idle).(head := head, taken := taken, owner := owner);
      && s'.taken == taken && s'.returned == s.returned && s'.tail == s.tail
      && s'.optimistic == s.optimistic && s'.overcommit == s.overcommit
      && PcOf(s', t) == Idle && Ok(s', t) && forall u :: u != t ==> PcOf(s', u) == PcOf(s, u)
  {
  }

  lemma ClaimOthers(s: State, t: Tid, my: nat, a: nat, s': State)
    requires Inv(s) && PcOf(s, t) == Claim(my, a) && Ok(s', t)
    requires s'.taken == s.taken + Units(my, a) && s'.returned == s.returned && s'.tail == s.tail
    requires s'.optimistic == s.optimistic && s'.overcommit == s.overcommit
    requires forall u :: u != t ==> PcOf(s', u) == PcOf(s, u)
    ensures AllOk(s')
  {
    OthersStay(s, s', t, Units(my, a));
  }

  lemma ClaimKeeps(s: State, t: Tid, my: nat, a: nat)
    requires Inv(s) && PcOf(s, t) == Claim(my, a)
    ensures Inv(Claimed(s, t, my, a))
  {
    var s' := Claimed(s, t, my, a);
    ClaimFits(s, t, my, a);
    ClaimCounts(s, t, my, a);
    ClaimShape(s, t, s.head + a, s.taken + Units(my, a), Hand(s.owner, s.head, a, t));
    ClaimOthers(s, t, my, a, s');
    ApartStays(s, s', t);
    AccountedStays(s, s', t);
  }

  lemma ReadKeeps(s: State, t: Tid)
    requires Inv(s) && (PcOf(s, t).ReadTail? || PcOf(s, t).ReadOvercommit? || PcOf(s, t).ReadOptimistic?)
    ensures Inv(Step(s, Run(t)))
  {
    assert Ok(s, t);
    LocalKeeps(s, t, PcOf(Step(s, Run(t)), t));
  }

  lemma ReserveStep(s: State, t: Tid)
    requires Inv(s) && PcOf(s, t).Reserve?
    ensures Inv(Step(s, Run(t)))
  {
    ReserveKeeps(s, t, PcOf(s, t).n, PcOf(s, t).oc);
  }

  lemma RecheckStep(s: State, t: Tid)
    requires Inv(s) && PcOf(s, t).Recheck?
    ensures Inv(Step(s, Run(t)))
  {
    RecheckKeeps(s, t, PcOf(s, t).my, PcOf(s, t).n, PcOf(s, t).oc);
  }

  lemma ReturnSomeStep(s: State, t: Tid)
    requires Inv(s) && PcOf(s, t).ReturnSome?
    ensures Inv(Step(s, Run(t)))
  {
    ReturnSomeKeeps(s, t, PcOf(s, t).my, PcOf(s, t).a, PcOf(s, t).back);
  }

  lemma ReturnAllStep(s: State, t: Tid)
    requires Inv(s) && PcOf(s, t).ReturnAll?
    ensures Inv(Step(s, Run(t)))
  {
    ReturnKeeps(s, t, Units(PcOf(s, t).my, PcOf(s, t).n), Idle);
  }

  lemma ClaimStep(s: State, t: Tid)
    requires Inv(s) && PcOf(s, t).Claim?
    ensures Inv(Step(s, Run(t)))
  {
    ClaimKeeps(s, t, PcOf(s, t).my, PcOf(s, t).a);
  }

  /** Every step of every consumer and of the producer keeps the invariant. */
  lemma StepKeeps(s: State, a: Act)
    requires Inv(s) && Enabled(s, a)
    ensures Inv(Step(s, a))
  {
    match a
    case Enqueue(count) => EnqueueKeeps(s, count);
    case Start(t, max) => LocalKeeps(s, t, ReadTail(max));
    case Run(t) =>
      match PcOf(s, t)
      case Reserve(_, _) => ReserveStep(s, t);
      case Recheck(_, _, _) => RecheckStep(s, t);
      case ReturnSome(_, _, _) => ReturnSomeStep(s, t);
      case ReturnAll(_, _) => ReturnAllStep(s, t);
      case Claim(_, _) => ClaimStep(s, t);
      case _ => ReadKeeps(s, t);
  }

  // ----- whole runs

  ghost predicate Init(s: State) {
    s.tail == s.head == s.optimistic == s.overcommit == 0 && s.taken == s.returned == {} && s.owner == map[] &&
    forall t :: PcOf(s, t) == Idle
  }

  ghost predicate MovesAt(run: seq<State>, acts: seq<Act>, i: nat)
    requires i < |acts| && |run| == |acts| + 1
  {
    Enabled(run[i], acts[i]) && run[i + 1] == Step(run[i], acts[i])
  }

  ghost predicate IsRun(run: seq<State>, acts: seq<Act>) {
    |run| == |acts| + 1 && Init(run[0]) && forall i :: 0 <= i < |acts| ==> MovesAt(run, acts, i)
  }

  lemma {:induction false} RunKeeps(run: seq<State>, acts: seq<Act>, i: nat)
    requires IsRun(run, acts) && i < |run|
    ensures Inv(run[i])
  {
    if i == 0 {
      var s := run[0];
      forall t ensures Ok(s, t) { assert PcOf(s, t) == Idle; }
      forall t, u ensures Apart(s, t, u) { assert PcOf(s, t) == Idle; }
    } else {
      RunKeeps(run, acts, i - 1);
      assert MovesAt(run, acts, i - 1);
      StepKeeps(run[i - 1], acts[i - 1]);
    }
  }

  /** The reserved units that are still in flight: neither claimed nor given back. */
  ghost function InFlight(s: State): set<nat> {
    Units(0, s.optimistic) - s.taken - s.returned
  }

  /** In every run: the optimistic count is the head plus the overcommit plus the in-flight reservations, each
      of which exactly one consumer holds; the head never passes the tail; and exactly the indices below the
      head have been handed out. */
  lemma CountersBalance(run: seq<State>, acts: seq<Act>, i: nat)
    requires IsRun(run, acts) && i < |run|
    ensures run[i].optimistic == run[i].head + run[i].overcommit + |InFlight(run[i])|
    ensures forall u :: u in InFlight(run[i]) <==> exists t :: HeldBy(run[i], u, t)
    ensures forall u, t, v :: HeldBy(run[i], u, t) && HeldBy(run[i], u, v) ==> t == v
    ensures run[i].head <= run[i].tail
    ensures forall k :: k in run[i].owner <==> 0 <= k < run[i].head
  {
    RunKeeps(run, acts, i);
    var s := run[i];
    var all := Units(0, s.optimistic);
    assert all == s.taken + s.returned + InFlight(s);
    assert |s.taken + s.returned| == |s.taken| + |s.returned|;
    assert |all| == |s.taken + s.returned| + |InFlight(s)|;
    forall u | u in InFlight(s) ensures exists t :: HeldBy(s, u, t) { assert Accounted(s, u); }
    forall u, t | HeldBy(s, u, t) ensures u in InFlight(s) { assert Ok(s, t); }
    forall u, t, v | HeldBy(s, u, t) && HeldBy(s, u, v) ensures t == v { assert Apart(s, t, v); }
  }

  lemma OwnerStays(run: seq<State>, acts: seq<Act>, i: nat, k: nat)
    requires IsRun(run, acts) && i < |acts| && k in run[i].owner
    ensures k in run[i + 1].owner && run[i + 1].owner[k] == run[i].owner[k]
  {
    assert MovesAt(run, acts, i);
    RunKeeps(run, acts, i);
    StepOwners(run[i], acts[i], k);
  }

  /** A claim starts at the head, and every owned index is below it. */
  lemma StepOwners(s: State, a: Act, k: nat)
    requires Counts(s) && Enabled(s, a) && k in s.owner
    ensures k in Step(s, a).owner && Step(s, a).owner[k] == s.owner[k]
  {
  }

  /** Once an index is handed to a consumer it stays that consumer's: no index is handed out twice. */
  lemma {:induction false} OwnerIsForever(run: seq<State>, acts: seq<Act>, i: nat, j: nat, k: nat)
    requires IsRun(run, acts) && i <= j < |run| && k in run[i].owner
    ensures k in run[j].owner && run[j].owner[k] == run[i].owner[k]
  {
    if i < j {
      OwnerIsForever(run, acts, i, j - 1, k);
      OwnerStays(run, acts, j - 1, k);
    }
  }

  /** When no consumer is in a call, every optimistic reservation has been claimed or given back. */
  lemma QuiescentBalance(run: seq<State>, acts: seq<Act>, i: nat)
    requires IsRun(run, acts) && i < |run|
    requires forall t :: PcOf(run[i], t).Idle?
    ensures run[i].optimistic == run[i].head + run[i].overcommit
  {
    CountersBalance(run, acts, i);
    assert InFlight(run[i]) == {};
  }

  // ----- index comparison under wrap-around

  const WORD: int := 0x1_0000_0000_0000_0000
  const HALF: int := 0x8000_0000_0000_0000

  /** `circular_less_than` on 64-bit indices. */
  predicate CircularLess(a: int, b: int) {
    (a - b) % WORD > HALF
  }

  /** On wrapped indices at most half a word apart, the circular comparison is the true one, except that a
      difference of exactly half a word is not seen as smaller. */
  lemma CircularLessIsLess(a: int, b: int)
    requires -HALF <= a - b <= HALF
    ensures CircularLess(a % WORD, b % WORD) <==> a < b && b - a != HALF
  {
    var d := a - b;
    assert (a % WORD - b % WORD) % WORD == d % WORD by {
      ModDifference(a, b);
    }
    if d < 0 { assert d % WORD == d + WORD; }
  }

  lemma ModDifference(a: int, b: int)
    ensures (a % WORD - b % WORD) % WORD == (a - b) % WORD
  {
    var k := a / WORD - b / WORD;
    assert a - b == (a % WORD - b % WORD) + k * WORD;
  }
}
