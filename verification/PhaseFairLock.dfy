/** The phase-fair reader/writer ticket lock of sandbox/btree2u.c (`WriteLock`, `WriteRelease`, `ReadLock`,
    `ReadRelease`), on 16-bit words with wrap-around.  One shared access is one step.

    The low two bits of `rin` are the writer bits (PRES and the writer's phase); the other fourteen count
    reader arrivals, and `rout` counts reader departures in the same units. */
module PhaseFairLock {
  import opened Prelude

  type Tid = nat

  const WORD: int := 0x10000
  const PHID: int := 1
  const PRES: int := 2
  const MASK: int := 3
  const RINC: int := 4
  const READERS: int := 0x4000

  /** Locals (`tix`, `r`, `w`, and the value `v` loaded by `serving[0]++`), with history values beside them: a
      writer's unwrapped ticket `n` and the unwrapped arrival count `a` it saw; a reader's unwrapped arrival
      number `k` and the ticket `n` of the writer it met. */
  datatype Pc =
    | Idle
    | TakeTicket
    | AwaitTurn(n: nat, tix: int)
    | Announce(n: nat, tix: int)
    | AwaitReaders(n: nat, a: nat, r: int)
    | WriteHeld(n: nat, a: nat)
    | LoadServing(n: nat)
    | StoreServing(n: nat, v: int)
    | Arrive
    | AwaitPhase(k: nat, n: nat, w: int)
    | ReadHeld(k: nat)

  /** The four words, the threads, and history variables: the unwrapped counts behind each word and the set
      of arrival numbers of readers that have arrived and not left. */
  datatype State = State(
    rin: int, rout: int, ticket: int, serving: int, pcs: map<Tid, Pc>,
    issued: nat, served: nat, arrivals: nat, departures: nat, inside: set<nat>)

  datatype Act = StartWrite(t: Tid) | StartRead(t: Tid) | Run(t: Tid)

  function PcOf(s: State, t: Tid): Pc {
    if t in s.pcs then s.pcs[t] else Idle
  }

  function Goto(s: State, t: Tid, pc: Pc): State {
    s.(pcs := s.pcs[t := pc])
  }

  /** `PRES | (tix & PHID)`; the low bit of `PRES` is clear. */
  function Bits(tix: int): int { PRES + tix % 2 }

  /** A spinning thread is enabled only when its loop condition lets it go on. */
  predicate Enabled(s: State, a: Act) {
    match a
    case StartWrite(t) => PcOf(s, t).Idle?
    case StartRead(t) => PcOf(s, t).Idle?
    case Run(t) =>
      match PcOf(s, t)
      case Idle => false
      case AwaitTurn(n, tix) => tix == s.serving
      case AwaitReaders(n, a, r) => r == s.rout
      case AwaitPhase(k, n, w) => w != s.rin % 4
      case _ => true
  }

  function Step(s: State, a: Act): State
    requires Enabled(s, a)
  {
    match a
    case StartWrite(t) => Goto(s, t, TakeTicket)
    case StartRead(t) => Goto(s, t, Arrive)
    case Run(t) =>
      match PcOf(s, t)
      case Idle => s
      case TakeTicket => Ticketed(s, t)
      case AwaitTurn(n, tix) => Goto(s, t, Announce(n, tix))
      case Announce(n, tix) => Announced(s, t, n, tix)
      case AwaitReaders(n, a, r) => Goto(s, t, WriteHeld(n, a))
      case WriteHeld(n, a) => Goto(s, t, LoadServing(n)).(rin := s.rin - s.rin % 4)
      case LoadServing(n) => Goto(s, t, StoreServing(n, s.serving))
      case StoreServing(n, v) => Goto(s, t, Idle).(serving := (v + 1) % WORD, served := s.served + 1)
      case Arrive => Arrived(s, t)
      case AwaitPhase(k, n, w) => Goto(s, t, ReadHeld(k))
      case ReadHeld(k) => Departed(s, t, k)
  }

  function Ticketed(s: State, t: Tid): State {
    Goto(s, t, AwaitTurn(s.issued, s.ticket)).(ticket := (s.ticket + 1) % WORD, issued := s.issued + 1)
  }

  /** The writer adds its bits to `rin` and keeps the old word, whose reader count it will wait for. */
  function Announced(s: State, t: Tid, n: nat, tix: int): State {
    Goto(s, t, AwaitReaders(n, s.arrivals, s.rin)).(rin := (s.rin + Bits(tix)) % WORD)
  }

  /** `ReadLock`: count in; if a writer's bits are set, wait for them to change. */
  function Arrived(s: State, t: Tid): State {
    var w := s.rin % 4;
    Goto(s, t, if w != 0 then AwaitPhase(s.arrivals, s.served, w) else ReadHeld(s.arrivals)).(
      rin := (s.rin + RINC) % WORD, arrivals := s.arrivals + 1, inside := s.inside + {s.arrivals})
  }

  function Departed(s: State, t: Tid, k: nat): State {
    Goto(s, t, Idle).(rout := (s.rout + RINC) % WORD, departures := s.departures + 1, inside := s.inside - {k})
  }

  // ----- the invariant

  predicate HasBits(pc: Pc) { pc.AwaitReaders? || pc.WriteHeld? }
  predicate Leaving(pc: Pc) { pc.LoadServing? || pc.StoreServing? }
  predicate AtFront(pc: Pc) { pc.Announce? || HasBits(pc) || Leaving(pc) }
  predicate HasTicket(pc: Pc) { pc.AwaitTurn? || AtFront(pc) }
  predicate Reading(pc: Pc) { pc.AwaitPhase? || pc.ReadHeld? }

  ghost predicate Present(s: State, t: Tid) { HasBits(PcOf(s, t)) }

  /** `rin` carries the bits of the one writer that has announced itself, if any. */
  ghost predicate WordsOk(s: State) {
    && s.ticket == s.issued % WORD && s.serving == s.served % WORD
    && s.rout == RINC * s.departures % WORD
    && s.rin - s.rin % 4 == RINC * s.arrivals % WORD && 0 <= s.rin < WORD
    && (if exists t :: Present(s, t) then s.rin % 4 == Bits(s.served) else s.rin % 4 == 0)
  }

  ghost predicate CountsOk(s: State) {
    && s.served <= s.issued
    && s.departures <= s.arrivals && |s.inside| == s.arrivals - s.departures
    && (forall k :: k in s.inside ==> k < s.arrivals)
  }

  /** The readers that arrived from number `a` on are all still inside. */
  ghost predicate AllInsideFrom(s: State, a: nat) {
    a <= s.arrivals && forall k: nat :: a <= k < s.arrivals ==> k in s.inside
  }

  ghost predicate ThreadOk(s: State, t: Tid) {
    match PcOf(s, t)
    case AwaitTurn(n, tix) => s.served <= n < s.issued && tix == n % WORD
    case Announce(n, tix) => n == s.served < s.issued && tix == n % WORD
    case AwaitReaders(n, a, r) => n == s.served < s.issued && AllInsideFrom(s, a) && r == RINC * a % WORD
    case WriteHeld(n, a) => n == s.served < s.issued && AllInsideFrom(s, a) && a == s.departures
    case LoadServing(n) => n == s.served < s.issued
    case StoreServing(n, v) => n == s.served < s.issued && v == s.serving
    case AwaitPhase(k, n, w) => k in s.inside && n <= s.served <= n + 1 && n < s.issued && w == Bits(n)
    case ReadHeld(k) => k in s.inside
    case _ => true
  }

  /** Two threads: different tickets and different arrivals.  A writer that has announced itself meets only
      readers that arrived before it (for which it waits) or that wait for it; and a reader that met an earlier
      writer keeps the next one from getting the lock. */
  ghost predicate Pairwise(a: Pc, b: Pc) {
    && (HasTicket(a) && HasTicket(b) ==> a.n != b.n)
    && (Reading(a) && Reading(b) ==> a.k != b.k)
    && (HasBits(a) && b.ReadHeld? ==> b.k < a.a)
    && (HasBits(a) && b.AwaitPhase? ==> b.k < a.a || b.n == a.n)
    && (a.AwaitTurn? && b.AwaitPhase? ==> b.n < a.n)
    && (AtFront(a) && b.AwaitPhase? ==> if a.n == b.n then !a.Announce? else a.Announce? || a.AwaitReaders?)
  }

  ghost predicate PairOk(s: State, t: Tid, u: Tid) { t != u ==> Pairwise(PcOf(s, t), PcOf(s, u)) }

  ghost predicate AllThreads(s: State) { forall t :: ThreadOk(s, t) }
  ghost predicate AllPairs(s: State) { forall t, u :: PairOk(s, t, u) }

  ghost predicate Inv(s: State) {
    WordsOk(s) && CountsOk(s) && AllThreads(s) && AllPairs(s)
  }

  /** Fewer than 2^14 readers inside and at most 2^16 tickets outstanding. */
  ghost predicate Bounded(s: State) {
    |s.inside| < READERS && s.issued - s.served <= WORD
  }

  // ----- word arithmetic

  lemma AddReader(word: int, count: nat)
    requires 0 <= word < WORD && word - word % 4 == RINC * count % WORD
    ensures var w := (word + RINC) % WORD; w % 4 == word % 4 && w - w % 4 == RINC * (count + 1) % WORD
  {
  }

  lemma AddDeparture(word: int, count: nat)
    requires word == RINC * count % WORD
    ensures (word + RINC) % WORD == RINC * (count + 1) % WORD
  {
  }

  lemma AddBits(word: int, n: nat)
    requires 0 <= word < WORD && word % 4 == 0
    ensures var w := (word + Bits(n)) % WORD; w % 4 == Bits(n) && w - w % 4 == word
  {
  }

  /** Equal wrapped counts less than 2^14 apart are equal. */
  lemma SameCount(a: nat, d: nat)
    requires d <= a < d + READERS && RINC * a % WORD == RINC * d % WORD
    ensures a == d
  {
  }

  /** Equal wrapped tickets at most 2^16 - 1 apart are equal. */
  lemma SameTicket(n: nat, served: nat)
    requires served <= n < served + WORD && n % WORD == served % WORD
    ensures n == served
  {
  }

  // ----- counting readers

  function Range(lo: nat, hi: nat): (r: set<nat>)
    requires lo <= hi
    ensures forall k :: k in r <==> lo <= k < hi
    ensures |r| == hi - lo
    decreases hi - lo
  {
    if lo == hi then {} else {lo} + Range(lo + 1, hi)
  }

  /** Departures never pass the arrival count of a writer whose later readers are all still inside; when they
      reach it, nobody else is inside. */
  lemma WaitedFor(s: State, a: nat)
    requires CountsOk(s) && AllInsideFrom(s, a)
    ensures s.departures <= a
    ensures a == s.departures ==> forall k :: k in s.inside ==> a <= k
  {
    SubsetSize(Range(a, s.arrivals), s.inside);
  }

  // ----- every step keeps the invariant

  /** At most one thread is at the front of the ticket queue. */
  lemma OneAtFront(s: State, t: Tid, u: Tid)
    requires AllThreads(s) && AllPairs(s) && AtFront(PcOf(s, t)) && AtFront(PcOf(s, u))
    ensures t == u
  {
    assert ThreadOk(s, t) && ThreadOk(s, u) && PairOk(s, t, u);
  }

  /** Steps that change no word and no count. */
  lemma LocalKeeps(s: State, t: Tid, pc: Pc)
    requires Inv(s) && ThreadOk(Goto(s, t, pc), t) && HasBits(pc) == HasBits(PcOf(s, t))
    requires forall u :: u != t ==> Pairwise(pc, PcOf(s, u)) && Pairwise(PcOf(s, u), pc)
    ensures Inv(Goto(s, t, pc))
  {
    var s' := Goto(s, t, pc);
    forall u ensures ThreadOk(s', u) { assert ThreadOk(s, u); }
    forall u, v ensures PairOk(s', u, v) { assert PairOk(s, u, v); }
    if u :| Present(s, u) { assert Present(s', u); }
    if u :| Present(s', u) { assert Present(s, u); }
  }

  lemma StartKeeps(s: State, t: Tid, pc: Pc)
    requires Inv(s) && PcOf(s, t).Idle? && (pc == TakeTicket || pc == Arrive)
    ensures Inv(Goto(s, t, pc))
  {
    LocalKeeps(s, t, pc);
  }

  lemma TurnKeeps(s: State, t: Tid, n: nat, tix: int)
    requires Inv(s) && Bounded(s) && PcOf(s, t) == AwaitTurn(n, tix) && tix == s.serving
    ensures Inv(Goto(s, t, Announce(n, tix)))
  {
    assert ThreadOk(s, t);
    SameTicket(n, s.served);
    var pc := Announce(n, tix);
    forall u | u != t ensures Pairwise(pc, PcOf(s, u)) && Pairwise(PcOf(s, u), pc) {
      assert PairOk(s, t, u) && PairOk(s, u, t) && ThreadOk(s, u);
    }
    LocalKeeps(s, t, pc);
  }

  /** All readers that came before the writer have left: nobody inside is holding the lock. */
  lemma ReadersGoneKeeps(s: State, t: Tid, n: nat, a: nat, r: int)
    requires Inv(s) && Bounded(s) && PcOf(s, t) == AwaitReaders(n, a, r) && r == s.rout
    ensures Inv(Goto(s, t, WriteHeld(n, a)))
  {
    assert ThreadOk(s, t);
    WaitedFor(s, a);
    SameCount(a, s.departures);
    forall u | u != t ensures Pairwise(WriteHeld(n, a), PcOf(s, u)) && Pairwise(PcOf(s, u), WriteHeld(n, a)) {
      assert PairOk(s, t, u) && PairOk(s, u, t) && ThreadOk(s, u);
    }
    LocalKeeps(s, t, WriteHeld(n, a));
  }

  /** The bits a reader waits on are gone; a writer that has announced itself meanwhile waits for this reader. */
  lemma PhaseKeeps(s: State, t: Tid, k: nat, n: nat, w: int)
    requires Inv(s) && PcOf(s, t) == AwaitPhase(k, n, w) && w != s.rin % 4
    ensures Inv(Goto(s, t, ReadHeld(k)))
  {
    assert ThreadOk(s, t);
    forall u | u != t ensures Pairwise(ReadHeld(k), PcOf(s, u)) && Pairwise(PcOf(s, u), ReadHeld(k)) {
      assert PairOk(s, t, u) && PairOk(s, u, t) && ThreadOk(s, u);
      if HasBits(PcOf(s, u)) { assert Present(s, u); }
    }
    LocalKeeps(s, t, ReadHeld(k));
  }

  lemma LoadKeeps(s: State, t: Tid, n: nat)
    requires Inv(s) && PcOf(s, t) == LoadServing(n)
    ensures Inv(Goto(s, t, StoreServing(n, s.serving)))
  {
    assert ThreadOk(s, t);
    var pc := StoreServing(n, s.serving);
    forall u | u != t ensures Pairwise(pc, PcOf(s, u)) && Pairwise(PcOf(s, u), pc) {
      assert PairOk(s, t, u) && PairOk(s, u, t);
    }
    LocalKeeps(s, t, pc);
  }

  lemma TicketKeeps(s: State, t: Tid)
    requires Inv(s) && PcOf(s, t).TakeTicket?
    ensures Inv(Ticketed(s, t))
  {
    var s' := Ticketed(s, t);
    forall u ensures ThreadOk(s', u) { assert ThreadOk(s, u); }
    forall u, v ensures PairOk(s', u, v) { assert PairOk(s, u, v) && ThreadOk(s, u) && ThreadOk(s, v); }
    if u :| Present(s, u) { assert Present(s', u); }
    if u :| Present(s', u) { assert Present(s, u); }
  }

  lemma NoneButFront(s: State, t: Tid)
    requires AllThreads(s) && AllPairs(s) && AtFront(PcOf(s, t)) && !Present(s, t)
    ensures forall u :: !Present(s, u)
  {
    if u :| Present(s, u) { OneAtFront(s, t, u); }
  }

  lemma AnnounceKeeps(s: State, t: Tid, n: nat, tix: int)
    requires Inv(s) && PcOf(s, t) == Announce(n, tix)
    ensures Inv(Announced(s, t, n, tix))
  {
    var s' := Announced(s, t, n, tix);
    assert ThreadOk(s, t);
    NoneButFront(s, t);
    AddBits(s.rin, tix);
    assert Present(s', t);
    assert Bits(tix) == Bits(n);
    forall u ensures ThreadOk(s', u) { assert ThreadOk(s, u); }
    forall u, v ensures PairOk(s', u, v) { assert PairOk(s, u, v) && ThreadOk(s, u) && ThreadOk(s, v); }
  }

  lemma ReleaseKeeps(s: State, t: Tid, n: nat, a: nat)
    requires Inv(s) && PcOf(s, t) == WriteHeld(n, a)
    ensures Inv(Goto(s, t, LoadServing(n)).(rin := s.rin - s.rin % 4))
  {
    var s' := Goto(s, t, LoadServing(n)).(rin := s.rin - s.rin % 4);
    forall u ensures ThreadOk(s', u) { assert ThreadOk(s, u); }
    forall u, v ensures PairOk(s', u, v) { assert PairOk(s, u, v); }
    NoneButFront(s', t);
  }

  lemma ServeKeeps(s: State, t: Tid, n: nat, v: int)
    requires Inv(s) && PcOf(s, t) == StoreServing(n, v)
    ensures Inv(Goto(s, t, Idle).(serving := (v + 1) % WORD, served := s.served + 1))
  {
    var s' := Goto(s, t, Idle).(serving := (v + 1) % WORD, served := s.served + 1);
    assert ThreadOk(s, t);
    NoneButFront(s, t);
    forall u ensures ThreadOk(s', u) { assert ThreadOk(s, u) && PairOk(s, t, u); }
    forall u, x ensures PairOk(s', u, x) { assert PairOk(s, u, x); }
    forall u ensures !Present(s', u) { assert !Present(s, u); }
  }

  /** When writer bits are set the ticket being served belongs to the writer that set them. */
  lemma MetWriter(s: State, u: Tid)
    requires Inv(s) && s.rin % 4 != 0
    ensures s.served < s.issued && s.rin % 4 == Bits(s.served)
    ensures HasTicket(PcOf(s, u)) ==> HasBits(PcOf(s, u)) || (PcOf(s, u).AwaitTurn? && s.served < PcOf(s, u).n)
  {
    var x :| Present(s, x);
    assert ThreadOk(s, x) && ThreadOk(s, u) && PairOk(s, x, u);
  }

  lemma ArriveKeeps(s: State, t: Tid)
    requires Inv(s) && PcOf(s, t).Arrive?
    ensures Inv(Arrived(s, t))
  {
    var s' := Arrived(s, t);
    AddReader(s.rin, s.arrivals);
    forall u ensures Present(s', u) <==> Present(s, u) {}
    if s.rin % 4 != 0 { MetWriter(s, t); }
    forall u ensures ThreadOk(s', u) { assert ThreadOk(s, u); }
    forall u ensures PairOk(s', u, t) { ArrivePair(s, t, u); }
    forall u ensures PairOk(s', t, u) { assert PairOk(s, t, u) && ThreadOk(s, u); }
    forall u, v ensures PairOk(s', u, v) { if u != t && v != t { assert PairOk(s, u, v); } }
  }

  lemma ArrivePair(s: State, t: Tid, u: Tid)
    requires Inv(s) && PcOf(s, t).Arrive?
    ensures PairOk(Arrived(s, t), u, t)
  {
    assert ThreadOk(s, u);
    assert HasBits(PcOf(s, u)) == Present(s, u);
    if s.rin % 4 != 0 { MetWriter(s, u); }
  }

  lemma DepartKeeps(s: State, t: Tid, k: nat)
    requires Inv(s) && PcOf(s, t) == ReadHeld(k)
    ensures Inv(Departed(s, t, k))
  {
    var s' := Departed(s, t, k);
    assert ThreadOk(s, t);
    AddDeparture(s.rout, s.departures);
    forall u ensures Present(s', u) <==> Present(s, u) {}
    forall u ensures ThreadOk(s', u) {
      assert ThreadOk(s, u) && PairOk(s, u, t);
      if u != t && PcOf(s, u).WriteHeld? { WaitedFor(s, PcOf(s, u).a); }
    }
    forall u, v ensures PairOk(s', u, v) { assert PairOk(s, u, v); }
  }

  lemma StepKeeps(s: State, a: Act)
    requires Inv(s) && Bounded(s) && Enabled(s, a)
    ensures Inv(Step(s, a))
  {
    match a
    case StartWrite(t) => StartKeeps(s, t, TakeTicket);
    case StartRead(t) => StartKeeps(s, t, Arrive);
    case Run(t) =>
      match PcOf(s, t)
      case TakeTicket => TicketKeeps(s, t);
      case AwaitTurn(n, tix) => TurnKeeps(s, t, n, tix);
      case Announce(n, tix) => AnnounceKeeps(s, t, n, tix);
      case AwaitReaders(n, a, r) => ReadersGoneKeeps(s, t, n, a, r);
      case WriteHeld(n, a) => ReleaseKeeps(s, t, n, a);
      case LoadServing(n) => LoadKeeps(s, t, n);
      case StoreServing(n, v) => ServeKeeps(s, t, n, v);
      case Arrive => ArriveKeeps(s, t);
      case AwaitPhase(k, n, w) => PhaseKeeps(s, t, k, n, w);
      case ReadHeld(k) => DepartKeeps(s, t, k);
  }

  // ----- whole runs

  /** All words zero, nobody in a call. */
  ghost predicate Init(s: State) {
    && s.rin == 0 && s.rout == 0 && s.ticket == 0 && s.serving == 0
    && s.issued == 0 && s.served == 0 && s.arrivals == 0 && s.departures == 0 && s.inside == {}
    && forall t :: PcOf(s, t).Idle?
  }

  ghost predicate MovesAt(run: seq<State>, acts: seq<Act>, i: int)
    requires 0 <= i < |acts| && |run| == |acts| + 1
  {
    Enabled(run[i], acts[i]) && run[i + 1] == Step(run[i], acts[i])
  }

  /** At most `m` readers inside and at most `c` tickets outstanding. */
  ghost predicate Limited(s: State, m: nat, c: nat) { |s.inside| <= m && s.issued - s.served <= c }

  /** A run from an initial state whose every state respects the limits. */
  ghost predicate IsRun(run: seq<State>, acts: seq<Act>, m: nat, c: nat) {
    && |run| == |acts| + 1 && Init(run[0])
    && (forall i :: 0 <= i < |acts| ==> MovesAt(run, acts, i))
    && (forall i :: 0 <= i < |run| ==> Limited(run[i], m, c))
  }

  /** The counts the words have room for. */
  predicate Fits(m: nat, c: nat) { m < READERS && c <= WORD }

  /** A thread that holds the write lock holds it alone. */
  ghost predicate Exclusive(s: State) {
    forall t, u :: t != u && PcOf(s, t).WriteHeld? ==> !PcOf(s, u).WriteHeld? && !PcOf(s, u).ReadHeld?
  }

  lemma InitOk(s: State)
    requires Init(s)
    ensures Inv(s)
  {
    forall t ensures ThreadOk(s, t) && !Present(s, t) { assert PcOf(s, t).Idle?; }
    forall t, u ensures PairOk(s, t, u) { assert PcOf(s, t).Idle?; }
  }

  lemma {:induction false} RunKeeps(run: seq<State>, acts: seq<Act>, m: nat, c: nat, i: nat)
    requires IsRun(run, acts, m, c) && Fits(m, c) && i < |run|
    ensures Inv(run[i])
  {
    if i == 0 {
      InitOk(run[0]);
    } else {
      RunKeeps(run, acts, m, c, i - 1);
      assert MovesAt(run, acts, i - 1) && Limited(run[i - 1], m, c);
      StepKeeps(run[i - 1], acts[i - 1]);
    }
  }

  lemma InvExcludes(s: State)
    requires Inv(s)
    ensures Exclusive(s)
  {
    forall t, u | t != u && PcOf(s, t).WriteHeld? ensures !PcOf(s, u).WriteHeld? && !PcOf(s, u).ReadHeld? {
      assert ThreadOk(s, t) && ThreadOk(s, u) && PairOk(s, t, u);
      WaitedFor(s, PcOf(s, t).a);
    }
  }

  /** Mutual exclusion in every state of every run with fewer than 2^14 readers inside. */
  lemma MutualExclusion(run: seq<State>, acts: seq<Act>, m: nat, c: nat, i: nat)
    requires IsRun(run, acts, m, c) && Fits(m, c) && i < |run|
    ensures Exclusive(run[i])
  {
    RunKeeps(run, acts, m, c, i);
    InvExcludes(run[i]);
  }

  /** A waiting reader is held up only by the writer it met: it is blocked exactly while that writer's bits are
      set, and no other writer can hold the lock before the reader goes on. */
  lemma BlockedByOneWriter(run: seq<State>, acts: seq<Act>, m: nat, c: nat, i: nat, t: Tid, u: Tid)
    requires IsRun(run, acts, m, c) && Fits(m, c) && i < |run| && PcOf(run[i], t).AwaitPhase?
    ensures !Enabled(run[i], Run(t)) <==> exists x :: Present(run[i], x) && PcOf(run[i], x).n == PcOf(run[i], t).n
    ensures PcOf(run[i], u).WriteHeld? ==> PcOf(run[i], u).n == PcOf(run[i], t).n
  {
    RunKeeps(run, acts, m, c, i);
    BlockedIff(run[i], t);
    assert PairOk(run[i], u, t);
  }

  lemma BlockedIff(s: State, t: Tid)
    requires Inv(s) && PcOf(s, t).AwaitPhase?
    ensures !Enabled(s, Run(t)) <==> exists x :: Present(s, x) && PcOf(s, x).n == PcOf(s, t).n
  {
    assert ThreadOk(s, t);
    if x :| Present(s, x) { assert ThreadOk(s, x); }
    if x :| Present(s, x) && PcOf(s, x).n == PcOf(s, t).n { assert ThreadOk(s, x); }
  }

  /** No step gives writer bits to the ticket a reader has met. */
  lemma NeverAnnouncedAgain(s: State, a: Act, t: Tid, x: Tid)
    requires Inv(s) && Enabled(s, a) && PcOf(s, t).AwaitPhase?
    requires Present(Step(s, a), x) && PcOf(Step(s, a), x).n == PcOf(s, t).n
    ensures Present(s, x) && PcOf(s, x).n == PcOf(s, t).n
  {
    assert ThreadOk(s, x) && PairOk(s, x, t);
  }

  /** One step never blocks a reader again. */
  lemma StaysUnblocked(s: State, a: Act, t: Tid)
    requires Inv(s) && Bounded(s) && Enabled(s, a)
    requires PcOf(s, t).AwaitPhase? && PcOf(Step(s, a), t) == PcOf(s, t) && Enabled(s, Run(t))
    ensures Enabled(Step(s, a), Run(t))
  {
    var s' := Step(s, a);
    StepKeeps(s, a);
    forall x | Present(s', x) && PcOf(s', x).n == PcOf(s, t).n
      ensures Present(s, x) && PcOf(s, x).n == PcOf(s, t).n
    {
      NeverAnnouncedAgain(s, a, t, x);
    }
    BlockedIff(s, t);
    BlockedIff(s', t);
  }

  /** Once the writer it met has let go, a waiting reader can go on at every later instant of its wait. */
  lemma {:induction false} WaitsOnce(run: seq<State>, acts: seq<Act>, m: nat, c: nat, i: nat, j: nat, t: Tid)
    requires IsRun(run, acts, m, c) && Fits(m, c) && i <= j < |run|
    requires PcOf(run[i], t).AwaitPhase? && Enabled(run[i], Run(t))
    requires forall h :: i <= h <= j ==> PcOf(run[h], t) == PcOf(run[i], t)
    ensures Enabled(run[j], Run(t))
    decreases j - i
  {
    if i < j {
      WaitsOnce(run, acts, m, c, i, j - 1, t);
      RunKeeps(run, acts, m, c, j - 1);
      assert MovesAt(run, acts, j - 1) && Limited(run[j - 1], m, c);
      StaysUnblocked(run[j - 1], acts[j - 1], t);
    }
  }

  // ----- 2^14 readers are one too many

  /** `k` readers hold the lock and nobody else has moved. */
  ghost predicate Held(s: State, k: nat) {
    && s.rin == RINC * k % WORD && s.rout == s.ticket == s.serving == 0 && s.issued == s.served == 0
    && s.arrivals == k == |s.inside| && (forall j :: j in s.inside ==> j < k)
    && (forall t: Tid :: PcOf(s, t) == if t < k then ReadHeld(t) else Idle)
  }

  lemma ReaderEnters(s: State, k: nat)
    requires Held(s, k)
    ensures Enabled(s, StartRead(k)) && |Step(s, StartRead(k)).inside| == k
    ensures var s' := Step(s, StartRead(k)); Enabled(s', Run(k)) && Held(Step(s', Run(k)), k + 1)
  {
    var s' := Step(s, StartRead(k));
    assert PcOf(s, k) == Idle && PcOf(s', k) == Arrive && s'.inside == s.inside && s'.issued == s'.served == 0;
    AfterArrival(s', k);
    forall t: Tid ensures PcOf(Arrived(s', k), t) == if t < k + 1 then ReadHeld(t) else Idle {
      assert PcOf(s, t) == if t < k then ReadHeld(t) else Idle;
    }
  }

  lemma AfterArrival(s: State, k: nat)
    requires s.rin == RINC * k % WORD && s.arrivals == k
    ensures var s' := Arrived(s, k); s'.rin == RINC * (k + 1) % WORD && PcOf(s', k) == ReadHeld(k)
  {
    AddDeparture(s.rin, k);
    assert s.rin % 4 == 0;
  }

  lemma Extend(run: seq<State>, acts: seq<Act>, m: nat, c: nat, a: Act) returns (run': seq<State>, acts': seq<Act>)
    requires IsRun(run, acts, m, c) && var s := run[|acts|]; Enabled(s, a) && Limited(Step(s, a), m, c)
    ensures IsRun(run', acts', m, c) && run'[|acts'|] == Step(run[|acts|], a)
  {
    run', acts' := run + [Step(run[|acts|], a)], acts + [a];
    forall i | 0 <= i < |acts'| ensures MovesAt(run', acts', i) {
      if i < |acts| { assert MovesAt(run, acts, i); }
    }
    forall i | 0 <= i < |run'| ensures Limited(run'[i], m, c) {
      if i < |run| { assert Limited(run[i], m, c); }
    }
  }

  lemma {:induction false} ReadersRun(k: nat, m: nat, c: nat) returns (run: seq<State>, acts: seq<Act>)
    requires k <= m
    ensures IsRun(run, acts, m, c) && Held(run[|acts|], k)
  {
    if k == 0 {
      run, acts := [State(0, 0, 0, 0, map[], 0, 0, 0, 0, {})], [];
    } else {
      run, acts := ReadersRun(k - 1, m, c);
      ReaderEnters(run[|acts|], k - 1);
      run, acts := Extend(run, acts, m, c, StartRead(k - 1));
      run, acts := Extend(run, acts, m, c, Run(k - 1));
    }
  }

  /** Only thread `w` differs, and no reader moves. */
  ghost predicate OnlyWriter(s: State, s': State, w: Tid) {
    && (forall t :: t != w ==> PcOf(s', t) == PcOf(s, t))
    && s'.rout == s.rout && s'.arrivals == s.arrivals && s'.inside == s.inside
  }

  /** A writer takes a ticket. */
  lemma TakesTicket(run: seq<State>, acts: seq<Act>, m: nat, c: nat, w: Tid) returns (run': seq<State>, acts': seq<Act>)
    requires IsRun(run, acts, m, c)
    requires var s := run[|acts|]; PcOf(s, w).Idle? && s.issued - s.served < c
    ensures IsRun(run', acts', m, c)
    ensures var s, s' := run[|acts|], run'[|acts'|];
      && OnlyWriter(s, s', w) && PcOf(s', w) == AwaitTurn(s.issued, s.ticket) && s'.issued == s.issued + 1
      && s'.ticket == (s.ticket + 1) % WORD && s'.served == s.served && s'.serving == s.serving && s'.rin == s.rin
  {
    assert Limited(run[|acts|], m, c);
    run', acts' := Extend(run, acts, m, c, StartWrite(w));
    run', acts' := Extend(run', acts', m, c, Run(w));
  }

  /** A writer whose ticket is up goes on. */
  lemma TakesTurn(run: seq<State>, acts: seq<Act>, m: nat, c: nat, w: Tid) returns (run': seq<State>, acts': seq<Act>)
    requires IsRun(run, acts, m, c)
    requires var s := run[|acts|]; PcOf(s, w).AwaitTurn? && PcOf(s, w).tix == s.serving
    ensures IsRun(run', acts', m, c)
    ensures var s, s' := run[|acts|], run'[|acts'|];
      && s' == Goto(s, w, Announce(PcOf(s, w).n, PcOf(s, w).tix)) && OnlyWriter(s, s', w)
  {
    assert Limited(run[|acts|], m, c);
    run', acts' := Extend(run, acts, m, c, Run(w));
  }

  /** A writer sets its bits. */
  lemma Announces(run: seq<State>, acts: seq<Act>, m: nat, c: nat, w: Tid) returns (run': seq<State>, acts': seq<Act>)
    requires IsRun(run, acts, m, c)
    requires PcOf(run[|acts|], w).Announce?
    ensures IsRun(run', acts', m, c)
    ensures var s, s' := run[|acts|], run'[|acts'|];
      && s' == Announced(s, w, PcOf(s, w).n, PcOf(s, w).tix) && OnlyWriter(s, s', w)
  {
    assert Limited(run[|acts|], m, c);
    run', acts' := Extend(run, acts, m, c, Run(w));
  }

  /** A writer that finds the reader counts equal enters. */
  lemma WriterEnters(run: seq<State>, acts: seq<Act>, m: nat, c: nat, w: Tid)
    returns (run': seq<State>, acts': seq<Act>)
    requires IsRun(run, acts, m, c)
    requires var s := run[|acts|]; PcOf(s, w).Announce? && s.rin == s.rout
    ensures IsRun(run', acts', m, c)
    ensures var s, s' := run[|acts|], run'[|acts'|];
      && OnlyWriter(s, s', w) && PcOf(s', w).WriteHeld? && PcOf(s', w).n == PcOf(s, w).n
      && s'.rin == (s.rin + Bits(PcOf(s, w).tix)) % WORD && s'.issued == s.issued && s'.ticket == s.ticket
      && s'.served == s.served && s'.serving == s.serving
  {
    run', acts' := Announces(run, acts, m, c, w);
    assert Limited(run'[|acts'|], m, c);
    run', acts' := Extend(run', acts', m, c, Run(w));
  }

  /** With 2^14 readers inside, the counter has wrapped to zero and a writer sees no reader to wait for. */
  lemma WriterBreaksIn(k: nat, m: nat, c: nat) returns (run: seq<State>, acts: seq<Act>)
    requires k == READERS && k <= m && c > 0
    ensures IsRun(run, acts, m, c) && PcOf(run[|acts|], k).WriteHeld? && PcOf(run[|acts|], 0).ReadHeld?
  {
    run, acts := ReadersRun(k, m, c);
    assert PcOf(run[|acts|], 0) == ReadHeld(0) && PcOf(run[|acts|], k) == Idle;
    run, acts := TakesTicket(run, acts, m, c, k);
    run, acts := TakesTurn(run, acts, m, c, k);
    run, acts := WriterEnters(run, acts, m, c, k);
  }

  // ----- 2^16 + 1 tickets are one too many

  /** No reader has come. */
  ghost predicate NoReaders(s: State) { s.rout == 0 && s.arrivals == 0 && s.inside == {} }

  /** Writers `0 .. j` have taken tickets and nobody else has moved. */
  ghost predicate Queue(s: State, j: nat) {
    && NoReaders(s) && s.rin == 0 && s.issued == j && s.ticket == j % WORD && s.served == s.serving == 0
    && forall t: Tid :: PcOf(s, t) == if t < j then AwaitTurn(t, t % WORD) else Idle
  }

  lemma {:induction false} QueueRun(j: nat, m: nat, c: nat) returns (run: seq<State>, acts: seq<Act>)
    requires j <= c
    ensures IsRun(run, acts, m, c) && Queue(run[|acts|], j)
  {
    if j == 0 {
      run, acts := [State(0, 0, 0, 0, map[], 0, 0, 0, 0, {})], [];
    } else {
      run, acts := QueueRun(j - 1, m, c);
      ghost var s := run[|acts|];
      assert PcOf(s, j - 1) == Idle;
      run, acts := TakesTicket(run, acts, m, c, j - 1);
      NextWord(j - 1);
      QueueGrows(s, run[|acts|], j - 1);
    }
  }

  lemma NextWord(j: nat)
    ensures (j % WORD + 1) % WORD == (j + 1) % WORD
  {
  }

  lemma QueueGrows(s: State, s': State, j: nat)
    requires Queue(s, j) && OnlyWriter(s, s', j) && PcOf(s', j) == AwaitTurn(j, j % WORD)
    requires s'.issued == j + 1 && s'.ticket == (j + 1) % WORD && s'.served == s'.serving == s'.rin == 0
    ensures Queue(s', j + 1)
  {
    forall t: Tid ensures PcOf(s', t) == if t < j + 1 then AwaitTurn(t, t % WORD) else Idle {
      assert PcOf(s, t) == if t < j then AwaitTurn(t, t % WORD) else Idle;
    }
  }

  /** Where thread `t` is after `v` rounds: writers `0 .. v` are done; the writers whose tickets came up with theirs,
      2^16 later, have passed the turnstile and not gone on. */
  function Stage(v: nat, t: Tid): Pc {
    if t < v then Idle
    else if t < WORD then AwaitTurn(t, t % WORD)
    else if t < WORD + v then Announce(t, t % WORD)
    else if t == WORD + v then AwaitTurn(t, t % WORD)
    else Idle
  }

  ghost predicate Round(s: State, v: nat) {
    && NoReaders(s) && s.rin == 0 && v <= WORD
    && s.issued == WORD + v + 1 && s.ticket == (WORD + v + 1) % WORD && s.served == v && s.serving == v % WORD
    && forall t: Tid :: PcOf(s, t) == Stage(v, t)
  }

  /** A writer alone inside leaves. */
  lemma WriterLeaves(run: seq<State>, acts: seq<Act>, m: nat, c: nat, w: Tid)
    returns (run': seq<State>, acts': seq<Act>)
    requires IsRun(run, acts, m, c)
    requires PcOf(run[|acts|], w).WriteHeld?
    ensures IsRun(run', acts', m, c)
    ensures var s, s' := run[|acts|], run'[|acts'|];
      && OnlyWriter(s, s', w) && PcOf(s', w).Idle? && s'.rin == s.rin - s.rin % 4 && s'.issued == s.issued
      && s'.ticket == s.ticket && s'.served == s.served + 1 && s'.serving == (s.serving + 1) % WORD
  {
    assert Limited(run[|acts|], m, c);
    run', acts' := Extend(run, acts, m, c, Run(w));
    run', acts' := Extend(run', acts', m, c, Run(w));
    run', acts' := Extend(run', acts', m, c, Run(w));
  }

  /** One round: writer `v` and writer `v + 2^16` hold equal tickets; both pass, the first goes in and out, and a new
      writer joins the queue. */
  lemma RoundRun(run: seq<State>, acts: seq<Act>, m: nat, c: nat, v: nat) returns (run': seq<State>, acts': seq<Act>)
    requires IsRun(run, acts, m, c) && c > WORD && Round(run[|acts|], v) && v < WORD
    ensures IsRun(run', acts', m, c) && Round(run'[|acts'|], v + 1)
  {
    ghost var s := run[|acts|];
    assert PcOf(s, v) == Stage(v, v) && PcOf(s, WORD + v) == Stage(v, WORD + v)
      && PcOf(s, WORD + v + 1) == Stage(v, WORD + v + 1);
    assert (WORD + v) % WORD == v % WORD;
    run', acts' := TakesTurn(run, acts, m, c, v);
    run', acts' := TakesTurn(run', acts', m, c, WORD + v);
    run', acts' := WriterEnters(run', acts', m, c, v);
    run', acts' := WriterLeaves(run', acts', m, c, v);
    run', acts' := TakesTicket(run', acts', m, c, WORD + v + 1);
    NextWord(v);
    NextWord(WORD + v + 1);
    NextStage(s, run'[|acts'|], v);
  }

  lemma NextStage(s: State, s': State, v: nat)
    requires Round(s, v) && v < WORD && NoReaders(s') && s'.rin == 0
    requires s'.issued == WORD + v + 2 && s'.ticket == (WORD + v + 2) % WORD && s'.served == v + 1
      && s'.serving == (v + 1) % WORD
    requires PcOf(s', v) == Idle && PcOf(s', WORD + v) == Announce(WORD + v, (WORD + v) % WORD)
    requires PcOf(s', WORD + v + 1) == AwaitTurn(WORD + v + 1, (WORD + v + 1) % WORD)
    requires forall t :: t != v && t != WORD + v && t != WORD + v + 1 ==> PcOf(s', t) == PcOf(s, t)
    ensures Round(s', v + 1)
  {
    forall t: Tid ensures PcOf(s', t) == Stage(v + 1, t) { assert PcOf(s, t) == Stage(v, t); }
  }

  lemma {:induction false} RoundsRun(v: nat, m: nat, c: nat) returns (run: seq<State>, acts: seq<Act>)
    requires v <= WORD < c
    ensures IsRun(run, acts, m, c) && Round(run[|acts|], v)
  {
    if v == 0 {
      run, acts := QueueRun(WORD + 1, m, c);
      ghost var s := run[|acts|];
      forall t: Tid ensures PcOf(s, t) == Stage(0, t) {
        assert PcOf(s, t) == if t < WORD + 1 then AwaitTurn(t, t % WORD) else Idle;
      }
    } else {
      run, acts := RoundsRun(v - 1, m, c);
      run, acts := RoundRun(run, acts, m, c, v - 1);
    }
  }

  /** After 2^16 rounds, writer 2^16 is inside, and every other late writer up to `j` has set its bits too. */
  ghost predicate Crowd(s: State, j: nat) {
    && NoReaders(s) && s.serving == 0 && s.rin == 2 * j % WORD && PcOf(s, WORD).WriteHeld?
    && (forall i :: j <= i < HALF ==> PcOf(s, WORD + 2 * i) == Announce(WORD + 2 * i, 2 * i))
    && PcOf(s, WORD + WORD) == AwaitTurn(WORD + WORD, 0)
  }

  const HALF: int := 0x8000

  lemma LateStage(i: nat)
    requires i < HALF
    ensures Stage(WORD, WORD + 2 * i) == Announce(WORD + 2 * i, 2 * i)
  {
  }

  lemma {:induction false} CrowdRun(j: nat, m: nat, c: nat) returns (run: seq<State>, acts: seq<Act>)
    requires 1 <= j <= HALF && c > WORD
    ensures IsRun(run, acts, m, c) && Crowd(run[|acts|], j)
  {
    if j == 1 {
      run, acts := RoundsRun(WORD, m, c);
      ghost var s := run[|acts|];
      LateStage(0);
      assert PcOf(s, WORD) == Stage(WORD, WORD) && PcOf(s, WORD + WORD) == Stage(WORD, WORD + WORD);
      run, acts := WriterEnters(run, acts, m, c, WORD);
      forall i | 1 <= i < HALF ensures PcOf(run[|acts|], WORD + 2 * i) == Announce(WORD + 2 * i, 2 * i) {
        LateStage(i);
        assert PcOf(s, WORD + 2 * i) == Stage(WORD, WORD + 2 * i);
      }
    } else {
      run, acts := CrowdRun(j - 1, m, c);
      ghost var s := run[|acts|];
      run, acts := Announces(run, acts, m, c, WORD + 2 * (j - 1));
      forall i | j <= i < HALF ensures PcOf(run[|acts|], WORD + 2 * i) == Announce(WORD + 2 * i, 2 * i) {
        assert PcOf(s, WORD + 2 * i) == Announce(WORD + 2 * i, 2 * i);
      }
    }
  }

  /** With 2^16 + 1 tickets outstanding two writers can be inside together, even without any reader. */
  lemma TwoWritersInside(m: nat, c: nat) returns (run: seq<State>, acts: seq<Act>)
    requires c > WORD
    ensures IsRun(run, acts, m, c) && PcOf(run[|acts|], WORD).WriteHeld? && PcOf(run[|acts|], WORD + WORD).WriteHeld?
  {
    run, acts := CrowdRun(HALF, m, c);
    run, acts := TakesTurn(run, acts, m, c, WORD + WORD);
    run, acts := WriterEnters(run, acts, m, c, WORD + WORD);
  }

  // ----- the exact condition

  /** Every state of every run limited to `m` readers and `c` tickets excludes. */
  ghost predicate SafeWith(m: nat, c: nat) {
    forall run, acts, i :: IsRun(run, acts, m, c) && 0 <= i < |run| ==> Exclusive(run[i])
  }

  /** If no ticket may be outstanding, no writer ever has one. */
  lemma {:induction false} NoWriters(run: seq<State>, acts: seq<Act>, m: nat, c: nat, i: nat, t: Tid)
    requires IsRun(run, acts, m, c) && c == 0 && i < |run|
    ensures run[i].issued == run[i].served && !HasTicket(PcOf(run[i], t))
  {
    if i == 0 {
      assert PcOf(run[0], t).Idle?;
    } else {
      assert MovesAt(run, acts, i - 1) && Limited(run[i], m, c);
      NoWriters(run, acts, m, c, i - 1, t);
      match acts[i - 1]
      case StartWrite(u) => NoWriters(run, acts, m, c, i - 1, u);
      case StartRead(u) => NoWriters(run, acts, m, c, i - 1, u);
      case Run(u) => NoWriters(run, acts, m, c, i - 1, u);
    }
  }

  /** The lock excludes exactly when fewer than 2^14 readers can be inside and at most 2^16 tickets outstanding at
      once, or there are no writers at all. */
  lemma SafeIffCountsFit(m: nat, c: nat)
    ensures SafeWith(m, c) <==> c == 0 || Fits(m, c)
  {
    if Fits(m, c) {
      forall run, acts, i | IsRun(run, acts, m, c) && 0 <= i < |run| ensures Exclusive(run[i]) {
        MutualExclusion(run, acts, m, c, i);
      }
    } else if c == 0 {
      forall run, acts, i | IsRun(run, acts, m, c) && 0 <= i < |run| ensures Exclusive(run[i]) {
        forall t ensures !PcOf(run[i], t).WriteHeld? { NoWriters(run, acts, m, c, i, t); }
      }
    } else if c > WORD {
      var run, acts := TwoWritersInside(m, c);
      assert !Exclusive(run[|acts|]);
    } else {
      var run, acts := WriterBreaksIn(READERS, m, c);
      assert !Exclusive(run[|acts|]);
    }
  }
}
