/** The phase-fair lock of sandbox/btree2u.c lets its callers get on: as long as the counts fit, somebody can always
    move, writers enter in the order of their tickets, a writer waits only for readers that arrived before it
    announced itself, and a call that runs alone on a free lock gets it. */
module PhaseFairLockProgress {
  import opened Prelude
  import opened PhaseFairLock

  ghost predicate HoldsTicket(s: State, t: Tid, n: nat) { HasTicket(PcOf(s, t)) && PcOf(s, t).n == n }
  ghost predicate IsReader(s: State, t: Tid, k: nat) { Reading(PcOf(s, t)) && PcOf(s, t).k == k }

  ghost predicate TicketHeld(s: State, n: nat) { exists t :: HoldsTicket(s, t, n) }
  ghost predicate ReaderThere(s: State, k: nat) { exists t :: IsReader(s, t, k) }

  /** A reader that waits for the writer that is present arrived after that writer announced itself. */
  ghost predicate MetLater(s: State, t: Tid, u: Tid) {
    HasBits(PcOf(s, t)) && PcOf(s, u).AwaitPhase? && PcOf(s, t).n == PcOf(s, u).n ==> PcOf(s, t).a <= PcOf(s, u).k
  }

  /** Every outstanding ticket and every counted reader is a thread's. */
  ghost predicate Manned(s: State) {
    && (forall n: nat :: s.served <= n < s.issued ==> TicketHeld(s, n))
    && (forall k: nat :: k in s.inside ==> ReaderThere(s, k))
    && (forall t, u :: MetLater(s, t, u))
  }

  lemma OthersStay(s: State, a: Act, t: Tid)
    requires Enabled(s, a) && a.t != t
    ensures PcOf(Step(s, a), t) == PcOf(s, t)
  {
  }

  lemma TicketsStay(s: State, a: Act, n: nat)
    requires Inv(s) && Manned(s) && Enabled(s, a)
    ensures var s' := Step(s, a); s'.served <= n < s'.issued ==> TicketHeld(s', n)
  {
    var s' := Step(s, a);
    assert ThreadOk(s, a.t);
    if s'.served <= n < s'.issued {
      if n == s.issued {
        assert HoldsTicket(s', a.t, n);
      } else {
        assert TicketHeld(s, n);
        var t :| HoldsTicket(s, t, n);
        if t != a.t { OthersStay(s, a, t); }
        assert HoldsTicket(s', t, n);
      }
    }
  }

  lemma ReadersStay(s: State, a: Act, k: nat)
    requires Inv(s) && Manned(s) && Enabled(s, a)
    ensures var s' := Step(s, a); k in s'.inside ==> ReaderThere(s', k)
  {
    var s' := Step(s, a);
    if k in s'.inside {
      if k !in s.inside {
        assert IsReader(s', a.t, k);
      } else {
        assert ReaderThere(s, k);
        var t :| IsReader(s, t, k);
        if t != a.t { OthersStay(s, a, t); }
        assert IsReader(s', t, k);
      }
    }
  }

  lemma MeetsLater(s: State, a: Act, t: Tid, u: Tid)
    requires Inv(s) && Manned(s) && Enabled(s, a)
    ensures MetLater(Step(s, a), t, u)
  {
    assert MetLater(s, t, u) && ThreadOk(s, t) && ThreadOk(s, u) && PairOk(s, t, u);
    if t != a.t { OthersStay(s, a, t); }
    if u != a.t { OthersStay(s, a, u); }
  }

  lemma StaysManned(s: State, a: Act)
    requires Inv(s) && Manned(s) && Enabled(s, a)
    ensures Manned(Step(s, a))
  {
    var s' := Step(s, a);
    forall n: nat | s'.served <= n < s'.issued ensures TicketHeld(s', n) { TicketsStay(s, a, n); }
    forall k: nat | k in s'.inside ensures ReaderThere(s', k) { ReadersStay(s, a, k); }
    forall t, u ensures MetLater(s', t, u) { MeetsLater(s, a, t, u); }
  }

  lemma {:induction false} AlwaysManned(run: seq<State>, acts: seq<Act>, m: nat, c: nat, i: nat)
    requires IsRun(run, acts, m, c) && Fits(m, c) && i < |run|
    ensures Manned(run[i])
  {
    if i == 0 {
      forall t, u ensures MetLater(run[0], t, u) { assert PcOf(run[0], t).Idle?; }
    } else {
      AlwaysManned(run, acts, m, c, i - 1);
      RunKeeps(run, acts, m, c, i - 1);
      assert MovesAt(run, acts, i - 1);
      StaysManned(run[i - 1], acts[i - 1]);
    }
  }

  // ----- somebody can move

  /** A reader that arrived before the writer announced itself is not held up by it. */
  lemma EarlierReaderGoesOn(s: State, t: Tid, u: Tid)
    requires Inv(s) && Manned(s) && HasBits(PcOf(s, t)) && Reading(PcOf(s, u)) && PcOf(s, u).k < PcOf(s, t).a
    ensures Enabled(s, Run(u))
  {
    if PcOf(s, u).AwaitPhase? {
      BlockedIff(s, u);
      forall x | Present(s, x) ensures PcOf(s, x).n != PcOf(s, u).n {
        assert ThreadOk(s, x) && ThreadOk(s, t) && PairOk(s, x, t) && MetLater(s, t, u);
      }
    }
  }

  /** A writer that waits for readers waits for one that arrived before it. */
  lemma SomeEarlierReader(s: State, t: Tid) returns (k: nat)
    requires Inv(s) && PcOf(s, t).AwaitReaders? && !Enabled(s, Run(t))
    ensures k in s.inside && k < PcOf(s, t).a
  {
    var a := PcOf(s, t).a;
    assert ThreadOk(s, t);
    var late := Range(a, s.arrivals);
    var early := s.inside - late;
    assert s.inside == late + early && |s.inside| == |late| + |early|;
    k :| k in early;
  }

  lemma FrontMoves(s: State, t: Tid) returns (u: Tid)
    requires Inv(s) && Manned(s) && HoldsTicket(s, t, s.served)
    ensures Enabled(s, Run(u))
  {
    assert ThreadOk(s, t);
    if Enabled(s, Run(t)) {
      u := t;
    } else {
      var k := SomeEarlierReader(s, t);
      assert ReaderThere(s, k);
      u :| IsReader(s, u, k);
      EarlierReaderGoesOn(s, t, u);
    }
  }

  /** No deadlock: as long as the counts fit, in every state in which some thread is in a call, or holds the lock, some
      thread can move on in its own. */
  lemma NoDeadlock(run: seq<State>, acts: seq<Act>, m: nat, c: nat, i: nat, t: Tid) returns (u: Tid)
    requires IsRun(run, acts, m, c) && Fits(m, c) && i < |run| && !PcOf(run[i], t).Idle?
    ensures Enabled(run[i], Run(u))
  {
    var s := run[i];
    RunKeeps(run, acts, m, c, i);
    AlwaysManned(run, acts, m, c, i);
    assert ThreadOk(s, t);
    if Enabled(s, Run(t)) {
      u := t;
    } else if PcOf(s, t).AwaitPhase? {
      BlockedIff(s, t);
      var x :| Present(s, x) && PcOf(s, x).n == PcOf(s, t).n;
      assert ThreadOk(s, x) && HoldsTicket(s, x, s.served);
      u := FrontMoves(s, x);
    } else {
      assert TicketHeld(s, s.served);
      var x :| HoldsTicket(s, x, s.served);
      u := FrontMoves(s, x);
    }
  }

  /** Writers enter in the order in which they took their tickets: whoever holds the lock, or is about to, has an
      earlier ticket than every writer that waits for its turn. */
  lemma TicketOrder(run: seq<State>, acts: seq<Act>, m: nat, c: nat, i: nat, t: Tid, u: Tid)
    requires IsRun(run, acts, m, c) && Fits(m, c) && i < |run| && t != u
    requires AtFront(PcOf(run[i], t)) && HasTicket(PcOf(run[i], u))
    ensures PcOf(run[i], t).n < PcOf(run[i], u).n && PcOf(run[i], u).AwaitTurn?
  {
    RunKeeps(run, acts, m, c, i);
    assert ThreadOk(run[i], t) && ThreadOk(run[i], u) && PairOk(run[i], t, u);
  }

  /** A writer that has announced itself waits exactly while a reader is inside that arrived before; readers that arrive
      later do not hold the lock before it does. */
  lemma WaitsForEarlier(run: seq<State>, acts: seq<Act>, m: nat, c: nat, i: nat, t: Tid, u: Tid)
    requires IsRun(run, acts, m, c) && Fits(m, c) && i < |run| && PcOf(run[i], t).AwaitReaders?
    ensures !Enabled(run[i], Run(t)) <==> exists k :: k in run[i].inside && k < PcOf(run[i], t).a
    ensures PcOf(run[i], u).ReadHeld? ==> PcOf(run[i], u).k < PcOf(run[i], t).a
  {
    var s := run[i];
    RunKeeps(run, acts, m, c, i);
    assert ThreadOk(s, t) && PairOk(s, t, u);
    if Enabled(s, Run(t)) {
      assert Limited(s, m, c);
      WaitedFor(s, PcOf(s, t).a);
      SameCount(PcOf(s, t).a, s.departures);
    } else {
      var k := SomeEarlierReader(s, t);
    }
  }

  // ----- calls that run alone

  /** Nobody is in a call or holds the lock. */
  ghost predicate Free(s: State) {
    Inv(s) && forall t :: PcOf(s, t).Idle?
  }

  /** The state after `n` steps of thread `t` alone. */
  ghost function Alone(s: State, t: Tid, n: nat): State
    decreases n
  {
    if n == 0 || !Enabled(s, Run(t)) then s else Alone(Step(s, Run(t)), t, n - 1)
  }

  lemma FreeWords(s: State)
    requires Free(s) && Manned(s)
    ensures s.rin == s.rout && s.rin % 4 == 0 && s.ticket == s.serving && s.issued == s.served && s.inside == {}
  {
    forall n ensures !TicketHeld(s, n) && !ReaderThere(s, n) {}
    assert !TicketHeld(s, s.served) && forall t :: !Present(s, t);
  }

  /** From holding the lock on, three steps give it back. */
  lemma GivesBack(s: State, t: Tid)
    requires PcOf(s, t).WriteHeld?
    ensures var s' := Alone(s, t, 3);
      PcOf(s', t).Idle? && s'.served == s.served + 1 && s'.serving == (s.serving + 1) % WORD
        && s'.rin == s.rin - s.rin % 4
  {
    var s1 := Step(s, Run(t));
    var s2 := Step(s1, Run(t));
    var s3 := Step(s2, Run(t));
    assert Alone(s, t, 3) == Alone(s1, t, 2) == Alone(s2, t, 1) == Alone(s3, t, 0);
  }

  lemma GetsLock(s: State, t: Tid)
    requires PcOf(s, t).TakeTicket? && s.ticket == s.serving && s.rin == s.rout
    ensures var s' := Alone(s, t, 4);
      PcOf(s', t).WriteHeld? && s'.served == s.served && s'.rin == (s.rin + Bits(s.ticket)) % WORD
  {
    var s1 := Step(s, Run(t));
    var s2 := Step(s1, Run(t));
    assert PcOf(s2, t) == Announce(s.issued, s.ticket) && s2.rin == s2.rout;
    var s3 := Step(s2, Run(t));
    assert PcOf(s3, t).r == s.rin == s3.rout;
    var s4 := Step(s3, Run(t));
    assert Alone(s, t, 4) == Alone(s1, t, 3) == Alone(s2, t, 2) == Alone(s3, t, 1) == Alone(s4, t, 0);
  }

  /** On a free lock a writer that runs alone gets it in four steps, and three more give it back. */
  lemma WriterAlone(s: State, t: Tid)
    requires Free(s) && Manned(s)
    ensures var s' := Alone(Step(s, StartWrite(t)), t, 4);
      && PcOf(s', t).WriteHeld? && s'.served == s.served
      && PcOf(Alone(s', t, 3), t).Idle? && Alone(s', t, 3).served == s.served + 1 && Alone(s', t, 3).rin == s.rin
  {
    FreeWords(s);
    var s0 := Step(s, StartWrite(t));
    GetsLock(s0, t);
    AddBits(s.rin, s.ticket);
    GivesBack(Alone(s0, t, 4), t);
  }

  /** While no writer is present, a reader gets the lock in one step; one more gives it back. */
  lemma ReaderAlone(s: State, t: Tid)
    requires Inv(s) && PcOf(s, t).Idle? && forall u :: !Present(s, u)
    ensures var s' := Step(s, StartRead(t));
      PcOf(Alone(s', t, 1), t).ReadHeld? && PcOf(Alone(s', t, 2), t).Idle? && Alone(s', t, 2).inside == s.inside
  {
    var s0 := Step(s, StartRead(t));
    var s1 := Step(s0, Run(t));
    assert PcOf(s1, t) == ReadHeld(s.arrivals);
    var s2 := Step(s1, Run(t));
    assert Alone(s0, t, 1) == Alone(s1, t, 0);
    assert Alone(s0, t, 2) == Alone(s1, t, 1) == Alone(s2, t, 0);
    assert s.arrivals !in s.inside;
  }
}
