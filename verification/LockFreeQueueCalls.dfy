/** What the callers of the queue of basic/lf_queue.c see, from the acts that begin their calls: what is enqueued is the
    argument of the call, each call takes effect exactly once, and what a call that runs alone does, whatever the others
    were in the middle of. */
module LockFreeQueueCalls {
  import opened Prelude
  import opened LockFreeQueue
  import EveryRun = LockFreeQueueEveryRun

  predicate Begins(a: Act, t: Tid) { a.t == t && (a.ch.StartEnqueue? || a.ch.StartDequeue?) }

  /** The latest of the first `i` acts that began a call of `t`; -1 if there is none. */
  ghost function CallOf(acts: seq<Act>, i: nat, t: Tid): (c: int)
    requires i <= |acts|
    ensures -1 <= c < i && (c >= 0 ==> Begins(acts[c], t))
  {
    if i == 0 then -1 else if Begins(acts[i - 1], t) then i - 1 else CallOf(acts, i - 1, t)
  }

  /** Act `i` links an element; act `i` takes one. */
  predicate Links(run: seq<State>, acts: seq<Act>, i: nat) {
    |run| == |acts| + 1 && i < |acts| && run[i + 1].enqLog != run[i].enqLog
  }

  predicate Takes(run: seq<State>, acts: seq<Act>, i: nat) {
    |run| == |acts| + 1 && i < |acts| && run[i + 1].deqLog != run[i].deqLog
  }

  /** How many elements thread `t` has linked, and taken, since it began its call. */
  ghost function LinkedSince(run: seq<State>, acts: seq<Act>, i: nat, t: Tid): nat
    requires |run| == |acts| + 1 && i < |run|
  {
    if i == 0 || Begins(acts[i - 1], t) then 0
    else LinkedSince(run, acts, i - 1, t) + if acts[i - 1].t == t && Links(run, acts, i - 1) then 1 else 0
  }

  ghost function TakenSince(run: seq<State>, acts: seq<Act>, i: nat, t: Tid): nat
    requires |run| == |acts| + 1 && i < |run|
  {
    if i == 0 || Begins(acts[i - 1], t) then 0
    else TakenSince(run, acts, i - 1, t) + if acts[i - 1].t == t && Takes(run, acts, i - 1) then 1 else 0
  }

  // ----- a thread does what its call says

  /** An enqueue of `d` that has linked its element `n` times. */
  predicate Enqueues(pc: Pc, d: Data, n: nat) {
    if pc.Pop238? then pc.data == d && n == 0
    else InEnqueue(pc) && pc.e.data == d && n == (if pc.E83? then 1 else 0)
  }

  /** A dequeue that has taken an element `n` times. */
  predicate Dequeues(pc: Pc, n: nat) {
    !InEnqueue(pc) && !pc.Idle? && n == (if pc.D130? then 1 else 0)
  }

  /** What a thread does is part of the call that it began with choice `ch`. */
  predicate Fits(pc: Pc, ch: Choice, linked: nat, taken: nat) {
    match ch
    case StartEnqueue(d) => (pc.Idle? && linked <= 1 && taken == 0) || (Enqueues(pc, d, linked) && taken == 0)
    case StartDequeue => (pc.Idle? && taken <= 1 && linked == 0) || (Dequeues(pc, taken) && linked == 0)
    case _ => false
  }

  predicate Appends(s: State, s': State, d: Data) { s'.enqLog == s.enqLog + [d] }

  /** One step of a call: it links at most once, and then the element of the call. */
  lemma FitsOn(s: State, t: Tid, ch: Choice, c: Choice, linked: nat, taken: nat)
    requires Enabled(s, t, ch) && !Begins(Act(t, ch), t) && Fits(PcOf(s, t), c, linked, taken)
    ensures var s' := Advance(s, t, ch);
      && Fits(PcOf(s', t), c, linked + (if s'.enqLog != s.enqLog then 1 else 0),
              taken + (if s'.deqLog != s.deqLog then 1 else 0))
      && (s'.enqLog != s.enqLog ==> c.StartEnqueue? && Appends(s, s', c.data))
  {
    EnqueueOn(s, t, ch, c, linked, taken);
    DequeueOn(s, t, ch, c, linked, taken);
  }

  lemma EnqueueOn(s: State, t: Tid, ch: Choice, c: Choice, linked: nat, taken: nat)
    requires Enabled(s, t, ch) && !Begins(Act(t, ch), t) && Fits(PcOf(s, t), c, linked, taken)
    ensures var s' := Advance(s, t, ch);
      c.StartEnqueue? ==>
        && Fits(PcOf(s', t), c, linked + (if s'.enqLog != s.enqLog then 1 else 0), taken) && s'.deqLog == s.deqLog
        && (s'.enqLog != s.enqLog ==> Appends(s, s', c.data))
  {
  }

  lemma DequeueOn(s: State, t: Tid, ch: Choice, c: Choice, linked: nat, taken: nat)
    requires Enabled(s, t, ch) && !Begins(Act(t, ch), t) && Fits(PcOf(s, t), c, linked, taken)
    ensures var s' := Advance(s, t, ch);
      c.StartDequeue? ==>
        && Fits(PcOf(s', t), c, linked, taken + (if s'.deqLog != s.deqLog then 1 else 0)) && s'.enqLog == s.enqLog
  {
  }

  lemma OthersStay(s: State, t: Tid, a: Act)
    requires Enabled(s, a.t, a.ch) && a.t != t
    ensures PcOf(Advance(s, a.t, a.ch), t) == PcOf(s, t)
  {
  }

  /** A call begins without an effect. */
  lemma BeginsFits(s: State, t: Tid, ch: Choice)
    requires Enabled(s, t, ch) && Begins(Act(t, ch), t)
    ensures var s' := Advance(s, t, ch); Fits(PcOf(s', t), ch, 0, 0) && s'.enqLog == s.enqLog && s'.deqLog == s.deqLog
  {
  }

  ghost predicate InCall(run: seq<State>, acts: seq<Act>, i: nat, t: Tid)
    requires |run| == |acts| + 1 && i < |run|
  {
    var c := CallOf(acts, i, t);
    if c < 0 then PcOf(run[i], t).Idle?
    else Fits(PcOf(run[i], t), acts[c].ch, LinkedSince(run, acts, i, t), TakenSince(run, acts, i, t))
  }

  lemma {:induction false} AlwaysInCall(run: seq<State>, acts: seq<Act>, i: nat, t: Tid)
    requires IsRun(run, acts) && i < |run|
    ensures InCall(run, acts, i, t)
  {
    if i == 0 {
      assert PcOf(run[0], t) == Idle;
    } else {
      AlwaysInCall(run, acts, i - 1, t);
      var s, a := run[i - 1], acts[i - 1];
      assert Moves(s, a, run[i]);
      if Begins(a, t) {
        BeginsFits(s, t, a.ch);
      } else if a.t != t {
        OthersStay(s, t, a);
      } else if CallOf(acts, i - 1, t) >= 0 {
        FitsOn(s, t, a.ch, acts[CallOf(acts, i - 1, t)].ch,
               LinkedSince(run, acts, i - 1, t), TakenSince(run, acts, i - 1, t));
      }
    }
  }

  // ----- what is enqueued

  /** The arguments of the calls that have linked their elements, in the order in which they did. */
  ghost function Arguments(run: seq<State>, acts: seq<Act>, i: nat): seq<Data>
    requires |run| == |acts| + 1 && i < |run|
  {
    if i == 0 then []
    else if !Links(run, acts, i - 1) then Arguments(run, acts, i - 1)
    else Arguments(run, acts, i - 1) + [Argument(acts, i - 1, acts[i - 1].t)]
  }

  /** The argument of the call that `t` is in, if that is an enqueue. */
  ghost function Argument(acts: seq<Act>, i: nat, t: Tid): Data
    requires i <= |acts|
  {
    var c := CallOf(acts, i, t);
    if c >= 0 && acts[c].ch.StartEnqueue? then acts[c].ch.data else 0
  }

  /** What an act appends to the log of linked data is the argument of the enqueue that its thread is in. */
  lemma LinksArgument(run: seq<State>, acts: seq<Act>, i: nat)
    requires IsRun(run, acts) && Links(run, acts, i)
    ensures var c := CallOf(acts, i, acts[i].t);
      c >= 0 && acts[c].ch.StartEnqueue? && run[i + 1].enqLog == run[i].enqLog + [acts[c].ch.data]
  {
    var s, t, ch := run[i], acts[i].t, acts[i].ch;
    AlwaysInCall(run, acts, i, t);
    assert Moves(s, acts[i], run[i + 1]);
    if Begins(acts[i], t) {
      BeginsFits(s, t, ch);
    } else {
      FitsOn(s, t, ch, acts[CallOf(acts, i, t)].ch, LinkedSince(run, acts, i, t), TakenSince(run, acts, i, t));
    }
  }

  /** In every run, what has been enqueued is the list of the arguments of the linked calls. */
  lemma {:induction false} EnqueuedAreArguments(run: seq<State>, acts: seq<Act>, i: nat)
    requires IsRun(run, acts) && i < |run|
    ensures run[i].enqLog == Arguments(run, acts, i)
  {
    if i > 0 {
      EnqueuedAreArguments(run, acts, i - 1);
      if Links(run, acts, i - 1) { LinksArgument(run, acts, i - 1); }
    }
  }

  /** First in, first out, as the callers see it: in a tear-free run the data dequeued, followed by the contents of the
      queue in memory, are the arguments of the linked calls in the order of linking. */
  lemma CallersSeeFifo(run: seq<State>, acts: seq<Act>, i: nat)
    requires IsRun(run, acts) && TearFree(run, acts) && i < |run|
    ensures Chain(run[i], ChainAt(run, acts, i))
    ensures Arguments(run, acts, i) == run[i].deqLog + Contents(run[i], ChainAt(run, acts, i))
  {
    EnqueuedAreArguments(run, acts, i);
    RunIsFifo(run, acts, i);
  }

  /** In every run, torn or not, what has been dequeued is among the arguments, no more often than they were given. */
  lemma DequeuedAreArguments(run: seq<State>, acts: seq<Act>, i: nat)
    requires IsRun(run, acts) && i < |run|
    ensures multiset(run[i].deqLog) <= multiset(Arguments(run, acts, i))
  {
    EnqueuedAreArguments(run, acts, i);
    var q, linked := EveryRun.ElementsConserved(run, acts, i);
  }

  // ----- each call takes effect exactly once

  /** The call of `t` returns at act `i`. */
  ghost predicate ReturnsAt(run: seq<State>, acts: seq<Act>, i: nat, t: Tid) {
    && |run| == |acts| + 1 && i < |acts| && acts[i].t == t && CallOf(acts, i, t) >= 0
    && !PcOf(run[i], t).Idle? && PcOf(run[i + 1], t).Idle?
  }

  lemma EnqueueEnds(s: State, t: Tid, ch: Choice, c: Choice, linked: nat, taken: nat)
    requires Enabled(s, t, ch) && Fits(PcOf(s, t), c, linked, taken) && c.StartEnqueue?
    requires !PcOf(s, t).Idle? && PcOf(Advance(s, t, ch), t).Idle?
    ensures Advance(s, t, ch).enqLog == s.enqLog
    ensures if ch.TakeNone? then s.free == {} && linked == 0 else linked == 1
  {
  }

  /** `queue_enqueue` that returns has linked its element exactly once, or has found no free node and linked nothing. */
  lemma EnqueueTakesEffect(run: seq<State>, acts: seq<Act>, i: nat, t: Tid)
    requires IsRun(run, acts) && ReturnsAt(run, acts, i, t) && acts[CallOf(acts, i, t)].ch.StartEnqueue?
    ensures if acts[i].ch.TakeNone? then run[i].free == {} && LinkedSince(run, acts, i + 1, t) == 0
            else LinkedSince(run, acts, i + 1, t) == 1
  {
    AlwaysInCall(run, acts, i, t);
    assert Moves(run[i], acts[i], run[i + 1]);
    EnqueueEnds(run[i], t, acts[i].ch, acts[CallOf(acts, i, t)].ch, LinkedSince(run, acts, i, t),
                TakenSince(run, acts, i, t));
  }

  lemma DequeueEnds(s: State, t: Tid, ch: Choice, c: Choice, linked: nat, taken: nat)
    requires Enabled(s, t, ch) && Fits(PcOf(s, t), c, linked, taken) && c.StartDequeue?
    requires !PcOf(s, t).Idle? && PcOf(Advance(s, t, ch), t).Idle?
    ensures Advance(s, t, ch).deqLog == s.deqLog && taken == if PcOf(s, t).D102c? then 0 else 1
  {
  }

  /** `queue_dequeue` that returns has taken exactly one element, or has answered "empty" and taken none; then the queue
      was empty at an instant of the call. */
  lemma DequeueTakesEffect(run: seq<State>, acts: seq<Act>, i: nat, t: Tid)
    requires IsRun(run, acts) && ReturnsAt(run, acts, i, t) && acts[CallOf(acts, i, t)].ch.StartDequeue?
    ensures TakenSince(run, acts, i + 1, t) <= 1
    ensures TakenSince(run, acts, i + 1, t) == 0 ==> exists k :: EveryRun.EmptyDuring(run, t, k, i)
  {
    AlwaysInCall(run, acts, i, t);
    assert Moves(run[i], acts[i], run[i + 1]);
    DequeueEnds(run[i], t, acts[i].ch, acts[CallOf(acts, i, t)].ch, LinkedSince(run, acts, i, t),
                TakenSince(run, acts, i, t));
    if PcOf(run[i], t).D102c? { var k := EveryRun.EmptyAnswerWasTrue(run, acts, i); }
  }

  // ----- calls that run alone

  /** The state after `n` steps of thread `t` alone. */
  ghost function Alone(s: State, t: Tid, n: nat): State
    decreases n
  {
    if n == 0 || !Enabled(s, t, Go) then s else Alone(Advance(s, t, Go), t, n - 1)
  }

  /** The queue in memory is `q`, and the enqueue pointer is at its `k`-th node. */
  ghost predicate QueueIs(s: State, q: seq<Node>, k: nat) {
    Chain(s, q) && k < |q| && s.enq.ptr == q[k] && forall n :: n in s.free ==> n in s.mem && n !in q
  }

  lemma GotoTwice(s: State, t: Tid, a: Pc, b: Pc)
    ensures Goto(Goto(s, t, a), t, b) == Goto(s, t, b)
  {
    assert Goto(Goto(s, t, a), t, b).pcs == Goto(s, t, b).pcs;
  }

  lemma Here(s: State, t: Tid)
    requires !PcOf(s, t).Idle?
    ensures Goto(s, t, PcOf(s, t)) == s
  {
    assert Goto(s, t, PcOf(s, t)).pcs == s.pcs;
  }

  /** A step that changes only where the thread is. */
  lemma Hop(s: State, t: Tid, a: Pc, b: Pc, n: nat)
    requires n > 0 && Enabled(Goto(s, t, a), t, Go) && Advance(Goto(s, t, a), t, Go) == Goto(Goto(s, t, a), t, b)
    ensures Alone(Goto(s, t, a), t, n) == Alone(Goto(s, t, b), t, n - 1)
  {
    GotoTwice(s, t, a, b);
  }

  lemma EnqueueHalfway(s: State, t: Tid, e: Elem, n: nat)
    requires PcOf(s, t) == E66(e) && n >= 3
    ensures var p := s.enq.ptr;
      Alone(s, t, n) == Alone(Goto(s, t, E69(e, p, s.enq.ctr, At(s.mem, p).next)), t, n - 3)
  {
    var p, c := s.enq.ptr, s.enq.ctr;
    Here(s, t);
    Hop(s, t, E66(e), E67(e, p), n);
    Hop(s, t, E67(e, p), E68(e, p, c), n - 1);
    Hop(s, t, E68(e, p, c), E69(e, p, c, At(s.mem, p).next), n - 2);
  }

  /** The loads of an enqueue, and the checks of line 71. */
  lemma EnqueueLoads(s: State, t: Tid, e: Elem, n: nat)
    requires PcOf(s, t) == E66(e) && n >= 6
    ensures var p, c, cell := s.enq.ptr, s.enq.ctr, At(s.mem, s.enq.ptr);
      Alone(s, t, n) ==
        Alone(Goto(s, t, if cell.next.None? then E74(e, p, c, cell.ctr) else E78(e, p, c, cell.next.value)), t, n - 6)
  {
    var p, c, cell := s.enq.ptr, s.enq.ctr, At(s.mem, s.enq.ptr);
    EnqueueHalfway(s, t, e, n);
    Hop(s, t, E69(e, p, c, cell.next), E71p(e, p, c, cell.next, cell.ctr), n - 3);
    Hop(s, t, E71p(e, p, c, cell.next, cell.ctr), E71c(e, p, c, cell.next, cell.ctr), n - 4);
    Hop(s, t, E71c(e, p, c, cell.next, cell.ctr),
        if cell.next.None? then E74(e, p, c, cell.ctr) else E78(e, p, c, cell.next.value), n - 5);
  }

  /** The call has returned and has linked `d`. */
  ghost predicate HasEnqueued(s: State, s': State, t: Tid, d: Data) {
    PcOf(s', t).Idle? && s'.enqLog == s.enqLog + [d] && s'.deqLog == s.deqLog
  }

  /** At the end of the queue the element is linked and the enqueue pointer follows. */
  lemma LinksAtEnd(s: State, t: Tid, e: Elem, n: nat)
    requires PcOf(s, t) == E66(e) && At(s.mem, s.enq.ptr).next.None? && n >= 8
    ensures HasEnqueued(s, Alone(s, t, n), t, e.data)
  {
    var p, c := s.enq.ptr, s.enq.ctr;
    EnqueueLoads(s, t, e, n);
    var s6 := Goto(s, t, E74(e, p, c, At(s.mem, p).ctr));
    var s7 := Advance(s6, t, Go);
    assert PcOf(s7, t) == E83(e, p, c) && s7.enq == s.enq;
    var s8 := Advance(s7, t, Go);
    assert Alone(s6, t, n - 6) == Alone(s7, t, n - 7) == Alone(s8, t, n - 8) == s8;
  }

  /** From the loop of `queue_enqueue` on, a thread that runs alone helps the enqueue pointer along and links its
      element. */
  lemma {:induction false} EnqueueLoop(s: State, q: seq<Node>, k: nat, t: Tid, e: Elem, n: nat)
    requires QueueIs(s, q, k) && PcOf(s, t) == E66(e) && n >= 8 + 7 * (|q| - 1 - k)
    ensures HasEnqueued(s, Alone(s, t, n), t, e.data)
    decreases |q| - k
  {
    if k == |q| - 1 {
      LinksAtEnd(s, t, e, n);
    } else {
      assert At(s.mem, q[k]).next == Some(q[k + 1]);
      EnqueueLoads(s, t, e, n);
      var s6 := Goto(s, t, E78(e, q[k], s.enq.ctr, q[k + 1]));
      var s7 := Advance(s6, t, Go);
      Swung(s, q, k, t, e);
      EnqueueLoop(s7, q, k + 1, t, e, n - 7);
      assert Alone(s6, t, n - 6) == Alone(s7, t, n - 7);
    }
  }

  lemma Swung(s: State, q: seq<Node>, k: nat, t: Tid, e: Elem)
    requires QueueIs(s, q, k) && k + 1 < |q|
    ensures var s' := Advance(Goto(s, t, E78(e, q[k], s.enq.ctr, q[k + 1])), t, Go);
      QueueIs(s', q, k + 1) && PcOf(s', t) == E66(e) && s'.enqLog == s.enqLog && s'.deqLog == s.deqLog
  {
  }

  /** The steps that fill in the node leave the queue as it is. */
  lemma FillsIn(s: State, q: seq<Node>, k: nat, t: Tid, e: Elem, n: nat) returns (s': State)
    requires QueueIs(s, q, k) && PcOf(s, t) == Inc260(e) && e.node in s.mem && e.node !in q && n >= 5
    ensures QueueIs(s', q, k) && PcOf(s', t) == E66(e) && s'.enqLog == s.enqLog && s'.deqLog == s.deqLog
    ensures Alone(s, t, n) == Alone(s', t, n - 5)
  {
    var s1 := Advance(s, t, Go);
    var s2 := Advance(s1, t, Go);
    var s3 := Advance(s2, t, Go);
    var s4 := Advance(s3, t, Go);
    s' := Advance(s4, t, Go);
    assert Alone(s, t, n) == Alone(s1, t, n - 1) == Alone(s2, t, n - 2) == Alone(s3, t, n - 3) == Alone(s4, t, n - 4)
        == Alone(s', t, n - 5);
    assert forall m :: m in q ==> m in s'.mem && At(s'.mem, m) == At(s.mem, m);
    assert forall i :: 0 <= i < |q| ==> q[i] in q;
  }

  lemma QueueAt(run: seq<State>, acts: seq<Act>, i: nat) returns (q: seq<Node>, k: nat)
    requires IsRun(run, acts) && i < |run|
    ensures QueueIs(run[i], q, k)
  {
    var s := run[i];
    var sh := EveryRun.RunKeeps(run, acts, i);
    q := sh.q;
    k :| k < |q| && q[k] == s.enq.ptr;
    forall n | n in s.free ensures n in s.mem && n !in q { assert EveryRun.FreeOk(s, sh, n); }
  }

  lemma GetsNode(s: State, q: seq<Node>, k: nat, t: Tid, d: Data, ch: Choice)
    requires QueueIs(s, q, k) && PcOf(s, t) == Pop238(d) && Enabled(s, t, ch) && !ch.TakeNone?
    ensures var s' := Advance(s, t, ch);
      && QueueIs(s', q, k) && PcOf(s', t) == Inc260(Elem(ch.node, d)) && ch.node in s'.mem && ch.node !in q
      && s'.enqLog == s.enqLog && s'.deqLog == s.deqLog
  {
    assert forall j :: 0 <= j < |q| ==> q[j] in q;
  }

  /** An enqueue of `d` that takes a free node, or a new one, and during which no other thread moves, links `d` and
      returns within a bounded number of steps: in every state of every run, whatever the others are in
      the middle of. */
  lemma EnqueueAlone(run: seq<State>, acts: seq<Act>, i: nat, t: Tid, d: Data, ch: Choice) returns (bound: nat)
    requires IsRun(run, acts) && i < |run| && PcOf(run[i], t).Idle?
    requires (ch.TakeFree? && ch.node in run[i].free) || (ch.TakeNew? && ch.node !in run[i].mem)
    ensures var s0 := Advance(run[i], t, StartEnqueue(d));
      Enabled(s0, t, ch) && forall n :: n >= bound ==> HasEnqueued(run[i], Alone(Advance(s0, t, ch), t, n), t, d)
  {
    var q, k := QueueAt(run, acts, i);
    var s0 := Advance(run[i], t, StartEnqueue(d));
    assert QueueIs(s0, q, k);
    GetsNode(s0, q, k, t, d, ch);
    bound := 13 + 7 * (|q| - 1 - k);
    forall n | n >= bound ensures HasEnqueued(run[i], Alone(Advance(s0, t, ch), t, n), t, d) {
      var s' := FillsIn(Advance(s0, t, ch), q, k, t, Elem(ch.node, d), n);
      EnqueueLoop(s', q, k, t, Elem(ch.node, d), n - 5);
    }
  }

  // ----- dequeue

  lemma DequeueHalfway(s: State, t: Tid, n: nat)
    requires PcOf(s, t) == D95 && n >= 4
    ensures Alone(s, t, n) == Alone(Goto(s, t, D99(s.deq.ptr, s.deq.ctr, s.enq.ptr, s.enq.ctr)), t, n - 4)
  {
    var p, c, ep, ec := s.deq.ptr, s.deq.ctr, s.enq.ptr, s.enq.ctr;
    Here(s, t);
    Hop(s, t, D95, D96(p), n);
    Hop(s, t, D96(p), D97(p, c), n - 1);
    Hop(s, t, D97(p, c), D98(p, c, ep), n - 2);
    Hop(s, t, D98(p, c, ep), D99(p, c, ep, ec), n - 3);
  }

  lemma DequeueLoads(s: State, t: Tid, n: nat)
    requires PcOf(s, t) == D95 && n >= 7
    ensures var p, c, ep, ec, np := s.deq.ptr, s.deq.ctr, s.enq.ptr, s.enq.ctr, At(s.mem, s.deq.ptr).next;
      Alone(s, t, n) == Alone(Goto(s, t, Verdict102(p, c, ep, ec, np)), t, n - 7)
  {
    var p, c, ep, ec, np := s.deq.ptr, s.deq.ctr, s.enq.ptr, s.enq.ctr, At(s.mem, s.deq.ptr).next;
    DequeueHalfway(s, t, n);
    Hop(s, t, D99(p, c, ep, ec), D102p(p, c, ep, ec, np), n - 4);
    Hop(s, t, D102p(p, c, ep, ec, np), D102c(p, c, ep, ec, np), n - 5);
    Hop(s, t, D102c(p, c, ep, ec, np), Verdict102(p, c, ep, ec, np), n - 6);
  }

  /** The call has returned and has yielded the first element of queue `q`, or nothing if there is none. */
  ghost predicate HasDequeued(s: State, s': State, t: Tid, q: seq<Node>) {
    && PcOf(s', t).Idle? && s'.enqLog == s.enqLog
    && s'.deqLog == s.deqLog + if |q| <= 1 then [] else [At(s.mem, q[1]).data]
  }

  /** When the enqueue pointer is not at the dummy, the first element is taken. */
  lemma TakesFirst(s: State, q: seq<Node>, k: nat, t: Tid, n: nat)
    requires QueueIs(s, q, k) && k > 0 && PcOf(s, t) == D95 && n >= 10
    ensures HasDequeued(s, Alone(s, t, n), t, q)
  {
    assert q[0] != q[k] && At(s.mem, q[0]).next == Some(q[1]);
    DequeueLoads(s, t, n);
    var s7 := Goto(s, t, D120(s.deq.ptr, s.deq.ctr, Some(q[1])));
    var s8 := Advance(s7, t, Go);
    assert PcOf(s8, t) == D122(s.deq.ptr, s.deq.ctr, q[1], At(s.mem, q[1]).data) && s8.deq == s.deq;
    var s9 := Advance(s8, t, Go);
    var s10 := Advance(s9, t, Go);
    assert Alone(s7, t, n - 7) == Alone(s8, t, n - 8) == Alone(s9, t, n - 9) == Alone(s10, t, n - 10) == s10;
  }

  /** With the enqueue pointer at the dummy, the call finds the queue empty or helps and takes the first element. */
  lemma TakesBehind(s: State, q: seq<Node>, t: Tid, n: nat)
    requires QueueIs(s, q, 0) && PcOf(s, t) == D95 && n >= 18
    ensures HasDequeued(s, Alone(s, t, n), t, q)
  {
    DequeueLoads(s, t, n);
    if |q| > 1 {
      assert At(s.mem, q[0]).next == Some(q[1]);
      var s7 := Goto(s, t, D117(q[0], s.enq.ctr, q[1]));
      var s8 := Advance(s7, t, Go);
      assert QueueIs(s8, q, 1) && PcOf(s8, t) == D95 && s8.mem == s.mem;
      TakesFirst(s8, q, 1, t, n - 8);
      assert Alone(s7, t, n - 7) == Alone(s8, t, n - 8);
    }
  }

  /** A dequeue during which no other thread moves yields, within 18 steps, the first element of the queue in memory, in
      every state of every run; it answers "empty" exactly if there is none. */
  lemma DequeueAlone(run: seq<State>, acts: seq<Act>, i: nat, t: Tid) returns (q: seq<Node>)
    requires IsRun(run, acts) && i < |run| && PcOf(run[i], t).Idle?
    ensures Chain(run[i], q)
    ensures forall n :: n >= 18 ==> HasDequeued(run[i], Alone(Advance(run[i], t, StartDequeue), t, n), t, q)
  {
    var k;
    q, k := QueueAt(run, acts, i);
    var s0 := Advance(run[i], t, StartDequeue);
    assert QueueIs(s0, q, k) && s0.mem == run[i].mem;
    forall n | n >= 18 ensures HasDequeued(run[i], Alone(s0, t, n), t, q) {
      if k > 0 { TakesFirst(s0, q, k, t, n); } else { TakesBehind(s0, q, t, n); }
    }
  }
}
