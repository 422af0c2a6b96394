/** What the callers of the ring buffer of basic/lf_ringbuffer.c see, from the acts that begin their calls: what is put
    for reading goes to the queue, what is put after reading goes to the freelist, and what is read comes in the order
    in which it joined the queue. */
module RingBufferCalls {
  import opened Prelude
  import opened RingBuffer

  predicate Begins(a: Act, t: Tid) { !a.Run? && !a.Hang? && a.t == t }

  /** The latest of the first `i` acts that began a call of `t`; -1 if there is none. */
  ghost function CallOf(acts: seq<Act>, i: nat, t: Tid): (c: int)
    requires i <= |acts|
    ensures -1 <= c < i && (c >= 0 ==> Begins(acts[c], t))
  {
    if i == 0 then -1 else if Begins(acts[i - 1], t) then i - 1 else CallOf(acts, i - 1, t)
  }

  /** What a thread does is part of the call `a` that it began. */
  predicate Fits(pc: Pc, a: Act) {
    pc.Idle? ||
    match a
    case GetRead(_) => pc.ReadDequeue? || pc.Release?
    case GetWrite(_) => pc.WritePop? || pc.WriteDequeue? || pc.Release?
    case PutRead(_, e) => pc == PushFree(e)
    case PutWrite(_, e) => (pc.PopNode? || pc.LinkNode?) && pc.e == e
    case _ => false
  }

  /** Where thread `t` is after a step of its own. */
  function NextPc(s: State, t: Tid): Pc {
    match PcOf(s, t)
    case ReadDequeue => if |s.queue| > 0 then Release(s.queue[0].elem, s.dummy) else Idle
    case WritePop => if |s.free| > 0 then Idle else WriteDequeue
    case WriteDequeue => if |s.queue| > 0 then Release(s.queue[0].elem, s.dummy) else WritePop
    case PopNode(e) => if |s.spare| == 0 then Idle else LinkNode(e, s.spare[|s.spare| - 1], [])
    case _ => Idle
  }

  lemma LinkedPcs(s: State, t: Tid, l: seq<Link>)
    ensures NodeLinked(s, t, l).pcs == s.pcs[t := Idle]
  {
  }

  lemma RunPcs(s: State, t: Tid)
    requires Enabled(s, Run(t))
    ensures Step(s, Run(t)).pcs == s.pcs[t := NextPc(s, t)]
  {
    if PcOf(s, t).LinkNode? { LinkedPcs(s, t, Chunk(PcOf(s, t))); }
  }

  lemma HungPcs(s: State, t: Tid, l: seq<Link>, u: Tid)
    requires PcOf(s, u).LinkNode?
    ensures NodeHung(s, t, l, u).pcs == s.pcs[u := PcOf(s, u).(tail := PcOf(s, u).tail + l)][t := Idle]
  {
  }

  lemma BeginPcs(s: State, a: Act)
    requires Enabled(s, a) && Begins(a, a.t)
    ensures Step(s, a).pcs.Keys == s.pcs.Keys + {a.t} && forall t :: t != a.t ==> PcOf(Step(s, a), t) == PcOf(s, t)
  {
  }

  /** A thread moves by its own acts only, except that a node can be hung behind the one it is linking. */
  lemma OthersStay(s: State, a: Act, t: Tid)
    requires Enabled(s, a) && a.t != t
    ensures var pc, pc' := PcOf(s, t), PcOf(Step(s, a), t);
      pc' == pc || (pc.LinkNode? && pc'.LinkNode? && pc'.e == pc.e && a == Hang(a.t, t))
  {
    match a
    case Run(u) => RunPcs(s, u);
    case Hang(u, v) => HungPcs(s, u, Chunk(PcOf(s, u)), v);
    case _ => BeginPcs(s, a);
  }

  lemma FitsOn(s: State, a: Act, t: Tid, c: Act)
    requires Enabled(s, a) && !Begins(a, t) && Fits(PcOf(s, t), c)
    ensures Fits(PcOf(Step(s, a), t), c)
  {
    if a.t != t {
      OthersStay(s, a, t);
    } else if a.Run? {
      RunPcs(s, t);
    } else {
      HungPcs(s, t, Chunk(PcOf(s, t)), a.u);
    }
  }

  ghost predicate InCall(run: seq<State>, acts: seq<Act>, i: nat, t: Tid)
    requires |run| == |acts| + 1 && i < |run|
  {
    var c := CallOf(acts, i, t);
    if c < 0 then PcOf(run[i], t).Idle? else Fits(PcOf(run[i], t), acts[c])
  }

  lemma IdleStays(s: State, a: Act, t: Tid)
    requires Enabled(s, a) && !Begins(a, t) && PcOf(s, t).Idle?
    ensures PcOf(Step(s, a), t).Idle?
  {
    OthersStay(s, a, t);
  }

  lemma {:induction false} AlwaysInCall(run: seq<State>, acts: seq<Act>, i: nat, t: Tid)
    requires IsRun(run, acts) && i < |run|
    ensures InCall(run, acts, i, t)
  {
    if i == 0 {
      assert PcOf(run[0], t) == Idle;
    } else {
      AlwaysInCall(run, acts, i - 1, t);
      assert MovesAt(run, acts, i - 1);
      var c := CallOf(acts, i - 1, t);
      if !Begins(acts[i - 1], t) {
        if c >= 0 { FitsOn(run[i - 1], acts[i - 1], t, acts[c]); } else { IdleStays(run[i - 1], acts[i - 1], t); }
      }
    }
  }

  // ----- where a put goes

  /** Thread `t` is in the call that act `i` began, in all states after it up to state `j`. */
  ghost predicate During(run: seq<State>, acts: seq<Act>, i: nat, j: nat, t: Tid) {
    |run| == |acts| + 1 && i < j < |run| && Begins(acts[i], t) && forall k :: i < k <= j ==> !PcOf(run[k], t).Idle?
  }

  lemma {:induction false} SameCall(run: seq<State>, acts: seq<Act>, i: nat, j: nat, t: Tid)
    requires IsRun(run, acts) && During(run, acts, i, j, t)
    ensures CallOf(acts, j, t) == i
  {
    if j > i + 1 {
      SameCall(run, acts, i, j - 1, t);
      assert MovesAt(run, acts, j - 1) && !PcOf(run[j - 1], t).Idle?;
    }
  }

  predicate Puts(a: Act) { a.PutRead? || a.PutWrite? }

  /** From the call on, as long as it goes on, the element is in the hand of the call and nowhere else. */
  lemma PutInHand(run: seq<State>, acts: seq<Act>, i: nat, j: nat, t: Tid)
    requires IsRun(run, acts) && During(run, acts, i, j, t) && Puts(acts[i])
    ensures IsAt(run[j], acts[i].e, Moving(t)) && forall p :: IsAt(run[j], acts[i].e, p) ==> p == Moving(t)
  {
    SameCall(run, acts, i, j, t);
    AlwaysInCall(run, acts, j, t);
    RunKeeps(run, acts, j);
    assert ThreadOk(run[j], t);
    forall p | IsAt(run[j], acts[i].e, p) ensures p == Moving(t) { AtItsPlace(run[j], acts[i].e, p); }
  }

  /** The call that act `i` began ends with act `j`. */
  ghost predicate EndsWith(run: seq<State>, acts: seq<Act>, i: nat, j: nat, t: Tid) {
    During(run, acts, i, j, t) && j < |acts| && PcOf(run[j + 1], t).Idle?
  }

  lemma JoinsAtEnd(s: State, a: Act, t: Tid, e: Elem)
    requires Inv(s) && Enabled(s, a) && !PcOf(s, t).Idle? && Fits(PcOf(s, t), PutWrite(t, e))
    requires PcOf(Step(s, a), t).Idle?
    ensures LocOf(Step(s, a), e).Queued? || LocOf(Step(s, a), e).Hanging?
  {
    assert ThreadOk(s, t);
    if PcOf(s, t).PopNode? {
      SpareNode(s, e);
      assert false;
    } else {
      var l := Chunk(PcOf(s, t));
      assert l[0].elem == e;
      match a
      case Hang(_, u) => GoesTo(s, t, Hanging(u, |PcOf(s, u).tail|), 0);
      case Run(_) => GoesTo(s, t, Queued(s.first + |s.queue|), 0);
    }
  }

  /** When `ringbuffer_put_write(e)` returns, the element has joined the queue or hangs behind another call's node;
      during the call it was in the hand of the call only, so never on the freelist. */
  lemma PutWriteJoins(run: seq<State>, acts: seq<Act>, i: nat, j: nat, t: Tid, e: Elem)
    requires IsRun(run, acts) && EndsWith(run, acts, i, j, t) && acts[i] == PutWrite(t, e)
    ensures var p := LocOf(run[j + 1], e); IsAt(run[j + 1], e, p) && (p.Queued? || p.Hanging?)
    ensures forall k, p :: i < k <= j && IsAt(run[k], e, p) ==> p == Moving(t)
  {
    forall k, p | i < k <= j && IsAt(run[k], e, p) ensures p == Moving(t) { PutInHand(run, acts, i, k, t); }
    SameCall(run, acts, i, j, t);
    AlwaysInCall(run, acts, j, t);
    RunKeeps(run, acts, j);
    assert MovesAt(run, acts, j);
    JoinsAtEnd(run[j], acts[j], t, e);
    RunKeeps(run, acts, j + 1);
    PutInHand(run, acts, i, j, t);
    assert ThreadOk(run[j], t);
    assert ElemOk(run[j + 1], e);
  }

  lemma FreesAtEnd(s: State, a: Act, t: Tid, e: Elem)
    requires Enabled(s, a) && PcOf(s, t) == PushFree(e) && PcOf(Step(s, a), t).Idle?
    ensures Step(s, a).free == s.free + [e] && Step(s, a).queue == s.queue
  {
    if a.t != t { OthersStay(s, a, t); }
    assert a == Run(t);
    assert Step(s, a) == Pushed(s, t, e);
  }

  /** When `ringbuffer_put_read(e)` returns, the element is on top of the freelist; during the call it was in no
      queue. */
  lemma PutReadFrees(run: seq<State>, acts: seq<Act>, i: nat, j: nat, t: Tid, e: Elem)
    requires IsRun(run, acts) && EndsWith(run, acts, i, j, t) && acts[i] == PutRead(t, e)
    ensures run[j + 1].free == run[j].free + [e] && run[j + 1].queue == run[j].queue
    ensures forall k, p :: i < k <= j && IsAt(run[k], e, p) ==> p == Moving(t)
  {
    forall k, p | i < k <= j && IsAt(run[k], e, p) ensures p == Moving(t) { PutInHand(run, acts, i, k, t); }
    SameCall(run, acts, i, j, t);
    AlwaysInCall(run, acts, j, t);
    assert MovesAt(run, acts, j);
    FreesAtEnd(run[j], acts[j], t, e);
  }

  // ----- what is got

  function Elems(l: seq<Link>): seq<Elem> { seq(|l|, i requires 0 <= i < |l| => l[i].elem) }

  /** The elements that an act adds to the queue. */
  function Joining(s: State, a: Act): seq<Elem> {
    if a.Run? && PcOf(s, a.t).LinkNode? then Elems(Chunk(PcOf(s, a.t))) else []
  }

  /** The element that an act takes from the queue. */
  function Serving(s: State, a: Act): seq<Elem> {
    if a.Run? && (PcOf(s, a.t).ReadDequeue? || PcOf(s, a.t).WriteDequeue?) && |s.queue| > 0 then [s.queue[0].elem]
    else []
  }

  ghost function Joined(run: seq<State>, acts: seq<Act>, i: nat): seq<Elem>
    requires |run| == |acts| + 1 && i < |run|
  {
    if i == 0 then [] else Joined(run, acts, i - 1) + Joining(run[i - 1], acts[i - 1])
  }

  ghost function Served(run: seq<State>, acts: seq<Act>, i: nat): seq<Elem>
    requires |run| == |acts| + 1 && i < |run|
  {
    if i == 0 then [] else Served(run, acts, i - 1) + Serving(run[i - 1], acts[i - 1])
  }

  lemma QueueStep(s: State, a: Act)
    requires Enabled(s, a)
    ensures Elems(s.queue) + Joining(s, a) == Serving(s, a) + Elems(Step(s, a).queue)
  {
    if a.Run? && PcOf(s, a.t).LinkNode? {
      var l := Chunk(PcOf(s, a.t));
      assert Step(s, a).queue == s.queue + l;
      assert Elems(s.queue + l) == Elems(s.queue) + Elems(l);
    } else if Serving(s, a) != [] {
      assert Step(s, a).queue == s.queue[1..];
      assert Elems(s.queue) == [s.queue[0].elem] + Elems(s.queue[1..]);
    } else {
      assert Step(s, a).queue == s.queue;
    }
  }

  lemma Regroup(served: seq<Elem>, q: seq<Elem>, joining: seq<Elem>, serving: seq<Elem>, q': seq<Elem>)
    requires q + joining == serving + q'
    ensures (served + q) + joining == (served + serving) + q'
  {
    assert (served + q) + joining == served + (q + joining);
    assert (served + serving) + q' == served + (serving + q');
  }

  /** The queue of elements is a FIFO: what has been taken from it is what joined it first, and it holds the rest. */
  lemma {:induction false} QueueIsFifo(run: seq<State>, acts: seq<Act>, i: nat)
    requires IsRun(run, acts) && i < |run|
    ensures Joined(run, acts, i) == Served(run, acts, i) + Elems(run[i].queue)
  {
    if i > 0 {
      QueueIsFifo(run, acts, i - 1);
      assert MovesAt(run, acts, i - 1);
      QueueStep(run[i - 1], acts[i - 1]);
      Regroup(Served(run, acts, i - 1), Elems(run[i - 1].queue), Joining(run[i - 1], acts[i - 1]),
              Serving(run[i - 1], acts[i - 1]), Elems(run[i].queue));
    }
  }

  /** What a call that gets an element does at act `k`: it takes the first element of the queue. */
  ghost predicate TakesFirst(run: seq<State>, acts: seq<Act>, k: nat, t: Tid, e: Elem) {
    && |run| == |acts| + 1 && k < |acts| && acts[k] == Run(t) && Serving(run[k], acts[k]) == [e]
    && |Served(run, acts, k)| < |Joined(run, acts, k)| && e == Joined(run, acts, k)[|Served(run, acts, k)|]
  }

  lemma ReleasesTaken(s: State, a: Act, t: Tid)
    requires Enabled(s, a) && PcOf(Step(s, a), t).Release?
    ensures PcOf(s, t) == PcOf(Step(s, a), t) || (a == Run(t) && Serving(s, a) == [PcOf(Step(s, a), t).e])
  {
    if a.t != t { OthersStay(s, a, t); }
  }

  lemma FirstJoined(run: seq<State>, acts: seq<Act>, k: nat, t: Tid, e: Elem)
    requires IsRun(run, acts) && k < |acts| && acts[k] == Run(t) && Serving(run[k], acts[k]) == [e]
    ensures TakesFirst(run, acts, k, t, e)
  {
    QueueIsFifo(run, acts, k);
    assert Elems(run[k].queue)[0] == e;
  }

  /** A call that is about to hand out a queued element has taken it, as the first of the queue, in this call. */
  lemma {:induction false} TookFirst(run: seq<State>, acts: seq<Act>, i: nat, j: nat, t: Tid) returns (k: nat)
    requires IsRun(run, acts) && During(run, acts, i, j, t) && PcOf(run[j], t).Release?
    ensures i < k < j && TakesFirst(run, acts, k, t, PcOf(run[j], t).e)
  {
    assert MovesAt(run, acts, j - 1);
    ReleasesTaken(run[j - 1], acts[j - 1], t);
    if acts[j - 1] == Run(t) && Serving(run[j - 1], acts[j - 1]) == [PcOf(run[j], t).e] {
      k := j - 1;
      FirstJoined(run, acts, k, t, PcOf(run[j], t).e);
    } else {
      k := TookFirst(run, acts, i, j - 1, t);
    }
  }

  // ----- how the calls that get something end

  lemma GetReadEnds(s: State, a: Act, t: Tid)
    requires Enabled(s, a) && (PcOf(s, t).ReadDequeue? || PcOf(s, t).Release?) && PcOf(Step(s, a), t).Idle?
    ensures if PcOf(s, t).Release? then Step(s, a).held == s.held + {PcOf(s, t).e}
            else s.queue == [] && Step(s, a).held == s.held
  {
    if a.t != t { OthersStay(s, a, t); }
    assert a == Run(t);
    if PcOf(s, t).Release? { assert Step(s, a) == Released(s, t, PcOf(s, t).e, PcOf(s, t).n); }
  }

  /** `ringbuffer_get_read` hands the caller the element that was the first of the queue at an instant of the call, the
      next in the order of joining; or it answers null, and then the queue was empty at an instant of the call. */
  lemma GetReadIsFifo(run: seq<State>, acts: seq<Act>, i: nat, j: nat, t: Tid) returns (k: nat)
    requires IsRun(run, acts) && EndsWith(run, acts, i, j, t) && acts[i] == GetRead(t)
    ensures i < k <= j
    ensures if PcOf(run[j], t).Release?
      then TakesFirst(run, acts, k, t, PcOf(run[j], t).e) && run[j + 1].held == run[j].held + {PcOf(run[j], t).e}
      else run[k].queue == [] && run[j + 1].held == run[j].held
  {
    SameCall(run, acts, i, j, t);
    AlwaysInCall(run, acts, j, t);
    assert MovesAt(run, acts, j);
    GetReadEnds(run[j], acts[j], t);
    k := j;
    if PcOf(run[j], t).Release? { k := TookFirst(run, acts, i, j, t); }
  }

  lemma GetWriteEnds(s: State, a: Act, t: Tid)
    requires Enabled(s, a) && (PcOf(s, t).WritePop? || PcOf(s, t).WriteDequeue? || PcOf(s, t).Release?)
    requires PcOf(Step(s, a), t).Idle?
    ensures PcOf(s, t).Release? ==> Step(s, a).held == s.held + {PcOf(s, t).e}
    ensures !PcOf(s, t).Release? ==> |s.free| > 0 && Step(s, a).free == s.free[..|s.free| - 1]
    ensures !PcOf(s, t).Release? ==> Step(s, a).held == s.held + {s.free[|s.free| - 1]}
  {
    if a.t != t { OthersStay(s, a, t); }
    assert a == Run(t);
    if PcOf(s, t).Release? { assert Step(s, a) == Released(s, t, PcOf(s, t).e, PcOf(s, t).n); }
  }

  lemma DequeuesAfter(s: State, a: Act, t: Tid)
    requires Enabled(s, a) && PcOf(Step(s, a), t).WriteDequeue? && !PcOf(s, t).WriteDequeue?
    ensures a == Run(t) && PcOf(s, t).WritePop? && s.free == []
  {
    if a.t != t { OthersStay(s, a, t); }
  }

  lemma {:induction false} FoundNoneFree(run: seq<State>, acts: seq<Act>, i: nat, j: nat, t: Tid) returns (k: nat)
    requires IsRun(run, acts) && During(run, acts, i, j, t) && PcOf(run[j], t).WriteDequeue?
    ensures i < k < j && run[k].free == []
  {
    assert MovesAt(run, acts, j - 1);
    if !PcOf(run[j - 1], t).WriteDequeue? {
      DequeuesAfter(run[j - 1], acts[j - 1], t);
      k := j - 1;
    } else {
      k := FoundNoneFree(run, acts, i, j - 1, t);
    }
  }

  /** `ringbuffer_get_write` never returns without an element.  It hands out the one pushed last on the freelist; or,
      if at an earlier instant of the call there was none, the first of the queue. */
  lemma GetWriteGets(run: seq<State>, acts: seq<Act>, i: nat, j: nat, t: Tid) returns (k: nat, m: nat)
    requires IsRun(run, acts) && EndsWith(run, acts, i, j, t) && acts[i] == GetWrite(t)
    ensures PcOf(run[j], t).Release? ==>
      && i < m < k < j && run[m].free == [] && TakesFirst(run, acts, k, t, PcOf(run[j], t).e)
      && run[j + 1].held == run[j].held + {PcOf(run[j], t).e}
    ensures !PcOf(run[j], t).Release? ==>
      && |run[j].free| > 0 && run[j + 1].held == run[j].held + {run[j].free[|run[j].free| - 1]}
      && run[j + 1].free == run[j].free[..|run[j].free| - 1]
  {
    SameCall(run, acts, i, j, t);
    AlwaysInCall(run, acts, j, t);
    assert MovesAt(run, acts, j);
    GetWriteEnds(run[j], acts[j], t);
    k, m := j, j;
    if PcOf(run[j], t).Release? {
      k := TookFirst(run, acts, i, j, t);
      SameCall(run, acts, i, k, t);
      AlwaysInCall(run, acts, k, t);
      m := FoundNoneFree(run, acts, i, k, t);
    }
  }

  // ----- where an element comes from

  /** The latest act among the first `i` that put element `e` back. */
  ghost function LastPut(acts: seq<Act>, i: nat, e: Elem): Option<Act>
    requires i <= |acts|
  {
    if i == 0 then None
    else if Puts(acts[i - 1]) && acts[i - 1].e == e then Some(acts[i - 1])
    else LastPut(acts, i - 1, e)
  }

  /** What is on the freelist was put there by `put_read`, or never put; what is in the queue, or on its way there or
      out of it, was put by `put_write`. */
  ghost predicate Origin(s: State, e: Elem, o: Option<Act>) {
    match LocOf(s, e)
    case Free(_) => o.None? || o.value.PutRead?
    case Queued(_) => o.Some? && o.value.PutWrite?
    case Hanging(_, _) => o.Some? && o.value.PutWrite?
    case Held => true
    case Moving(t) =>
      if PcOf(s, t).PushFree? then o == Some(PutRead(t, e))
      else if PcOf(s, t).Release? then o.Some? && o.value.PutWrite?
      else o == Some(PutWrite(t, e))
  }

  /** Linking or hanging moves what `put_write` has put, and leaves the rest where it was. */
  lemma AttachOrigin(s: State, t: Tid, w: Loc, s': State, e: Elem, o: Option<Act>)
    requires Inv(s) && PcOf(s, t).LinkNode? && e in s.all && Origin(s, e, o) && (w.Queued? || w.Hanging?)
    requires s'.loc == PutAll(s.loc, Chunk(PcOf(s, t)), w)
    requires forall u :: u != t ==> PcOf(s', u) == PcOf(s, u) || (PcOf(s, u).LinkNode? && PcOf(s', u).LinkNode?)
    ensures Origin(s', e, o)
  {
    var l := Chunk(PcOf(s, t));
    ChunkOk(s, t);
    if i :| 0 <= i < |l| && l[i].elem == e {
      GoesTo(s, t, w, i);
      assert LocOf(s, e) == if i == 0 then Moving(t) else Hanging(t, i - 1);
    } else {
      NotAmong(s, t, e);
      assert !Among(l, e);
      PutAllIs(s.loc, l, w);
      assert LocOf(s', e) == LocOf(s, e) && LocOf(s, e) != Moving(t);
    }
  }

  lemma TakenOrigin(s: State, t: Tid, e: Elem, o: Option<Act>)
    requires Inv(s) && !Moves(PcOf(s, t)) && e in s.all && Origin(s, e, o) && |s.queue| > 0
    ensures Origin(Dequeued(s, t), e, o)
  {
    assert ElemOk(s, e) && QueuedAt(s, 0);
  }

  lemma GivenOrigin(s: State, t: Tid, e: Elem, o: Option<Act>)
    requires Inv(s) && e in s.all && Origin(s, e, o) && (PcOf(s, t).WritePop? || PcOf(s, t).Release?)
    requires PcOf(s, t).WritePop? ==> |s.free| > 0
    ensures Origin(Step(s, Run(t)), e, o)
  {
    assert ElemOk(s, e) && ThreadOk(s, t) && FreeAt(s, |s.free| - 1);
    RunPcs(s, t);
  }

  lemma PutOrigin(s: State, t: Tid, e: Elem, o: Option<Act>)
    requires Inv(s) && e in s.all && Origin(s, e, o) && (PcOf(s, t).PushFree? || PcOf(s, t).PopNode?)
    ensures Origin(Step(s, Run(t)), e, o)
  {
    assert ElemOk(s, e) && ThreadOk(s, t);
    RunPcs(s, t);
    if PcOf(s, t).PopNode? { SpareNode(s, PcOf(s, t).e); }
  }

  lemma RunOrigin(s: State, t: Tid, e: Elem, o: Option<Act>)
    requires Inv(s) && Enabled(s, Run(t)) && e in s.all && Origin(s, e, o) && !PcOf(s, t).LinkNode?
    ensures Origin(Step(s, Run(t)), e, o)
  {
    var pc := PcOf(s, t);
    assert ElemOk(s, e);
    if pc.PushFree? || pc.PopNode? {
      PutOrigin(s, t, e, o);
    } else if pc.Release? || (pc.WritePop? && |s.free| > 0) {
      GivenOrigin(s, t, e, o);
    } else if !pc.WritePop? && |s.queue| > 0 {
      TakenOrigin(s, t, e, o);
    }
  }

  lemma OriginOn(s: State, a: Act, e: Elem, o: Option<Act>)
    requires Inv(s) && Enabled(s, a) && e in s.all && Origin(s, e, o)
    ensures Origin(Step(s, a), e, if Puts(a) && a.e == e then Some(a) else o)
  {
    assert ElemOk(s, e);
    match a
    case Hang(t, u) => AttachOrigin(s, t, Hanging(u, |PcOf(s, u).tail|), Step(s, a), e, o);
    case Run(t) =>
      if PcOf(s, t).LinkNode? {
        AttachOrigin(s, t, Queued(s.first + |s.queue|), Step(s, a), e, o);
      } else {
        RunOrigin(s, t, e, o);
      }
    case _ =>
  }

  /** In every state of every run: what is on the freelist was last put by `put_read`, or never; what is in the queue,
      or hangs, was last put by `put_write`.  So `get_read` hands out only what was put for reading. */
  lemma {:induction false} OriginIs(run: seq<State>, acts: seq<Act>, i: nat, e: Elem)
    requires IsRun(run, acts) && i < |run| && e in run[0].all
    ensures Origin(run[i], e, LastPut(acts, i, e))
  {
    if i == 0 {
      RunKeeps(run, acts, 0);
    } else {
      OriginIs(run, acts, i - 1, e);
      RunKeeps(run, acts, i - 1);
      assert MovesAt(run, acts, i - 1);
      OriginOn(run[i - 1], acts[i - 1], e, LastPut(acts, i - 1, e));
    }
  }

  // ----- calls that run alone

  /** The state after `n` steps of thread `t` alone. */
  ghost function Alone(s: State, t: Tid, n: nat): State
    decreases n
  {
    if n == 0 || !Enabled(s, Run(t)) then s else Alone(Step(s, Run(t)), t, n - 1)
  }

  /** Alone, `put_write` puts its element at the end of the queue. */
  lemma PutWriteAlone(s: State, t: Tid, e: Elem)
    requires Inv(s) && Enabled(s, PutWrite(t, e))
    ensures var s' := Alone(Step(s, PutWrite(t, e)), t, 2);
      PcOf(s', t).Idle? && Elems(s'.queue) == Elems(s.queue) + [e] && s'.free == s.free
  {
    var s0 := Step(s, PutWrite(t, e));
    StepKeeps(s, PutWrite(t, e));
    assert ThreadOk(s0, t);
    SpareNode(s0, e);
    var s1 := Step(s0, Run(t));
    var s2 := Step(s1, Run(t));
    assert s2 == NodeLinked(s1, t, Chunk(PcOf(s1, t)));
    assert Alone(s0, t, 2) == Alone(s1, t, 1) == Alone(s2, t, 0);
  }

  /** Alone, `get_read` hands out the first element of the queue; on an empty queue it answers null. */
  lemma GetReadAlone(s: State, t: Tid)
    requires Enabled(s, GetRead(t))
    ensures var s' := Alone(Step(s, GetRead(t)), t, 2);
      && PcOf(s', t).Idle? && s'.free == s.free
      && if s.queue == [] then s'.held == s.held && s'.queue == []
         else s'.held == s.held + {s.queue[0].elem} && s'.queue == s.queue[1..]
  {
    var s0 := Step(s, GetRead(t));
    var s1 := Step(s0, Run(t));
    assert Alone(s0, t, 2) == Alone(s1, t, 1);
    if s.queue != [] {
      var s2 := Step(s1, Run(t));
      assert s2 == Released(s1, t, s.queue[0].elem, s.dummy);
      assert Alone(s1, t, 1) == Alone(s2, t, 0);
    }
  }

  /** Alone, `put_read` puts its element on top of the freelist. */
  lemma PutReadAlone(s: State, t: Tid, e: Elem)
    requires Enabled(s, PutRead(t, e))
    ensures var s' := Alone(Step(s, PutRead(t, e)), t, 1);
      PcOf(s', t).Idle? && s'.free == s.free + [e] && s'.queue == s.queue
  {
    var s0 := Step(s, PutRead(t, e));
    assert Alone(s0, t, 1) == Alone(Step(s0, Run(t)), t, 0);
  }

  /** Alone, `get_write` hands out the top of the freelist, or the first of the queue if the freelist is empty. */
  lemma GetWriteAlone(s: State, t: Tid)
    requires Enabled(s, GetWrite(t)) && (s.free != [] || s.queue != [])
    ensures var s' := Alone(Step(s, GetWrite(t)), t, 3);
      && PcOf(s', t).Idle?
      && if s.free != [] then s'.held == s.held + {s.free[|s.free| - 1]} && s'.queue == s.queue
         else s'.held == s.held + {s.queue[0].elem} && s'.queue == s.queue[1..]
  {
    var s0 := Step(s, GetWrite(t));
    var s1 := Step(s0, Run(t));
    assert Alone(s0, t, 3) == Alone(s1, t, 2);
    if s.free == [] {
      var s2 := Step(s1, Run(t));
      var s3 := Step(s2, Run(t));
      assert s3 == Released(s2, t, s.queue[0].elem, s.dummy);
      assert Alone(s1, t, 2) == Alone(s2, t, 1) == Alone(s3, t, 0);
    }
  }
}
