/** The Michael-Scott queue of basic/lf_queue.c as a state machine over its shared-memory accesses.

    A node's `next` field and the queue's `enqueue` and `dequeue` fields are (pointer, counter) pairs.
    Each pair is READ with two separate loads and only WRITTEN whole by a double-word compare-and-swap,
    except that a recycled node's `next` is reset by two separate stores.  Every load, store, DCAS and
    counter increment is one step, and steps of any number of threads interleave freely. */
module LockFreeQueue {
  import opened Prelude

  type Node = nat
  type Data = int
  type Tid = nat

  /** `counter + 1` in the source is pointer arithmetic on `struct queue_element *`. */
  const STRIDE: nat := 32

  datatype Pair = Pair(ptr: Node, ctr: nat)
  datatype Cell = Cell(next: Option<Node>, ctr: nat, data: Data)

  /** The element an enqueue carries: the node it took from the free list and the caller's data. */
  datatype Elem = Elem(node: Node, data: Data)

  /** Program counters, named after the line about to execute, with the live local variables. */
  datatype Pc =
    | Idle
    | Fault
    | Pop238(data: Data)
    | Inc260(e: Elem)
    | Clear261(e: Elem)
    | Inc262(e: Elem)
    | Store262(e: Elem, k: nat)
    | Store264(e: Elem)
    | E66(e: Elem)
    | E67(e: Elem, p: Node)
    | E68(e: Elem, p: Node, c: nat)
    | E69(e: Elem, p: Node, c: nat, np: Option<Node>)
    | E71p(e: Elem, p: Node, c: nat, np: Option<Node>, nc: nat)
    | E71c(e: Elem, p: Node, c: nat, np: Option<Node>, nc: nat)
    | E74(e: Elem, p: Node, c: nat, nc: nat)
    | E78(e: Elem, p: Node, c: nat, n: Node)
    | E83(e: Elem, p: Node, c: nat)
    | D95
    | D96(p: Node)
    | D97(p: Node, c: nat)
    | D98(p: Node, c: nat, ep: Node)
    | D99(p: Node, c: nat, ep: Node, ec: nat)
    | D102p(p: Node, c: nat, ep: Node, ec: nat, np: Option<Node>)
    | D102c(p: Node, c: nat, ep: Node, ec: nat, np: Option<Node>)
    | D117(ep: Node, ec: nat, n: Node)
    | D120(p: Node, c: nat, np: Option<Node>)
    | D122(p: Node, c: nat, n: Node, x: Data)
    | D130(p: Node)

  /** Shared state, one program counter per thread, and two history variables: the data of the enqueues
      whose linking DCAS (line 74) succeeded and of the dequeues whose DCAS (line 122) succeeded. */
  datatype State = State(
    enq: Pair, deq: Pair, mem: map<Node, Cell>, aba: nat, free: set<Node>,
    pcs: map<Tid, Pc>, enqLog: seq<Data>, deqLog: seq<Data>)

  /** What a thread with a choice does next; every other program counter has exactly one continuation. */
  datatype Choice =
    | StartEnqueue(data: Data)
    | StartDequeue
    | TakeFree(node: Node)
    | TakeNew(node: Node, junk: Cell)
    | TakeNone
    | Go

  function At(m: map<Node, Cell>, n: Node): Cell {
    if n in m then m[n] else Cell(None, 0, 0)
  }

  function PcOf(s: State, t: Tid): Pc {
    if t in s.pcs then s.pcs[t] else Idle
  }

  function Goto(s: State, t: Tid, pc: Pc): State {
    s.(pcs := s.pcs[t := pc])
  }

  function Write(s: State, t: Tid, n: Node, cell: Cell, pc: Pc): State {
    s.(mem := s.mem[n := cell], pcs := s.pcs[t := pc])
  }

  /** A successful DCAS on `enqueue`: the counter it expected is the current one. */
  function Swing(s: State, t: Tid, n: Node, pc: Pc): State {
    s.(enq := Pair(n, s.enq.ctr + STRIDE), pcs := s.pcs[t := pc])
  }

  /** A successful DCAS on `dequeue`. */
  function Take(s: State, t: Tid, n: Node, x: Data): State {
    s.(deq := Pair(n, s.deq.ctr + STRIDE), deqLog := s.deqLog + [x], pcs := s.pcs[t := D130(s.deq.ptr)])
  }

  predicate Enabled(s: State, t: Tid, ch: Choice) {
    match PcOf(s, t)
    case Idle => ch.StartEnqueue? || ch.StartDequeue?
    case Pop238(_) =>
      || (ch.TakeFree? && ch.node in s.free)
      || (ch.TakeNew? && ch.node !in s.mem)
      || (ch.TakeNone? && s.free == {})
    case Fault => false
    case _ => ch.Go?
  }

  /** lf_queue.c:109-126: what line 102 leads to once the dequeue pair was found unchanged. */
  function Verdict102(p: Node, c: nat, ep: Node, ec: nat, np: Option<Node>): Pc {
    if ep != p then D120(p, c, np)
    else match np
      case None => Idle
      case Some(n) => D117(ep, ec, n)
  }

  function Advance(s: State, t: Tid, ch: Choice): State
    requires Enabled(s, t, ch)
  {
    match PcOf(s, t)
    case Idle => Goto(s, t, if ch.StartEnqueue? then Pop238(ch.data) else D95)
    case Fault => s
    case Pop238(d) =>
      if ch.TakeFree? then Goto(s, t, Inc260(Elem(ch.node, d))).(free := s.free - {ch.node})
      else if ch.TakeNew? then Write(s, t, ch.node, ch.junk, Inc260(Elem(ch.node, d)))
      else Goto(s, t, Idle)
    case Inc260(e) => Goto(s, t, Clear261(e)).(aba := s.aba + 1)
    case Clear261(e) => Write(s, t, e.node, At(s.mem, e.node).(next := None), Inc262(e))
    case Inc262(e) => Goto(s, t, Store262(e, s.aba + 1)).(aba := s.aba + 1)
    case Store262(e, k) => Write(s, t, e.node, At(s.mem, e.node).(ctr := k), Store264(e))
    case Store264(e) => Write(s, t, e.node, At(s.mem, e.node).(data := e.data), E66(e))
    case E66(e) => Goto(s, t, E67(e, s.enq.ptr))
    case E67(e, p) => Goto(s, t, E68(e, p, s.enq.ctr))
    case E68(e, p, c) => Goto(s, t, E69(e, p, c, At(s.mem, p).next))
    case E69(e, p, c, np) => Goto(s, t, E71p(e, p, c, np, At(s.mem, p).ctr))
    case E71p(e, p, c, np, nc) => Goto(s, t, if s.enq.ptr == p then E71c(e, p, c, np, nc) else E66(e))
    case E71c(e, p, c, np, nc) =>
      Goto(s, t, if s.enq.ctr != c then E66(e) else if np.None? then E74(e, p, c, nc) else E78(e, p, c, np.value))
    case E74(e, p, c, nc) =>
      if At(s.mem, p).next.None? && At(s.mem, p).ctr == nc
      then Write(s, t, p, At(s.mem, p).(next := Some(e.node), ctr := nc + STRIDE),
        E83(e, p, c)).(enqLog := s.enqLog + [e.data])
      else Goto(s, t, E66(e))
    case E78(e, p, c, n) =>
      if s.enq == Pair(p, c) then Swing(s, t, n, E66(e)) else Goto(s, t, E66(e))
    case E83(e, p, c) =>
      if s.enq == Pair(p, c) then Swing(s, t, e.node, Idle) else Goto(s, t, Idle)
    case D95 => Goto(s, t, D96(s.deq.ptr))
    case D96(p) => Goto(s, t, D97(p, s.deq.ctr))
    case D97(p, c) => Goto(s, t, D98(p, c, s.enq.ptr))
    case D98(p, c, ep) => Goto(s, t, D99(p, c, ep, s.enq.ctr))
    case D99(p, c, ep, ec) => Goto(s, t, D102p(p, c, ep, ec, At(s.mem, p).next))
    case D102p(p, c, ep, ec, np) => Goto(s, t, if s.deq.ptr == p then D102c(p, c, ep, ec, np) else D95)
    case D102c(p, c, ep, ec, np) => Goto(s, t, if s.deq.ctr == c then Verdict102(p, c, ep, ec, np) else D95)
    case D117(ep, ec, n) =>
      if s.enq == Pair(ep, ec) then Swing(s, t, n, D95) else Goto(s, t, D95)
    case D120(p, c, np) =>
      match np { case None => Goto(s, t, Fault) case Some(n) => Goto(s, t, D122(p, c, n, At(s.mem, n).data)) }
    case D122(p, c, n, x) =>
      if s.deq == Pair(p, c)
      then Take(s, t, n, x)
      else Goto(s, t, D95)
    case D130(p) => Goto(s, t, Idle).(free := s.free + {p})
  }

  // ----- the invariant

  /** The node a thread holds exclusively: neither linked in the queue nor on the free list. */
  function Held(pc: Pc): Option<Node> {
    match pc
    case Inc260(e) => Some(e.node)
    case Clear261(e) => Some(e.node)
    case Inc262(e) => Some(e.node)
    case Store262(e, _) => Some(e.node)
    case Store264(e) => Some(e.node)
    case E66(e) => Some(e.node)
    case E67(e, _) => Some(e.node)
    case E68(e, _, _) => Some(e.node)
    case E69(e, _, _, _) => Some(e.node)
    case E71p(e, _, _, _, _) => Some(e.node)
    case E71c(e, _, _, _, _) => Some(e.node)
    case E74(e, _, _, _) => Some(e.node)
    case E78(e, _, _, _) => Some(e.node)
    case D130(p) => Some(p)
    case _ => None
  }

  predicate Linking(pc: Pc) {
    pc.E66? || pc.E67? || pc.E68? || pc.E69? || pc.E71p? || pc.E71c? || pc.E74? || pc.E78?
  }

  /** `q` is the queue in memory: the dummy first, each node's `next` the following one. */
  ghost predicate Chain(s: State, q: seq<Node>) {
    && |q| > 0 && NoDup(q)
    && (forall i :: 0 <= i < |q| ==> q[i] in s.mem)
    && (forall i :: 0 <= i < |q| - 1 ==> At(s.mem, q[i]).next == Some(q[i + 1]))
    && At(s.mem, q[|q| - 1]).next == None
    && q[0] == s.deq.ptr
  }

  /** The dequeued data are the oldest enqueued data, in order, and the rest is what the queue holds. */
  ghost predicate Fifo(s: State, q: seq<Node>) {
    && |q| > 0
    && |s.enqLog| == |s.deqLog| + |q| - 1
    && (forall i :: 0 <= i < |s.deqLog| ==> s.deqLog[i] == s.enqLog[i])
    && (forall i :: 1 <= i < |q| ==> At(s.mem, q[i]).data == s.enqLog[|s.deqLog| + i - 1])
  }

  /** A counter read together with a null pointer is still ahead of, or equal to, nothing newer. */
  ghost predicate Expecting(s: State, q: seq<Node>, p: Node, nc: nat) {
    && nc <= s.aba
    && nc <= At(s.mem, p).ctr
    && (At(s.mem, p).ctr == nc ==> p in q && At(s.mem, p).next.None?)
  }

  ghost predicate LinkLocals(s: State, q: seq<Node>, p: Node, c: nat, np: Option<Node>, nc: nat) {
    s.enq == Pair(p, c) ==> if np.Some? then At(s.mem, p).next == np else Expecting(s, q, p, nc)
  }

  ghost predicate TakeLocals(s: State, p: Node, c: nat, ep: Node, np: Option<Node>) {
    s.deq == Pair(p, c) ==>
      && (np.Some? ==> At(s.mem, p).next == np)
      && (ep != p ==> np.Some? && s.enq.ptr != p)
  }

  ghost predicate ThreadOk(s: State, q: seq<Node>, pc: Pc) {
    match pc
    case Fault => false
    case Store262(_, k) => k <= s.aba
    case E68(_, p, c) => c <= s.enq.ctr
    case E69(_, p, c, np) => c <= s.enq.ctr && (s.enq == Pair(p, c) && np.Some? ==> At(s.mem, p).next == np)
    case E71p(_, p, c, np, nc) => c <= s.enq.ctr && LinkLocals(s, q, p, c, np, nc)
    case E71c(_, p, c, np, nc) =>
      c <= s.enq.ctr && LinkLocals(s, q, p, c, np, nc) && (s.enq.ctr == c ==> s.enq.ptr == p)
    case E74(_, p, c, nc) => c <= s.enq.ctr && Expecting(s, q, p, nc)
    case E78(_, p, c, n) => c <= s.enq.ctr && (s.enq == Pair(p, c) ==> At(s.mem, p).next == Some(n))
    case E83(e, p, c) => c <= s.enq.ctr && (s.enq == Pair(p, c) ==> At(s.mem, p).next == Some(e.node))
    case D97(p, c) => c <= s.deq.ctr
    case D98(p, c, ep) => c <= s.deq.ctr && (s.deq == Pair(p, c) && ep != p ==> s.enq.ptr != p)
    case D99(p, c, ep, ec) =>
      c <= s.deq.ctr && ec <= s.enq.ctr && (s.deq == Pair(p, c) && ep != p ==> s.enq.ptr != p)
    case D102p(p, c, ep, ec, np) => c <= s.deq.ctr && ec <= s.enq.ctr && TakeLocals(s, p, c, ep, np)
    case D102c(p, c, ep, ec, np) =>
      c <= s.deq.ctr && ec <= s.enq.ctr && TakeLocals(s, p, c, ep, np) && (s.deq.ctr == c ==> s.deq.ptr == p)
    case D117(ep, ec, n) => ec <= s.enq.ctr && (s.enq == Pair(ep, ec) ==> At(s.mem, ep).next == Some(n))
    case D120(p, c, np) =>
      np.Some? && c <= s.deq.ctr && TakeLocals(s, p, c, p, np) && (s.deq == Pair(p, c) ==> s.enq.ptr != p)
    case D122(p, c, n, x) =>
      c <= s.deq.ctr &&
      (s.deq == Pair(p, c) ==> At(s.mem, p).next == Some(n) && s.enq.ptr != p && x == At(s.mem, n).data)
    case _ => true
  }

  /** Facts about the node a thread holds. */
  ghost predicate HeldOk(s: State, q: seq<Node>, pc: Pc) {
    Held(pc).Some? ==>
      var n := Held(pc).value;
      && n in s.mem && n !in q && n !in s.free
      && (Linking(pc) ==> At(s.mem, n).next.None? && At(s.mem, n).ctr <= s.aba && At(s.mem, n).data == pc.e.data)
      && (pc.Inc262? || pc.Store262? || pc.Store264? ==> At(s.mem, n).next.None?)
      && (pc.Store264? ==> At(s.mem, n).ctr <= s.aba)
  }

  /** Two threads hold different nodes, and a counter about to be stored in a node is newer than
      every counter another thread still expects there. */
  ghost predicate Compatible(a: Pc, b: Pc) {
    && (Held(a).Some? && Held(b).Some? ==> Held(a) != Held(b))
    && (a.Store262? && b.E74? && b.p == a.e.node ==> b.nc < a.k)
  }

  ghost predicate Ok(s: State, q: seq<Node>, t: Tid) {
    ThreadOk(s, q, PcOf(s, t)) && HeldOk(s, q, PcOf(s, t))
  }

  ghost predicate Apart(s: State, t: Tid, u: Tid) {
    t != u ==> Compatible(PcOf(s, t), PcOf(s, u))
  }

  ghost predicate Shape(s: State, q: seq<Node>) {
    && Chain(s, q)
    && s.enq.ptr in q
    && At(s.mem, q[|q| - 1]).ctr <= s.aba
    && (forall n :: n in s.free ==> n in s.mem && n !in q)
    && Fifo(s, q)
  }

  ghost predicate Good(s: State, q: seq<Node>) {
    && Shape(s, q)
    && (forall t :: Ok(s, q, t))
    && (forall t, u :: Apart(s, t, u))
  }

  /** A `next` pair read in two halves, with another thread's link in between, while still current. */
  ghost predicate Torn(s: State, t: Tid) {
    var pc := PcOf(s, t);
    pc.E69? && pc.np.None? && s.enq == Pair(pc.p, pc.c) && At(s.mem, pc.p).next.Some?
  }

  // ----- every step keeps the invariant

  /** How a step changes the queue in memory: line 74 appends, line 122 drops the dummy. */
  function NextChain(s: State, t: Tid, q: seq<Node>): seq<Node> {
    match PcOf(s, t)
    case E74(e, p, c, nc) => if At(s.mem, p).next.None? && At(s.mem, p).ctr == nc then q + [e.node] else q
    case D122(p, c, n, x) => if s.deq == Pair(p, c) && |q| > 0 then q[1..] else q
    case _ => q
  }

  /** A thread that does not move keeps its facts when the shared pairs and the nodes stay as they are. */
  lemma OkStays(s: State, s': State, q: seq<Node>, u: Tid)
    requires Ok(s, q, u) && PcOf(s', u) == PcOf(s, u)
    requires s'.enq == s.enq && s'.deq == s.deq && s'.mem == s.mem && s'.aba >= s.aba
    requires Held(PcOf(s, u)).Some? ==> Held(PcOf(s, u)).value !in s'.free
    ensures Ok(s', q, u)
  {
  }

  /** Steps that only change the thread's own locals. */
  lemma LocalStep(s: State, q: seq<Node>, t: Tid, pc: Pc)
    requires Good(s, q)
    requires ThreadOk(s, q, pc) && HeldOk(s, q, pc)
    requires Held(pc) == None || Held(pc) == Held(PcOf(s, t))
    requires !pc.Store262?
    requires pc.E74? ==> pc.p in q
    ensures Good(Goto(s, t, pc), q)
  {
    var s' := Goto(s, t, pc);
    assert Ok(s', q, t);
    forall u ensures Ok(s', q, u) {
      if u != t { assert Ok(s, q, u); OkStays(s, s', q, u); }
    }
    forall u, v ensures Apart(s', u, v) {
      assert Apart(s, u, v);
      assert HeldOk(s, q, PcOf(s, u)) by { assert Ok(s, q, u); }
    }
  }

  /** Steps 260 and 262 issue a new counter. */
  lemma IssueStep(s: State, q: seq<Node>, t: Tid, pc: Pc)
    requires Good(s, q) && Held(PcOf(s, t)).Some? && (PcOf(s, t).Inc260? || PcOf(s, t).Inc262?)
    requires pc == Clear261(PcOf(s, t).e) || (PcOf(s, t).Inc262? && pc == Store262(PcOf(s, t).e, s.aba + 1))
    ensures Good(Goto(s, t, pc).(aba := s.aba + 1), q)
  {
    var s' := Goto(s, t, pc).(aba := s.aba + 1);
    assert Ok(s', q, t) by { assert Ok(s, q, t); }
    forall u ensures Ok(s', q, u) {
      if u != t { assert Ok(s, q, u); OkStays(s, s', q, u); }
    }
    forall u, v ensures Apart(s', u, v) {
      assert Apart(s, u, v);
      assert ThreadOk(s, q, PcOf(s, v)) by { assert Ok(s, q, v); }
    }
  }

  /** A node of the queue whose `next` is null is the last one; otherwise its successor is in the queue too. */
  lemma NullIsLast(s: State, q: seq<Node>, p: Node)
    requires Chain(s, q) && p in q
    ensures At(s.mem, p).next.None? <==> p == q[|q| - 1]
    ensures At(s.mem, p).next.Some? ==> At(s.mem, p).next.value in q && At(s.mem, p).next.value != q[0]
  {
    var i :| 0 <= i < |q| && q[i] == p;
    if i < |q| - 1 { assert At(s.mem, q[i]).next == Some(q[i + 1]); }
  }

  /** The queue in memory does not notice a write to a node outside it. */
  lemma ChainFrame(s: State, s': State, q: seq<Node>)
    requires Chain(s, q) && Fifo(s, q) && s'.deq == s.deq && s'.enqLog == s.enqLog && s'.deqLog == s.deqLog
    requires forall n :: n in q ==> n in s'.mem && At(s'.mem, n) == At(s.mem, n)
    ensures Chain(s', q) && Fifo(s', q)
  {
    assert forall i :: 0 <= i < |q| ==> q[i] in q;
  }

  /** Steps 261, 262 and 264 write the node the thread holds. */
  lemma WriteOther(s: State, q: seq<Node>, t: Tid, n: Node, cell: Cell, pc: Pc, u: Tid)
    requires Good(s, q) && Held(PcOf(s, t)) == Some(n) && u != t
    requires cell.ctr == At(s.mem, n).ctr || (PcOf(s, t).Store262? && cell.ctr == PcOf(s, t).k)
    requires cell.ctr == At(s.mem, n).ctr ==> At(s.mem, n).next.None? ==> cell.next.None?
    ensures Ok(Write(s, t, n, cell, pc), q, u)
  {
    assert Ok(s, q, t) && Ok(s, q, u) && Apart(s, t, u);
    assert PcOf(Write(s, t, n, cell, pc), u) == PcOf(s, u);
    WriteHeld(s, q, t, n, cell, pc, PcOf(s, u));
    WriteThread(s, q, t, n, cell, pc, PcOf(s, u));
  }

  lemma WriteHeld(s: State, q: seq<Node>, t: Tid, n: Node, cell: Cell, pc: Pc, other: Pc)
    requires HeldOk(s, q, other) && Held(other) != Some(n)
    ensures HeldOk(Write(s, t, n, cell, pc), q, other)
  {
  }

  lemma WriteThread(s: State, q: seq<Node>, t: Tid, n: Node, cell: Cell, pc: Pc, other: Pc)
    requires Shape(s, q) && n in s.mem && n !in q && ThreadOk(s, q, other)
    requires other.E74? && other.p == n ==>
      cell.ctr == At(s.mem, n).ctr || other.nc < cell.ctr
    requires cell.ctr == At(s.mem, n).ctr ==> At(s.mem, n).next.None? ==> cell.next.None?
    ensures ThreadOk(Write(s, t, n, cell, pc), q, other)
  {
    NullIsLast(s, q, s.deq.ptr);
    NullIsLast(s, q, s.enq.ptr);
  }

  lemma WriteStep(s: State, q: seq<Node>, t: Tid, n: Node, cell: Cell, pc: Pc)
    requires Good(s, q) && Held(PcOf(s, t)) == Some(n) == Held(pc)
    requires cell.ctr == At(s.mem, n).ctr || (PcOf(s, t).Store262? && cell.ctr == PcOf(s, t).k)
    requires cell.ctr == At(s.mem, n).ctr ==> At(s.mem, n).next.None? ==> cell.next.None?
    requires !pc.Store262? && !pc.E74?
    requires ThreadOk(Write(s, t, n, cell, pc), q, pc) && HeldOk(Write(s, t, n, cell, pc), q, pc)
    ensures Good(Write(s, t, n, cell, pc), q)
  {
    var s' := Write(s, t, n, cell, pc);
    assert Ok(s, q, t);
    ChainFrame(s, s', q);
    forall u ensures Ok(s', q, u) {
      if u != t { WriteOther(s, q, t, n, cell, pc, u); }
    }
    forall u, v ensures Apart(s', u, v) {
      assert Apart(s, u, v);
    }
  }

  lemma PopFree(s: State, q: seq<Node>, t: Tid, e: Elem)
    requires Good(s, q) && PcOf(s, t).Pop238? && e.node in s.free
    ensures Good(Goto(s, t, Inc260(e)).(free := s.free - {e.node}), q)
  {
    var s' := Goto(s, t, Inc260(e)).(free := s.free - {e.node});
    assert Ok(s', q, t);
    forall u ensures Ok(s', q, u) {
      if u != t { assert Ok(s, q, u); OkStays(s, s', q, u); }
    }
    forall u, v ensures Apart(s', u, v) {
      assert Apart(s, u, v);
      assert HeldOk(s, q, PcOf(s, u)) && HeldOk(s, q, PcOf(s, v)) by { assert Ok(s, q, u) && Ok(s, q, v); }
    }
  }

  lemma PopNewOther(s: State, q: seq<Node>, t: Tid, e: Elem, junk: Cell, u: Tid)
    requires Good(s, q) && e.node !in s.mem && u != t
    ensures Ok(Write(s, t, e.node, junk, Inc260(e)), q, u)
  {
    assert Ok(s, q, u);
    NullIsLast(s, q, s.deq.ptr);
  }

  lemma PopNew(s: State, q: seq<Node>, t: Tid, e: Elem, junk: Cell)
    requires Good(s, q) && PcOf(s, t).Pop238? && e.node !in s.mem
    ensures Good(Write(s, t, e.node, junk, Inc260(e)), q)
  {
    var s' := Write(s, t, e.node, junk, Inc260(e));
    ChainFrame(s, s', q);
    assert Ok(s', q, t);
    forall u ensures Ok(s', q, u) {
      if u != t { PopNewOther(s, q, t, e, junk, u); }
    }
    forall u, v ensures Apart(s', u, v) {
      assert Apart(s, u, v);
      assert HeldOk(s, q, PcOf(s, u)) && HeldOk(s, q, PcOf(s, v)) by { assert Ok(s, q, u) && Ok(s, q, v); }
    }
  }

  /** Step 130 returns the retired dummy to the free list. */
  lemma PushStep(s: State, q: seq<Node>, t: Tid, p: Node)
    requires Good(s, q) && PcOf(s, t) == D130(p)
    ensures Good(Goto(s, t, Idle).(free := s.free + {p}), q)
  {
    var s' := Goto(s, t, Idle).(free := s.free + {p});
    assert HeldOk(s, q, PcOf(s, t)) by { assert Ok(s, q, t); }
    forall u ensures Ok(s', q, u) {
      if u != t { assert Ok(s, q, u) && Apart(s, t, u); OkStays(s, s', q, u); }
    }
    forall u, v ensures Apart(s', u, v) {
      assert Apart(s, u, v);
    }
  }

  predicate CanLink(s: State, e: Elem, p: Node, nc: nat) {
    At(s.mem, p).next.None? && At(s.mem, p).ctr == nc
  }

  function Link(s: State, t: Tid, e: Elem, p: Node, c: nat, nc: nat): State {
    Write(s, t, p, At(s.mem, p).(next := Some(e.node), ctr := nc + STRIDE),
      E83(e, p, c)).(enqLog := s.enqLog + [e.data])
  }

  lemma LinkChain(s: State, q: seq<Node>, t: Tid, e: Elem, p: Node, c: nat, nc: nat)
    requires Chain(s, q) && Fifo(s, q) && p == q[|q| - 1] && e.node in s.mem && e.node !in q
    requires At(s.mem, e.node).next.None? && At(s.mem, e.node).data == e.data
    ensures Chain(Link(s, t, e, p, c, nc), q + [e.node])
    ensures Fifo(Link(s, t, e, p, c, nc), q + [e.node])
  {
    var s' := Link(s, t, e, p, c, nc);
    var q' := q + [e.node];
    forall i | 0 <= i < |q'| - 1 ensures At(s'.mem, q'[i]).next == Some(q'[i + 1]) {
      if i < |q| - 1 { assert q[i] != q[|q| - 1]; }
    }
  }

  lemma LinkOther(s: State, q: seq<Node>, t: Tid, e: Elem, p: Node, c: nat, nc: nat, u: Tid)
    requires Good(s, q) && PcOf(s, t) == E74(e, p, c, nc) && CanLink(s, e, p, nc) && p == q[|q| - 1] && u != t
    ensures Ok(Link(s, t, e, p, c, nc), q + [e.node], u)
  {
    assert Ok(s, q, t) && Ok(s, q, u) && Apart(s, t, u);
  }

  /** Step 74: a successful DCAS appends the thread's node at the end of the queue. */
  lemma LinkStep(s: State, q: seq<Node>, t: Tid, e: Elem, p: Node, c: nat, nc: nat)
    requires Good(s, q) && PcOf(s, t) == E74(e, p, c, nc) && CanLink(s, e, p, nc)
    ensures p == q[|q| - 1]
    ensures Good(Link(s, t, e, p, c, nc), q + [e.node])
  {
    var s' := Link(s, t, e, p, c, nc);
    var q' := q + [e.node];
    assert Ok(s, q, t);
    NullIsLast(s, q, p);
    LinkChain(s, q, t, e, p, c, nc);
    forall u ensures Ok(s', q', u) {
      if u != t { LinkOther(s, q, t, e, p, c, nc, u); }
    }
    forall u, v ensures Apart(s', u, v) {
      assert Apart(s, u, v);
    }
  }

  /** Steps 78, 83 and 117: the enqueue pointer moves to its node's successor. */
  lemma SwingStep(s: State, q: seq<Node>, t: Tid, n: Node, pc: Pc)
    requires Good(s, q)
    requires At(s.mem, s.enq.ptr).next == Some(n)
    requires pc.Idle? || pc.D95? || (pc.E66? && Linking(PcOf(s, t)) && PcOf(s, t).e == pc.e)
    ensures Good(Swing(s, t, n, pc), q)
  {
    var s' := Swing(s, t, n, pc);
    NullIsLast(s, q, s.enq.ptr);
    ChainFrame(s, s', q);
    forall u ensures Ok(s', q, u) { SwingOk(s, q, t, n, pc, u); }
    forall u, v ensures Apart(s', u, v) {
      assert Apart(s, u, v);
    }
  }

  lemma SwingOk(s: State, q: seq<Node>, t: Tid, n: Node, pc: Pc, u: Tid)
    requires Good(s, q)
    requires At(s.mem, s.enq.ptr).next == Some(n)
    requires pc.Idle? || pc.D95? || (pc.E66? && Linking(PcOf(s, t)) && PcOf(s, t).e == pc.e)
    ensures Ok(Swing(s, t, n, pc), q, u)
  {
    NullIsLast(s, q, s.enq.ptr);
    assert Ok(s, q, t) && Ok(s, q, u);
  }

  lemma TakeChain(s: State, q: seq<Node>, t: Tid, n: Node)
    requires Chain(s, q) && Fifo(s, q) && At(s.mem, s.deq.ptr).next == Some(n)
    ensures |q| > 1 && n == q[1]
    ensures Chain(Take(s, t, n, At(s.mem, n).data), q[1..])
    ensures Fifo(Take(s, t, n, At(s.mem, n).data), q[1..])
  {
    var q' := q[1..];
    assert At(s.mem, q[0]).next == Some(n);
    assert forall i :: 0 <= i < |q'| ==> q'[i] == q[i + 1];
    assert forall i :: 0 <= i < |q'| - 1 ==> At(s.mem, q'[i]).next == Some(q'[i + 1]);
  }

  lemma TakeMembers(q: seq<Node>)
    requires |q| > 1 && NoDup(q)
    ensures forall m :: m in q <==> m == q[0] || m in q[1..]
    ensures q[0] !in q[1..]
  {
    assert q == [q[0]] + q[1..];
  }

  lemma TakeOther(s: State, q: seq<Node>, t: Tid, n: Node, x: Data, u: Tid)
    requires Good(s, q) && u != t
    requires At(s.mem, s.deq.ptr).next == Some(n) && q[0] == s.deq.ptr
    requires forall m :: m in q <==> m == q[0] || m in q[1..]
    ensures Ok(Take(s, t, n, x), q[1..], u)
  {
    assert Ok(s, q, u);
  }

  lemma TakeApart(s: State, q: seq<Node>, t: Tid, n: Node, x: Data, u: Tid, v: Tid)
    requires Good(s, q) && PcOf(s, t).D122?
    ensures Apart(Take(s, t, n, x), u, v)
  {
    assert Apart(s, u, v);
    assert HeldOk(s, q, PcOf(s, u)) by { assert Ok(s, q, u); }
    assert HeldOk(s, q, PcOf(s, v)) by { assert Ok(s, q, v); }
  }

  lemma TakeSelf(s: State, q: seq<Node>, t: Tid, p: Node, c: nat, n: Node, x: Data)
    requires Good(s, q) && PcOf(s, t) == D122(p, c, n, x) && s.deq == Pair(p, c)
    ensures At(s.mem, p).next == Some(n) && s.enq.ptr != p && x == At(s.mem, n).data
    ensures p == q[0] && p in s.mem && p !in s.free
  {
    assert ThreadOk(s, q, PcOf(s, t)) by { assert Ok(s, q, t); }
  }

  lemma TakeShape(s: State, q: seq<Node>, t: Tid, n: Node)
    requires Shape(s, q) && At(s.mem, s.deq.ptr).next == Some(n) && s.enq.ptr != s.deq.ptr
    ensures |q| > 1 && n == q[1] && s.deq.ptr !in q[1..]
    ensures forall m :: m in q <==> m == q[0] || m in q[1..]
    ensures Shape(Take(s, t, n, At(s.mem, n).data), q[1..])
  {
    TakeChain(s, q, t, n);
    TakeMembers(q);
  }

  /** Step 122: a successful DCAS retires the dummy and yields the data of the first element. */
  lemma TakeStep(s: State, q: seq<Node>, t: Tid, p: Node, c: nat, n: Node, x: Data)
    requires Good(s, q) && PcOf(s, t) == D122(p, c, n, x) && s.deq == Pair(p, c)
    ensures |q| > 1 && n == q[1] && x == At(s.mem, q[1]).data
    ensures Good(Take(s, t, n, x), q[1..])
  {
    var s', q' := Take(s, t, n, x), q[1..];
    TakeSelf(s, q, t, p, c, n, x);
    TakeShape(s, q, t, n);
    assert Ok(s', q', t);
    forall u ensures Ok(s', q', u) {
      if u != t { TakeOther(s, q, t, n, x, u); }
    }
    forall u, v ensures Apart(s', u, v) {
      TakeApart(s, q, t, n, x, u, v);
    }
  }

  lemma EnqueueReadKeeps(s: State, q: seq<Node>, t: Tid)
    requires Good(s, q) && !Torn(s, t)
    requires var pc := PcOf(s, t); pc.E66? || pc.E67? || pc.E68? || pc.E69?
    ensures Good(Advance(s, t, Go), q)
  {
    assert Ok(s, q, t);
    match PcOf(s, t)
    case E66(e) => LocalStep(s, q, t, E67(e, s.enq.ptr));
    case E67(e, p) => LocalStep(s, q, t, E68(e, p, s.enq.ctr));
    case E68(e, p, c) => LocalStep(s, q, t, E69(e, p, c, At(s.mem, p).next));
    case E69(e, p, c, np) =>
      NullIsLast(s, q, s.enq.ptr);
      LocalStep(s, q, t, E71p(e, p, c, np, At(s.mem, p).ctr));
  }

  lemma EnqueueCheckKeeps(s: State, q: seq<Node>, t: Tid)
    requires Good(s, q)
    requires var pc := PcOf(s, t); pc.E71p? || pc.E71c?
    ensures Good(Advance(s, t, Go), q)
  {
    assert Ok(s, q, t);
    match PcOf(s, t)
    case E71p(e, p, c, np, nc) =>
      LocalStep(s, q, t, if s.enq.ptr == p then E71c(e, p, c, np, nc) else E66(e));
    case E71c(e, p, c, np, nc) =>
      LocalStep(s, q, t, if s.enq.ctr != c then E66(e) else if np.None? then E74(e, p, c, nc)
                         else E78(e, p, c, np.value));
  }

  lemma Swap74Is(s: State, q: seq<Node>, t: Tid)
    requires PcOf(s, t).E74?
    ensures var pc := PcOf(s, t);
      if CanLink(s, pc.e, pc.p, pc.nc)
      then Advance(s, t, Go) == Link(s, t, pc.e, pc.p, pc.c, pc.nc) && NextChain(s, t, q) == q + [pc.e.node]
      else Advance(s, t, Go) == Goto(s, t, E66(pc.e)) && NextChain(s, t, q) == q
  {
  }

  lemma Swap74Keeps(s: State, q: seq<Node>, t: Tid)
    requires Good(s, q) && PcOf(s, t).E74?
    ensures Good(Advance(s, t, Go), NextChain(s, t, q))
  {
    var pc := PcOf(s, t);
    assert Ok(s, q, t);
    Swap74Is(s, q, t);
    if CanLink(s, pc.e, pc.p, pc.nc) {
      LinkStep(s, q, t, pc.e, pc.p, pc.c, pc.nc);
    } else {
      LocalStep(s, q, t, E66(pc.e));
    }
  }

  lemma Swap78Keeps(s: State, q: seq<Node>, t: Tid)
    requires Good(s, q) && PcOf(s, t).E78?
    ensures Good(Advance(s, t, Go), NextChain(s, t, q))
  {
    var pc := PcOf(s, t);
    assert Ok(s, q, t);
    if s.enq == Pair(pc.p, pc.c) { SwingStep(s, q, t, pc.n, E66(pc.e)); } else { LocalStep(s, q, t, E66(pc.e)); }
  }

  lemma Swap83Keeps(s: State, q: seq<Node>, t: Tid)
    requires Good(s, q) && PcOf(s, t).E83?
    ensures Good(Advance(s, t, Go), NextChain(s, t, q))
  {
    var pc := PcOf(s, t);
    assert Ok(s, q, t);
    if s.enq == Pair(pc.p, pc.c) { SwingStep(s, q, t, pc.e.node, Idle); } else { LocalStep(s, q, t, Idle); }
  }

  lemma EnqueueSwapKeeps(s: State, q: seq<Node>, t: Tid)
    requires Good(s, q)
    requires var pc := PcOf(s, t); pc.E74? || pc.E78? || pc.E83?
    ensures Good(Advance(s, t, Go), NextChain(s, t, q))
  {
    if PcOf(s, t).E74? {
      Swap74Keeps(s, q, t);
    } else if PcOf(s, t).E78? {
      Swap78Keeps(s, q, t);
    } else {
      Swap83Keeps(s, q, t);
    }
  }

  lemma DequeueReadKeeps(s: State, q: seq<Node>, t: Tid)
    requires Good(s, q)
    requires var pc := PcOf(s, t); pc.D95? || pc.D96? || pc.D97?
    ensures Good(Advance(s, t, Go), q)
  {
    assert Ok(s, q, t);
    match PcOf(s, t)
    case D95 => LocalStep(s, q, t, D96(s.deq.ptr));
    case D96(p) => LocalStep(s, q, t, D97(p, s.deq.ctr));
    case D97(p, c) => LocalStep(s, q, t, D98(p, c, s.enq.ptr));
  }

  lemma DequeueNextKeeps(s: State, q: seq<Node>, t: Tid)
    requires Good(s, q)
    requires var pc := PcOf(s, t); pc.D98? || pc.D99?
    ensures Good(Advance(s, t, Go), q)
  {
    assert Ok(s, q, t);
    match PcOf(s, t)
    case D98(p, c, ep) => LocalStep(s, q, t, D99(p, c, ep, s.enq.ctr));
    case D99(p, c, ep, ec) =>
      NullIsLast(s, q, s.deq.ptr);
      LocalStep(s, q, t, D102p(p, c, ep, ec, At(s.mem, p).next));
  }

  lemma DequeueCheckKeeps(s: State, q: seq<Node>, t: Tid)
    requires Good(s, q)
    requires var pc := PcOf(s, t); pc.D102p? || pc.D102c?
    ensures Good(Advance(s, t, Go), q)
  {
    assert Ok(s, q, t);
    match PcOf(s, t)
    case D102p(p, c, ep, ec, np) => LocalStep(s, q, t, if s.deq.ptr == p then D102c(p, c, ep, ec, np) else D95);
    case D102c(p, c, ep, ec, np) =>
      LocalStep(s, q, t, if s.deq.ctr == c then Verdict102(p, c, ep, ec, np) else D95);
  }

  lemma DequeueSwapKeeps(s: State, q: seq<Node>, t: Tid)
    requires Good(s, q)
    requires var pc := PcOf(s, t); pc.D117? || pc.D120? || pc.D122? || pc.D130?
    ensures Good(Advance(s, t, Go), NextChain(s, t, q))
  {
    assert Ok(s, q, t);
    match PcOf(s, t)
    case D117(ep, ec, n) =>
      if s.enq == Pair(ep, ec) { SwingStep(s, q, t, n, D95); } else { LocalStep(s, q, t, D95); }
    case D120(p, c, np) => LocalStep(s, q, t, D122(p, c, np.value, At(s.mem, np.value).data));
    case D122(p, c, n, x) =>
      if s.deq == Pair(p, c) { TakeStep(s, q, t, p, c, n, x); } else { LocalStep(s, q, t, D95); }
    case D130(p) => PushStep(s, q, t, p);
  }

  lemma ObtainKeeps(s: State, q: seq<Node>, t: Tid, ch: Choice)
    requires Good(s, q) && Enabled(s, t, ch)
    requires PcOf(s, t).Idle? || PcOf(s, t).Pop238?
    ensures Good(Advance(s, t, ch), q)
  {
    assert Ok(s, q, t);
    match PcOf(s, t)
    case Idle => LocalStep(s, q, t, if ch.StartEnqueue? then Pop238(ch.data) else D95);
    case Pop238(d) =>
      if ch.TakeFree? { PopFree(s, q, t, Elem(ch.node, d)); }
      else if ch.TakeNew? { PopNew(s, q, t, Elem(ch.node, d), ch.junk); }
      else { LocalStep(s, q, t, Idle); }
  }

  lemma CounterKeeps(s: State, q: seq<Node>, t: Tid)
    requires Good(s, q) && (PcOf(s, t).Inc260? || PcOf(s, t).Inc262?)
    ensures Good(Advance(s, t, Go), q)
  {
    assert Ok(s, q, t);
    match PcOf(s, t)
    case Inc260(e) => IssueStep(s, q, t, Clear261(e));
    case Inc262(e) => IssueStep(s, q, t, Store262(e, s.aba + 1));
  }

  lemma FillKeeps(s: State, q: seq<Node>, t: Tid)
    requires Good(s, q) && (PcOf(s, t).Clear261? || PcOf(s, t).Store262? || PcOf(s, t).Store264?)
    ensures Good(Advance(s, t, Go), q)
  {
    assert Ok(s, q, t);
    match PcOf(s, t)
    case Clear261(e) => WriteStep(s, q, t, e.node, At(s.mem, e.node).(next := None), Inc262(e));
    case Store262(e, k) => WriteStep(s, q, t, e.node, At(s.mem, e.node).(ctr := k), Store264(e));
    case Store264(e) => WriteStep(s, q, t, e.node, At(s.mem, e.node).(data := e.data), E66(e));
  }

  /** Every step of every thread keeps the invariant, unless the thread's `next` read is being torn. */
  lemma StepKeeps(s: State, q: seq<Node>, t: Tid, ch: Choice)
    requires Good(s, q) && Enabled(s, t, ch) && !Torn(s, t)
    ensures Good(Advance(s, t, ch), NextChain(s, t, q))
  {
    var pc := PcOf(s, t);
    if pc.E66? || pc.E67? || pc.E68? || pc.E69? {
      EnqueueReadKeeps(s, q, t);
    } else if pc.E71p? || pc.E71c? {
      EnqueueCheckKeeps(s, q, t);
    } else if pc.E74? || pc.E78? || pc.E83? {
      EnqueueSwapKeeps(s, q, t);
    } else if pc.D95? || pc.D96? || pc.D97? {
      DequeueReadKeeps(s, q, t);
    } else if pc.D98? || pc.D99? {
      DequeueNextKeeps(s, q, t);
    } else if pc.D102p? || pc.D102c? {
      DequeueCheckKeeps(s, q, t);
    } else if pc.D117? || pc.D120? || pc.D122? || pc.D130? {
      DequeueSwapKeeps(s, q, t);
    } else if pc.Inc260? || pc.Inc262? {
      CounterKeeps(s, q, t);
    } else if pc.Clear261? || pc.Store262? || pc.Store264? {
      FillKeeps(s, q, t);
    } else {
      ObtainKeeps(s, q, t, ch);
    }
  }

  // ----- whole runs

  datatype Act = Act(t: Tid, ch: Choice)

  /** The state `queue_new` leaves: one dummy node, the other nodes free, every thread idle.  The dummy's
      counter must not be one that `aba_count` will issue again. */
  ghost predicate Init(s: State) {
    && s.enq == s.deq && s.enq.ptr in s.mem && s.enq.ptr !in s.free
    && At(s.mem, s.enq.ptr).next.None? && At(s.mem, s.enq.ptr).ctr <= s.aba
    && (forall n :: n in s.free ==> n in s.mem)
    && (forall t :: PcOf(s, t) == Idle)
    && s.enqLog == [] && s.deqLog == []
  }

  ghost predicate Moves(s: State, a: Act, s': State) {
    Enabled(s, a.t, a.ch) && s' == Advance(s, a.t, a.ch)
  }

  ghost predicate IsRun(run: seq<State>, acts: seq<Act>) {
    && |run| == |acts| + 1 && Init(run[0])
    && forall i :: 0 <= i < |acts| ==> Moves(run[i], acts[i], run[i + 1])
  }

  ghost predicate TearFree(run: seq<State>, acts: seq<Act>) {
    |run| == |acts| + 1 && forall i :: 0 <= i < |acts| ==> !Torn(run[i], acts[i].t)
  }

  /** The queue in memory after `i` steps. */
  ghost function ChainAt(run: seq<State>, acts: seq<Act>, i: nat): seq<Node>
    requires |run| == |acts| + 1 && i < |run|
  {
    if i == 0 then [run[0].deq.ptr] else NextChain(run[i - 1], acts[i - 1].t, ChainAt(run, acts, i - 1))
  }

  /** In every interleaving of any number of enqueues and dequeues with no torn `next` read, the queue in
      memory is a FIFO: dequeued data are a prefix of enqueued data and the queue holds the rest. */
  lemma {:induction false} RunKeeps(run: seq<State>, acts: seq<Act>, i: nat)
    requires IsRun(run, acts) && TearFree(run, acts) && i < |run|
    ensures Good(run[i], ChainAt(run, acts, i))
  {
    if i == 0 {
      var s, q := run[0], [run[0].deq.ptr];
      forall t ensures Ok(s, q, t) { assert PcOf(s, t) == Idle; }
      forall t, u ensures Apart(s, t, u) { assert PcOf(s, t) == Idle; }
    } else {
      RunKeeps(run, acts, i - 1);
      assert Moves(run[i - 1], acts[i - 1], run[i]);
      StepKeeps(run[i - 1], ChainAt(run, acts, i - 1), acts[i - 1].t, acts[i - 1].ch);
    }
  }

  /** What a caller would read off the memory: the data of the nodes behind the dummy. */
  ghost function Contents(s: State, q: seq<Node>): seq<Data>
    requires |q| > 0
  {
    seq(|q| - 1, i requires 0 <= i < |q| - 1 => At(s.mem, q[i + 1]).data)
  }

  lemma FifoContents(s: State, q: seq<Node>)
    requires Fifo(s, q)
    ensures s.enqLog == s.deqLog + Contents(s, q)
  {
    forall k | 0 <= k < |q| - 1 ensures s.enqLog[|s.deqLog| + k] == Contents(s, q)[k] {
      assert At(s.mem, q[k + 1]).data == s.enqLog[|s.deqLog| + (k + 1) - 1];
    }
  }

  lemma RunIsFifo(run: seq<State>, acts: seq<Act>, i: nat)
    requires IsRun(run, acts) && TearFree(run, acts) && i < |run|
    ensures Chain(run[i], ChainAt(run, acts, i))
    ensures run[i].enqLog == run[i].deqLog + Contents(run[i], ChainAt(run, acts, i))
  {
    RunKeeps(run, acts, i);
    FifoContents(run[i], ChainAt(run, acts, i));
  }

  // ----- how many threads may enqueue at once

  predicate InEnqueue(pc: Pc) {
    || pc.Pop238? || pc.Inc260? || pc.Clear261? || pc.Inc262? || pc.Store262? || pc.Store264?
    || pc.E66? || pc.E67? || pc.E68? || pc.E69? || pc.E71p? || pc.E71c? || pc.E74? || pc.E78? || pc.E83?
  }

  /** At most `m` threads are inside `queue_enqueue` (dequeuers are not limited). */
  ghost predicate AtMost(s: State, m: nat) {
    forall ts: set<Tid> :: (forall t :: t in ts ==> InEnqueue(PcOf(s, t))) ==> |ts| <= m
  }

  ghost predicate Bounded(run: seq<State>, m: nat) {
    forall i :: 0 <= i < |run| ==> AtMost(run[i], m)
  }

  /** The memory holds a queue that is exactly the enqueued data not yet dequeued. */
  ghost predicate Correct(s: State) {
    exists q :: Chain(s, q) && Fifo(s, q)
  }

  lemma OneAtMost(s: State, t: Tid, u: Tid)
    requires AtMost(s, 1) && InEnqueue(PcOf(s, t)) && InEnqueue(PcOf(s, u))
    ensures t == u
  {
    var ts := {t, u};
    assert |ts - {t}| == |ts| - 1 == 0;
    assert u !in ts - {t};
  }

  /** Only a thread inside `queue_enqueue` writes a node. */
  lemma OnlyEnqueuersWrite(s: State, t: Tid, ch: Choice)
    requires Enabled(s, t, ch) && !InEnqueue(PcOf(s, t))
    ensures Advance(s, t, ch).mem == s.mem
  {
  }

  /** With one enqueuer at a time, what line 68 read is still there at line 69. */
  lemma {:induction false} SingleEnqueuerReadsWhole(run: seq<State>, acts: seq<Act>, i: nat, t: Tid)
    requires IsRun(run, acts) && Bounded(run, 1) && i < |run|
    ensures var pc := PcOf(run[i], t); pc.E69? ==> At(run[i].mem, pc.p).next == pc.np
  {
    if i == 0 {
      assert PcOf(run[0], t) == Idle;
    } else if PcOf(run[i], t).E69? {
      var a, s := acts[i - 1], run[i - 1];
      assert Moves(s, a, run[i]);
      if a.t != t {
        SingleEnqueuerReadsWhole(run, acts, i - 1, t);
        if InEnqueue(PcOf(s, a.t)) {
          OneAtMost(s, t, a.t);
        } else {
          OnlyEnqueuersWrite(s, a.t, a.ch);
        }
      }
    }
  }

  lemma SingleEnqueuerNeverTorn(run: seq<State>, acts: seq<Act>)
    requires IsRun(run, acts) && Bounded(run, 1)
    ensures TearFree(run, acts)
  {
    forall i | 0 <= i < |acts| ensures !Torn(run[i], acts[i].t) {
      SingleEnqueuerReadsWhole(run, acts, i, acts[i].t);
    }
  }
}
