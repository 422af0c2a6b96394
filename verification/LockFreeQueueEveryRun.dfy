/** What the queue of basic/lf_queue.c keeps in EVERY run, torn `next` reads included.

    The swap of line 74 may then succeed on a node that is not in the queue: one that was retired after it was read and
    that another enqueue has taken and is still filling in or linking.  Such a node can carry a tail of elements, which
    joins the queue together with it.  The shadow of a state says where every node is: in the queue, or owned by a
    thread together with the tail that hangs from it; and when it was last retired, which keeps tails free of cycles. */
module LockFreeQueueEveryRun {
  import opened LockFreeQueue
  import opened Prelude

  /** `q` is the queue in memory; `own` the node a thread holds, followed by its tail; `pop` the number of the dequeue
      that last retired a node; `linked` the nodes whose elements are enqueued and not dequeued. */
  datatype Shadow = Shadow(q: seq<Node>, own: map<Tid, seq<Node>>, pop: map<Node, nat>, linked: set<Node>)

  function Own(sh: Shadow, t: Tid): seq<Node> { if t in sh.own then sh.own[t] else [] }

  function Stamp(sh: Shadow, n: Node): nat { if n in sh.pop then sh.pop[n] else 0 }

  /** The thread holds a node whose `next` is its own: null, or the tail that hangs from it. */
  predicate Bears(pc: Pc) { pc.Inc262? || pc.Store262? || pc.Store264? || Linking(pc) }

  // ----- the invariant

  /** `o` is a list in memory: each node's `next` the following one, the last one's null. */
  ghost predicate Path(s: State, o: seq<Node>) {
    && |o| > 0 && (forall i :: 0 <= i < |o| - 1 ==> At(s.mem, o[i]).next == Some(o[i + 1]))
    && At(s.mem, o[|o| - 1]).next == None
  }

  /** A tail hangs from nodes that were retired after it. */
  ghost predicate Falling(sh: Shadow, o: seq<Node>) {
    forall i, j :: 0 <= i < j < |o| ==> Stamp(sh, o[i]) > Stamp(sh, o[j])
  }

  /** A retired node keeps its successor until it is taken again. */
  ghost predicate Spent(s: State, sh: Shadow, n: Node) { Stamp(sh, n) > 0 ==> At(s.mem, n).next.Some? }

  ghost predicate OwnNodes(s: State, sh: Shadow, o: seq<Node>) {
    forall n :: n in o ==> n in s.mem && n !in sh.q && n !in s.free
  }

  ghost predicate OwnOk(s: State, sh: Shadow, t: Tid) {
    var pc, o := PcOf(s, t), Own(sh, t);
    && OwnNodes(s, sh, o)
    && (Held(pc).None? ==> o == [])
    && (Held(pc).Some? ==> |o| > 0 && o[0] == Held(pc).value)
    && (Held(pc).Some? && !Bears(pc) ==> |o| == 1 && Spent(s, sh, o[0]))
    && (Bears(pc) ==> Path(s, o) && Falling(sh, o))
    && (Linking(pc) ==> At(s.mem, o[0]).data == pc.e.data)
  }

  ghost predicate Disjoint(sh: Shadow, t: Tid, u: Tid) { t != u ==> forall n :: n in Own(sh, t) ==> n !in Own(sh, u) }

  ghost predicate FreeOk(s: State, sh: Shadow, n: Node) { n in s.free ==> n in s.mem && n !in sh.q && Spent(s, sh, n) }

  ghost predicate OwnedBy(sh: Shadow, n: Node, t: Tid) { n in Own(sh, t) }

  /** A node that was ever retired is somewhere, and not later than the last dequeue. */
  ghost predicate Located(s: State, sh: Shadow, n: Node) {
    && Stamp(sh, n) <= |s.deqLog|
    && (Stamp(sh, n) > 0 ==> n in sh.q || n in s.free || exists t :: OwnedBy(sh, n, t))
  }

  ghost predicate InTail(sh: Shadow, n: Node, t: Tid) { |Own(sh, t)| > 0 && n in Own(sh, t)[1..] }

  ghost predicate IsLinked(sh: Shadow, n: Node) {
    (|sh.q| > 0 && n in sh.q[1..]) || exists t :: InTail(sh, n, t)
  }

  /** The node read as `enqueue` is in the queue, or was retired after the thread took its own node. */
  ghost predicate Chased(sh: Shadow, e: Elem, p: Node) { p in sh.q || Stamp(sh, p) > Stamp(sh, e.node) }

  ghost predicate NextRead(s: State, p: Node, c: nat, np: Option<Node>) {
    s.enq == Pair(p, c) && np.Some? ==> At(s.mem, p).next == np
  }

  ghost predicate EnqueueOk(s: State, sh: Shadow, pc: Pc) {
    match pc
    case Fault => false
    case E67(e, p) => Chased(sh, e, p)
    case E68(e, p, c) => c <= s.enq.ctr && Chased(sh, e, p)
    case E69(e, p, c, np) => c <= s.enq.ctr && Chased(sh, e, p) && NextRead(s, p, c, np)
    case E71p(e, p, c, np, nc) => c <= s.enq.ctr && Chased(sh, e, p) && NextRead(s, p, c, np)
    case E71c(e, p, c, np, nc) => c <= s.enq.ctr && Chased(sh, e, p) && NextRead(s, p, c, np)
    case E74(e, p, c, nc) => c <= s.enq.ctr && Chased(sh, e, p)
    case E78(e, p, c, n) => c <= s.enq.ctr && NextRead(s, p, c, Some(n))
    case E83(e, p, c) => c <= s.enq.ctr && NextRead(s, p, c, Some(e.node))
    case _ => true
  }

  ghost predicate DequeueOk(s: State, pc: Pc) {
    match pc
    case D97(p, c) => c <= s.deq.ctr
    case D98(p, c, ep) => c <= s.deq.ctr && (s.deq == Pair(p, c) && ep != p ==> s.enq.ptr != p)
    case D99(p, c, ep, ec) =>
      c <= s.deq.ctr && ec <= s.enq.ctr && (s.deq == Pair(p, c) && ep != p ==> s.enq.ptr != p)
    case D102p(p, c, ep, ec, np) => c <= s.deq.ctr && ec <= s.enq.ctr && TakeLocals(s, p, c, ep, np)
    case D102c(p, c, ep, ec, np) =>
      c <= s.deq.ctr && ec <= s.enq.ctr && TakeLocals(s, p, c, ep, np) && (s.deq.ctr == c ==> s.deq.ptr == p)
    case D117(ep, ec, n) => ec <= s.enq.ctr && NextRead(s, ep, ec, Some(n))
    case D120(p, c, np) =>
      np.Some? && c <= s.deq.ctr && TakeLocals(s, p, c, p, np) && (s.deq == Pair(p, c) ==> s.enq.ptr != p)
    case D122(p, c, n, x) =>
      c <= s.deq.ctr &&
      (s.deq == Pair(p, c) ==> At(s.mem, p).next == Some(n) && s.enq.ptr != p && x == At(s.mem, n).data)
    case _ => true
  }

  ghost predicate ThreadOk(s: State, sh: Shadow, pc: Pc) { EnqueueOk(s, sh, pc) && DequeueOk(s, pc) }

  ghost predicate QueueOk(s: State, sh: Shadow) { Chain(s, sh.q) && s.enq.ptr in sh.q }
  ghost predicate AllOwn(s: State, sh: Shadow) { forall t :: OwnOk(s, sh, t) }
  ghost predicate AllDisjoint(sh: Shadow) { forall t, u :: Disjoint(sh, t, u) }
  ghost predicate AllNodes(s: State, sh: Shadow) { forall n :: FreeOk(s, sh, n) && Located(s, sh, n) }
  ghost predicate AllLinked(sh: Shadow) { forall n :: n in sh.linked <==> IsLinked(sh, n) }
  ghost predicate AllThreads(s: State, sh: Shadow) { forall t :: ThreadOk(s, sh, PcOf(s, t)) }

  /** The data of a set of nodes. */
  ghost function Bag(m: map<Node, Cell>, ns: set<Node>): multiset<Data> {
    if ns == {} then multiset{} else var n :| n in ns; multiset{At(m, n).data} + Bag(m, ns - {n})
  }

  /** No element is lost or invented. */
  ghost predicate Conserved(s: State, sh: Shadow) {
    multiset(s.enqLog) == multiset(s.deqLog) + Bag(s.mem, sh.linked)
  }

  ghost predicate Placed(s: State, sh: Shadow) {
    QueueOk(s, sh) && AllOwn(s, sh) && AllDisjoint(sh) && AllNodes(s, sh) && AllLinked(sh)
  }

  ghost predicate Whole(s: State, sh: Shadow) { Placed(s, sh) && AllThreads(s, sh) && Conserved(s, sh) }

  // ----- bags

  lemma {:induction false} BagAdd(m: map<Node, Cell>, ns: set<Node>, n: Node)
    requires n !in ns
    ensures Bag(m, ns + {n}) == Bag(m, ns) + multiset{At(m, n).data}
    decreases |ns|
  {
    var all := ns + {n};
    var x :| x in all && Bag(m, all) == multiset{At(m, x).data} + Bag(m, all - {x});
    if x == n {
      assert all - {n} == ns;
    } else {
      assert all - {x} == (ns - {x}) + {n} && ns == (ns - {x}) + {x};
      BagAdd(m, ns - {x}, n);
      BagAdd(m, ns - {x}, x);
    }
  }

  lemma {:induction false} BagFrame(m: map<Node, Cell>, m': map<Node, Cell>, ns: set<Node>)
    requires forall n :: n in ns ==> At(m', n).data == At(m, n).data
    ensures Bag(m', ns) == Bag(m, ns)
    decreases |ns|
  {
    if n :| n in ns {
      BagFrame(m, m', ns - {n});
      assert ns == (ns - {n}) + {n};
      BagAdd(m, ns - {n}, n);
      BagAdd(m', ns - {n}, n);
    }
  }

  // ----- what a step of one thread leaves alone

  /** The cells of the queue are as they were. */
  ghost predicate SameQueue(s: State, s': State, sh: Shadow) {
    && s'.enq == s.enq && s'.deq == s.deq
    && forall n :: n in sh.q ==> n in s'.mem && At(s'.mem, n) == At(s.mem, n)
  }

  lemma ChainStays(s: State, s': State, sh: Shadow)
    requires QueueOk(s, sh) && SameQueue(s, s', sh)
    ensures QueueOk(s', sh)
  {
    assert forall i :: 0 <= i < |sh.q| ==> sh.q[i] in sh.q;
  }

  /** A thread that does not move looks only at cells of the queue. */
  lemma ThreadStays(s: State, s': State, sh: Shadow, sh': Shadow, pc: Pc)
    requires QueueOk(s, sh) && SameQueue(s, s', sh) && ThreadOk(s, sh, pc)
    requires sh'.q == sh.q && sh'.pop == sh.pop
    ensures ThreadOk(s', sh', pc)
  {
    NullIsLast(s, sh.q, s.deq.ptr);
  }

  /** What a thread owns is as it was. */
  ghost predicate SameOwn(s: State, s': State, sh: Shadow, sh': Shadow, u: Tid) {
    && PcOf(s', u) == PcOf(s, u) && Own(sh', u) == Own(sh, u)
    && forall n :: n in Own(sh, u) ==>
         n in s'.mem && At(s'.mem, n) == At(s.mem, n) && n !in sh'.q && n !in s'.free && Stamp(sh', n) == Stamp(sh, n)
  }

  lemma PathStays(s: State, s': State, o: seq<Node>)
    requires Path(s, o) && forall n :: n in o ==> At(s'.mem, n).next == At(s.mem, n).next
    ensures Path(s', o)
  {
    assert forall i :: 0 <= i < |o| ==> o[i] in o;
  }

  lemma FallingStays(sh: Shadow, sh': Shadow, o: seq<Node>)
    requires Falling(sh, o) && forall n :: n in o ==> Stamp(sh', n) == Stamp(sh, n)
    ensures Falling(sh', o)
  {
    assert forall i :: 0 <= i < |o| ==> o[i] in o;
  }

  lemma OwnStays(s: State, s': State, sh: Shadow, sh': Shadow, u: Tid)
    requires OwnOk(s, sh, u) && SameOwn(s, s', sh, sh', u)
    ensures OwnOk(s', sh', u)
  {
    var pc, o := PcOf(s, u), Own(sh, u);
    if Bears(pc) {
      PathStays(s, s', o);
      FallingStays(sh, sh', o);
    }
    assert |o| > 0 ==> o[0] in o;
  }

  lemma FrontOnce(sh: Shadow, o: seq<Node>)
    requires |o| > 0 && Falling(sh, o)
    ensures o[0] !in o[1..]
  {
    forall i | 0 <= i < |o[1..]| ensures o[1..][i] != o[0] { assert Stamp(sh, o[0]) > Stamp(sh, o[i + 1]); }
  }

  /** A node at the front of what a thread owns is not linked. */
  lemma FrontNotLinked(s: State, sh: Shadow, t: Tid)
    requires Placed(s, sh) && Held(PcOf(s, t)).Some?
    ensures Own(sh, t) != [] && Own(sh, t)[0] == Held(PcOf(s, t)).value && Own(sh, t)[0] !in sh.linked
      && Own(sh, t)[0] !in sh.q
  {
    var o := Own(sh, t);
    assert OwnOk(s, sh, t);
    var h := o[0];
    assert h in o && h !in sh.q;
    if Bears(PcOf(s, t)) { FrontOnce(sh, o); }
    forall u ensures !InTail(sh, h, u) { assert Disjoint(sh, t, u); }
    assert !IsLinked(sh, h);
  }

  // ----- steps that leave every node where it is

  /** Thread `t` moves to `pc`; at most the cell of the node it holds changes. */
  ghost predicate Stays(s: State, s': State, sh: Shadow, t: Tid, pc: Pc) {
    && s'.enq == s.enq && s'.deq == s.deq && s'.free == s.free && s'.enqLog == s.enqLog && s'.deqLog == s.deqLog
    && s'.pcs == s.pcs[t := pc]
    && forall n: Node :: Held(PcOf(s, t)) != Some(n) ==> (n in s.mem ==> n in s'.mem) && At(s'.mem, n) == At(s.mem, n)
  }

  lemma StaysPlaced(s: State, s': State, sh: Shadow, t: Tid, pc: Pc)
    requires Placed(s, sh) && Stays(s, s', sh, t, pc) && OwnOk(s', sh, t)
    ensures Placed(s', sh) && SameQueue(s, s', sh)
  {
    assert OwnOk(s, sh, t);
    var mine := Own(sh, t);
    assert Held(PcOf(s, t)).Some? ==> mine[0] in mine;
    ChainStays(s, s', sh);
    forall u ensures OwnOk(s', sh, u) {
      if u != t {
        assert OwnOk(s, sh, u) && Disjoint(sh, t, u);
        OwnStays(s, s', sh, sh, u);
      }
    }
    forall n ensures FreeOk(s', sh, n) && Located(s', sh, n) { assert FreeOk(s, sh, n) && Located(s, sh, n); }
  }

  lemma StaysWhole(s: State, s': State, sh: Shadow, t: Tid, pc: Pc)
    requires Whole(s, sh) && Stays(s, s', sh, t, pc) && OwnOk(s', sh, t) && ThreadOk(s', sh, pc)
    ensures Whole(s', sh)
  {
    StaysPlaced(s, s', sh, t, pc);
    forall u ensures ThreadOk(s', sh, PcOf(s', u)) {
      if u != t { assert ThreadOk(s, sh, PcOf(s, u)); ThreadStays(s, s', sh, sh, PcOf(s, u)); }
    }
    if Held(PcOf(s, t)).Some? { FrontNotLinked(s, sh, t); }
    BagFrame(s.mem, s'.mem, sh.linked);
  }

  /** The thread changes only its locals. */
  lemma LocalStep(s: State, s': State, sh: Shadow, t: Tid, pc: Pc)
    requires Whole(s, sh) && s' == Goto(s, t, pc).(aba := s'.aba) && ThreadOk(s, sh, pc)
    requires Held(pc) == Held(PcOf(s, t)) && Bears(pc) == Bears(PcOf(s, t))
    requires Linking(pc) ==> Linking(PcOf(s, t)) && pc.e == PcOf(s, t).e
    ensures Whole(s', sh)
  {
    assert OwnOk(s, sh, t);
    var o := Own(sh, t);
    if Bears(pc) { PathStays(s, s', o); }
    ThreadStays(s, s', sh, sh, pc);
    StaysWhole(s, s', sh, t, pc);
  }


  /** Lines 261, 262 and 264 write the node the thread holds. */
  lemma FillStep(s: State, sh: Shadow, t: Tid, cell: Cell, pc: Pc)
    requires Whole(s, sh) && var was := PcOf(s, t);
      && (was.Clear261? || was.Store262? || was.Store264?)
      && (was.Clear261? ==> pc == Inc262(was.e) && cell == At(s.mem, was.e.node).(next := None))
      && (was.Store262? ==> pc == Store264(was.e) && cell == At(s.mem, was.e.node).(ctr := was.k))
      && (was.Store264? ==> pc == E66(was.e) && cell == At(s.mem, was.e.node).(data := was.e.data))
    ensures Whole(Write(s, t, PcOf(s, t).e.node, cell, pc), sh)
  {
    var was := PcOf(s, t);
    var s' := Write(s, t, was.e.node, cell, pc);
    FilledOwn(s, sh, t, cell, pc);
    StaysWhole(s, s', sh, t, pc);
  }

  lemma FilledOwn(s: State, sh: Shadow, t: Tid, cell: Cell, pc: Pc)
    requires OwnOk(s, sh, t) && var was := PcOf(s, t);
      && (was.Clear261? || was.Store262? || was.Store264?)
      && (was.Clear261? ==> pc == Inc262(was.e) && cell == At(s.mem, was.e.node).(next := None))
      && (was.Store262? ==> pc == Store264(was.e) && cell == At(s.mem, was.e.node).(ctr := was.k))
      && (was.Store264? ==> pc == E66(was.e) && cell == At(s.mem, was.e.node).(data := was.e.data))
    ensures OwnOk(Write(s, t, PcOf(s, t).e.node, cell, pc), sh, t)
  {
    var was, o := PcOf(s, t), Own(sh, t);
    if !was.Clear261? { PathStays(s, Write(s, t, was.e.node, cell, pc), o); }
  }

  /** The enqueue pointer moves to its node's successor. */
  lemma SwingStep(s: State, sh: Shadow, t: Tid, n: Node, pc: Pc)
    requires Whole(s, sh) && At(s.mem, s.enq.ptr).next == Some(n)
    requires pc.Idle? || pc.D95? || (pc.E66? && Linking(PcOf(s, t)) && PcOf(s, t).e == pc.e)
    requires Held(pc) == Held(PcOf(s, t))
    ensures Whole(Swing(s, t, n, pc), sh)
  {
    var s0, s' := Goto(s, t, pc), Swing(s, t, n, pc);
    LocalStep(s, s0, sh, t, pc);
    NullIsLast(s, sh.q, s.enq.ptr);
    assert QueueOk(s', sh);
    forall u ensures OwnOk(s', sh, u) { assert OwnOk(s0, sh, u); OwnStays(s0, s', sh, sh, u); }
    forall m ensures FreeOk(s', sh, m) && Located(s', sh, m) { assert FreeOk(s0, sh, m) && Located(s0, sh, m); }
    forall u ensures ThreadOk(s', sh, PcOf(s', u)) { SwingThread(s0, sh, s', PcOf(s0, u)); }
  }

  lemma SwingThread(s: State, sh: Shadow, s': State, pc: Pc)
    requires QueueOk(s, sh) && ThreadOk(s, sh, pc) && At(s.mem, s.enq.ptr).next == Some(s'.enq.ptr)
    requires s'.enq.ctr > s.enq.ctr && s'.deq == s.deq && s'.mem == s.mem
    ensures ThreadOk(s', sh, pc)
  {
    NullIsLast(s, sh.q, s.enq.ptr);
  }

  // ----- nodes that change hands

  lemma NothingOwned(s: State, sh: Shadow, t: Tid)
    requires Held(PcOf(s, t)).None? && Own(sh, t) == []
    ensures OwnOk(s, sh, t)
  {
  }

  /** Thread `t` owns the one node `n`, which it has not cleared. */
  lemma OneOwned(s: State, sh: Shadow, t: Tid, n: Node)
    requires Held(PcOf(s, t)) == Some(n) && !Bears(PcOf(s, t)) && Own(sh, t) == [n] && Spent(s, sh, n)
    requires n in s.mem && n !in sh.q && n !in s.free
    ensures OwnOk(s, sh, t)
  {
  }

  /** Taking a node that hangs from nothing, or giving one up, changes no tail. */
  lemma SameTails(sh: Shadow, sh': Shadow, t: Tid)
    requires AllLinked(sh) && sh'.q == sh.q && sh'.linked == sh.linked && |Own(sh, t)| <= 1 && |Own(sh', t)| <= 1
    requires forall u :: u != t ==> Own(sh', u) == Own(sh, u)
    ensures AllLinked(sh')
  {
    forall n ensures n in sh'.linked <==> IsLinked(sh', n) {
      assert n in sh.linked <==> IsLinked(sh, n);
      if u :| InTail(sh, n, u) { assert InTail(sh', n, u); }
      if u :| InTail(sh', n, u) { assert InTail(sh, n, u); }
    }
  }

  /** A node outside the queue goes to a thread that had none. */
  lemma ObtainPlaced(s: State, s': State, sh: Shadow, t: Tid, e: Elem)
    requires Placed(s, sh) && PcOf(s, t).Pop238? && (forall u :: !OwnedBy(sh, e.node, u)) && e.node !in sh.q
    requires s'.enq == s.enq && s'.deq == s.deq && s'.deqLog == s.deqLog && s'.free == s.free - {e.node}
    requires s'.pcs == s.pcs[t := Inc260(e)] && e.node in s'.mem && Spent(s', sh, e.node)
    requires forall n: Node :: n != e.node ==> (n in s.mem ==> n in s'.mem) && At(s'.mem, n) == At(s.mem, n)
    ensures Placed(s', sh.(own := sh.own[t := [e.node]]))
  {
    var sh' := sh.(own := sh.own[t := [e.node]]);
    assert OwnOk(s, sh, t);
    ChainStays(s, s', sh);
    OneOwned(s', sh', t, e.node);
    forall u ensures OwnOk(s', sh', u) {
      if u != t { assert OwnOk(s, sh, u) && !OwnedBy(sh, e.node, u); OwnStays(s, s', sh, sh', u); }
    }
    forall u, v ensures Disjoint(sh', u, v) {
      assert Disjoint(sh, u, v) && !OwnedBy(sh, e.node, u) && !OwnedBy(sh, e.node, v);
    }
    forall n ensures FreeOk(s', sh', n) && Located(s', sh', n) {
      assert FreeOk(s, sh, n) && Located(s, sh, n);
      assert n == e.node ==> OwnedBy(sh', n, t);
      if u :| OwnedBy(sh, n, u) { assert OwnedBy(sh', n, u); }
    }
    SameTails(sh, sh', t);
  }

  lemma ObtainStep(s: State, s': State, sh: Shadow, t: Tid, e: Elem) returns (sh': Shadow)
    requires Whole(s, sh) && PcOf(s, t).Pop238?
    requires
      || (e.node in s.free && s' == Goto(s, t, Inc260(e)).(free := s.free - {e.node}))
      || (e.node !in s.mem && exists junk :: s' == Write(s, t, e.node, junk, Inc260(e)))
    ensures Whole(s', sh')
  {
    var n := e.node;
    sh' := sh.(own := sh.own[t := [n]]);
    assert FreeOk(s, sh, n) && Located(s, sh, n);
    assert n !in sh.q;
    forall u ensures !OwnedBy(sh, n, u) { assert OwnOk(s, sh, u); }
    assert n !in s.mem ==> Stamp(sh, n) == 0 && n !in s.free;
    assert s'.free == s.free - {n};
    ObtainPlaced(s, s', sh, t, e);
    forall u ensures ThreadOk(s', sh', PcOf(s', u)) {
      assert ThreadOk(s, sh, PcOf(s, u));
      if u != t { ThreadStays(s, s', sh, sh', PcOf(s, u)); }
    }
    LinkedInMem(s, sh);
    BagFrame(s.mem, s'.mem, sh.linked);
  }

  lemma LinkedInMem(s: State, sh: Shadow)
    requires Placed(s, sh)
    ensures forall n :: n in sh.linked ==> n in s.mem && n !in s.free
  {
    forall n | n in sh.linked ensures n in s.mem && n !in s.free {
      assert IsLinked(sh, n) && FreeOk(s, sh, n);
      if n !in sh.q[1..] {
        var u :| InTail(sh, n, u);
        assert OwnOk(s, sh, u) && n in Own(sh, u);
      } else {
        assert n in sh.q;
      }
    }
  }

  lemma PushPlaced(s: State, s': State, sh: Shadow, sh': Shadow, t: Tid, p: Node)
    requires Placed(s, sh) && PcOf(s, t) == D130(p) && s' == Goto(s, t, Idle).(free := s.free + {p})
    requires sh' == sh.(own := sh'.own) && Own(sh', t) == [] && forall u :: u != t ==> Own(sh', u) == Own(sh, u)
    ensures Placed(s', sh')
  {
    assert OwnOk(s, sh, t) && p in Own(sh, t);
    NothingOwned(s', sh', t);
    ChainStays(s, s', sh);
    forall u ensures OwnOk(s', sh', u) {
      if u != t { assert OwnOk(s, sh, u) && Disjoint(sh, t, u); OwnStays(s, s', sh, sh', u); }
    }
    forall u, v ensures Disjoint(sh', u, v) { assert Disjoint(sh, u, v); }
    forall n ensures FreeOk(s', sh', n) && Located(s', sh', n) {
      assert FreeOk(s, sh, n) && Located(s, sh, n);
      if u :| OwnedBy(sh, n, u) { assert u != t ==> OwnedBy(sh', n, u); }
    }
    SameTails(sh, sh', t);
  }

  /** Line 130 returns the retired node to the free list. */
  lemma PushStep(s: State, sh: Shadow, t: Tid, p: Node) returns (sh': Shadow)
    requires Whole(s, sh) && PcOf(s, t) == D130(p)
    ensures Whole(Goto(s, t, Idle).(free := s.free + {p}), sh')
  {
    var s' := Goto(s, t, Idle).(free := s.free + {p});
    sh' := sh.(own := sh.own - {t});
    PushPlaced(s, s', sh, sh', t, p);
    forall u ensures ThreadOk(s', sh', PcOf(s', u)) {
      assert ThreadOk(s, sh, PcOf(s, u));
      if u != t { ThreadStays(s, s', sh, sh', PcOf(s, u)); }
    }
  }


  // ----- line 74

  ghost predicate EndsTailOf(s: State, sh: Shadow, p: Node, u: Tid) {
    Bears(PcOf(s, u)) && |Own(sh, u)| > 0 && p == Own(sh, u)[|Own(sh, u)| - 1]
  }

  lemma PathEnd(s: State, o: seq<Node>, p: Node)
    requires Path(s, o) && p in o && At(s.mem, p).next.None?
    ensures p == o[|o| - 1]
  {
    forall i | 0 <= i < |o| - 1 ensures At(s.mem, o[i]).next.Some? { assert At(s.mem, o[i]).next == Some(o[i + 1]); }
    var i :| 0 <= i < |o| && o[i] == p;
  }

  lemma OldestFirst(sh: Shadow, o: seq<Node>, p: Node)
    requires Falling(sh, o) && p in o
    ensures Stamp(sh, p) <= Stamp(sh, o[0])
  {
    var i :| 0 <= i < |o| && o[i] == p;
    assert i > 0 ==> Stamp(sh, o[0]) > Stamp(sh, o[i]);
  }

  /** Where line 74 can succeed: at the true last node of the queue, or at the end of the tail that hangs from a node
      which another enqueue holds. */
  lemma LinksWhere(s: State, sh: Shadow, t: Tid, e: Elem, p: Node, c: nat, nc: nat)
    requires Whole(s, sh) && PcOf(s, t) == E74(e, p, c, nc) && At(s.mem, p).next.None?
    ensures p in sh.q ==> p == sh.q[|sh.q| - 1]
    ensures p !in sh.q ==> Stamp(sh, p) > Stamp(sh, e.node) && exists u :: u != t && EndsTailOf(s, sh, p, u)
  {
    assert OwnOk(s, sh, t) && ThreadOk(s, sh, PcOf(s, t));
    if p in sh.q {
      NullIsLast(s, sh.q, p);
    } else {
      assert Located(s, sh, p) && FreeOk(s, sh, p);
      var u :| OwnedBy(sh, p, u);
      assert OwnOk(s, sh, u) && p in Own(sh, u);
      assert Bears(PcOf(s, u));
      PathEnd(s, Own(sh, u), p);
      OldestFirst(sh, Own(sh, u), p);
      assert EndsTailOf(s, sh, p, u);
    }
  }

  lemma PathsJoin(s: State, s': State, a: seq<Node>, b: seq<Node>)
    requires Path(s, a) && Path(s, b) && NoDup(a) && forall n :: n in a ==> n !in b
    requires At(s'.mem, a[|a| - 1]).next == Some(b[0])
    requires forall n :: (n in a || n in b) && n != a[|a| - 1] ==> At(s'.mem, n).next == At(s.mem, n).next
    ensures Path(s', a + b)
  {
    var o := a + b;
    forall i | 0 <= i < |o| - 1 ensures At(s'.mem, o[i]).next == Some(o[i + 1]) {
      if i < |a| - 1 {
        assert a[i] in a && a[i] != a[|a| - 1];
      } else if i >= |a| {
        assert b[i - |a|] in b && a[|a| - 1] in a;
      }
    }
    assert b[|b| - 1] in b && a[|a| - 1] in a;
  }

  lemma FallingIsNoDup(sh: Shadow, o: seq<Node>)
    requires Falling(sh, o)
    ensures NoDup(o)
  {
    forall i, j | 0 <= i < j < |o| ensures o[i] != o[j] { assert Stamp(sh, o[i]) > Stamp(sh, o[j]); }
  }

  /** The shadow after an append: the thread's node and its tail join the queue. */
  function Appended(sh: Shadow, t: Tid, e: Elem): Shadow {
    Shadow(sh.q + Own(sh, t), sh.own - {t}, sh.pop, sh.linked + {e.node})
  }

  lemma AppendChain(s: State, sh: Shadow, t: Tid, e: Elem, p: Node, c: nat, nc: nat)
    requires Whole(s, sh) && PcOf(s, t) == E74(e, p, c, nc) && At(s.mem, p).next.None? && p == sh.q[|sh.q| - 1]
    ensures QueueOk(Link(s, t, e, p, c, nc), Appended(sh, t, e))
  {
    var s', o := Link(s, t, e, p, c, nc), Own(sh, t);
    assert OwnOk(s, sh, t);
    assert Path(s, sh.q);
    PathsJoin(s, s', sh.q, o);
    FallingIsNoDup(sh, o);
    var q' := sh.q + o;
    forall i, j | 0 <= i < j < |q'| ensures q'[i] != q'[j] {
      if i < |sh.q| <= j { assert q'[i] in sh.q && q'[j] in o; }
    }
    forall i | 0 <= i < |q'| ensures q'[i] in s'.mem { if i >= |sh.q| { assert q'[i] in o; } }
  }

  lemma AppendOwn(s: State, sh: Shadow, t: Tid, e: Elem, p: Node, c: nat, nc: nat)
    requires Whole(s, sh) && PcOf(s, t) == E74(e, p, c, nc) && At(s.mem, p).next.None? && p == sh.q[|sh.q| - 1]
    ensures AllOwn(Link(s, t, e, p, c, nc), Appended(sh, t, e)) && AllDisjoint(Appended(sh, t, e))
  {
    var s', sh' := Link(s, t, e, p, c, nc), Appended(sh, t, e);
    NothingOwned(s', sh', t);
    forall u | u != t ensures Own(sh', u) == Own(sh, u) {}
    forall u ensures OwnOk(s', sh', u) {
      if u != t {
        assert OwnOk(s, sh, u) && Disjoint(sh, u, t) && p in sh.q;
        OwnStays(s, s', sh, sh', u);
      }
    }
    forall u, v ensures Disjoint(sh', u, v) { assert Disjoint(sh, u, v); }
  }

  lemma AppendNodes(s: State, sh: Shadow, t: Tid, e: Elem, p: Node, c: nat, nc: nat)
    requires Whole(s, sh) && PcOf(s, t) == E74(e, p, c, nc) && At(s.mem, p).next.None? && p == sh.q[|sh.q| - 1]
    ensures AllNodes(Link(s, t, e, p, c, nc), Appended(sh, t, e))
  {
    var s', sh' := Link(s, t, e, p, c, nc), Appended(sh, t, e);
    assert OwnOk(s, sh, t);
    forall n ensures FreeOk(s', sh', n) && Located(s', sh', n) {
      assert FreeOk(s, sh, n) && Located(s, sh, n);
      if u :| OwnedBy(sh, n, u) { assert u != t ==> OwnedBy(sh', n, u); }
    }
  }

  /** What is linked after thread `t` has linked its node: that node, and what was linked before. */
  lemma NowLinked(sh: Shadow, sh': Shadow, t: Tid, h: Node, n: Node)
    requires AllLinked(sh) && |sh.q| > 0 && |Own(sh, t)| > 0 && Own(sh, t)[0] == h
    requires |sh'.q| > 0 && (n in sh'.q[1..] || (exists u :: InTail(sh', n, u)) <==>
      n in sh.q[1..] || n in Own(sh, t) || exists u :: u != t && InTail(sh, n, u))
    requires sh'.linked == sh.linked + {h}
    ensures n in sh'.linked <==> IsLinked(sh', n)
  {
    assert n in sh.linked <==> IsLinked(sh, n);
    var o := Own(sh, t);
    assert o == [h] + o[1..];
    assert n in o <==> n == h || InTail(sh, n, t);
  }

  lemma AppendLinked(s: State, sh: Shadow, t: Tid, e: Elem)
    requires Placed(s, sh) && Held(PcOf(s, t)) == Some(e.node)
    ensures AllLinked(Appended(sh, t, e))
  {
    var sh', o := Appended(sh, t, e), Own(sh, t);
    assert OwnOk(s, sh, t);
    assert sh'.q[1..] == sh.q[1..] + o && Own(sh', t) == [];
    forall u | u != t ensures Own(sh', u) == Own(sh, u) {}
    forall n ensures n in sh'.linked <==> IsLinked(sh', n) {
      if u :| InTail(sh', n, u) { assert u != t && InTail(sh, n, u); }
      if u :| u != t && InTail(sh, n, u) { assert InTail(sh', n, u); }
      NowLinked(sh, sh', t, e.node, n);
    }
  }

  /** The other threads after line 74 has succeeded on node `p`. */
  lemma LinkThread(s: State, sh: Shadow, t: Tid, e: Elem, p: Node, c: nat, nc: nat, sh': Shadow, pc: Pc)
    requires QueueOk(s, sh) && ThreadOk(s, sh, pc) && At(s.mem, p).next.None?
    requires sh'.pop == sh.pop && forall n :: n in sh.q ==> n in sh'.q
    ensures ThreadOk(Link(s, t, e, p, c, nc), sh', pc)
  {
    NullIsLast(s, sh.q, s.deq.ptr);
  }

  lemma LinkThreads(s: State, sh: Shadow, t: Tid, e: Elem, p: Node, c: nat, nc: nat, sh': Shadow)
    requires Whole(s, sh) && PcOf(s, t) == E74(e, p, c, nc) && At(s.mem, p).next.None?
    requires sh'.pop == sh.pop && forall n :: n in sh.q ==> n in sh'.q
    ensures AllThreads(Link(s, t, e, p, c, nc), sh')
  {
    var s' := Link(s, t, e, p, c, nc);
    forall u ensures ThreadOk(s', sh', PcOf(s', u)) {
      assert ThreadOk(s, sh, PcOf(s, u));
      if u != t { LinkThread(s, sh, t, e, p, c, nc, sh', PcOf(s, u)); }
    }
  }

  lemma LinkConserves(s: State, sh: Shadow, t: Tid, e: Elem, p: Node, c: nat, nc: nat, sh': Shadow)
    requires Whole(s, sh) && PcOf(s, t) == E74(e, p, c, nc) && sh'.linked == sh.linked + {e.node}
    ensures Conserved(Link(s, t, e, p, c, nc), sh')
  {
    var s' := Link(s, t, e, p, c, nc);
    assert OwnOk(s, sh, t);
    FrontNotLinked(s, sh, t);
    assert At(s.mem, e.node).data == e.data;
    LinkBag(s, s', sh.linked, e);
  }

  lemma LinkBag(s: State, s': State, linked: set<Node>, e: Elem)
    requires multiset(s.enqLog) == multiset(s.deqLog) + Bag(s.mem, linked) && e.node !in linked
      && At(s.mem, e.node).data == e.data
    requires s'.enqLog == s.enqLog + [e.data] && s'.deqLog == s.deqLog
    requires forall n: Node :: At(s'.mem, n).data == At(s.mem, n).data
    ensures multiset(s'.enqLog) == multiset(s'.deqLog) + Bag(s'.mem, linked + {e.node})
  {
    BagFrame(s.mem, s'.mem, linked + {e.node});
    BagAdd(s.mem, linked, e.node);
  }

  lemma AppendStep(s: State, sh: Shadow, t: Tid, e: Elem, p: Node, c: nat, nc: nat)
    requires Whole(s, sh) && PcOf(s, t) == E74(e, p, c, nc) && At(s.mem, p).next.None? && p == sh.q[|sh.q| - 1]
    ensures Whole(Link(s, t, e, p, c, nc), Appended(sh, t, e))
  {
    AppendChain(s, sh, t, e, p, c, nc);
    AppendOwn(s, sh, t, e, p, c, nc);
    AppendNodes(s, sh, t, e, p, c, nc);
    AppendLinked(s, sh, t, e);
    LinkThreads(s, sh, t, e, p, c, nc, Appended(sh, t, e));
    LinkConserves(s, sh, t, e, p, c, nc, Appended(sh, t, e));
  }

  /** The shadow after a stale swap: the thread's node and its tail hang from the tail of thread `u`. */
  function Hung(sh: Shadow, t: Tid, e: Elem, u: Tid): Shadow {
    sh.(own := (sh.own - {t})[u := Own(sh, u) + Own(sh, t)], linked := sh.linked + {e.node})
  }

  lemma FallingJoin(sh: Shadow, a: seq<Node>, b: seq<Node>)
    requires Falling(sh, a) && Falling(sh, b) && |a| > 0 && |b| > 0 && Stamp(sh, a[|a| - 1]) > Stamp(sh, b[0])
    ensures Falling(sh, a + b)
  {
    var o := a + b;
    forall i, j | 0 <= i < j < |o| ensures Stamp(sh, o[i]) > Stamp(sh, o[j]) {
      if i < |a| <= j {
        assert i < |a| - 1 ==> Stamp(sh, a[i]) > Stamp(sh, a[|a| - 1]);
        assert j > |a| ==> Stamp(sh, b[0]) > Stamp(sh, b[j - |a|]);
      }
    }
  }

  ghost predicate Hangs(s: State, sh: Shadow, t: Tid, e: Elem, p: Node, c: nat, nc: nat, u: Tid) {
    && Whole(s, sh) && PcOf(s, t) == E74(e, p, c, nc) && At(s.mem, p).next.None?
    && p !in sh.q && Stamp(sh, p) > Stamp(sh, e.node) && u != t && EndsTailOf(s, sh, p, u)
  }

  lemma HungHost(s: State, sh: Shadow, t: Tid, e: Elem, p: Node, c: nat, nc: nat, u: Tid)
    requires Hangs(s, sh, t, e, p, c, nc, u)
    ensures OwnOk(Link(s, t, e, p, c, nc), Hung(sh, t, e, u), u)
  {
    var s', sh', a, b := Link(s, t, e, p, c, nc), Hung(sh, t, e, u), Own(sh, u), Own(sh, t);
    assert OwnOk(s, sh, u) && OwnOk(s, sh, t) && Disjoint(sh, u, t);
    assert PcOf(s', u) == PcOf(s, u);
    HungPath(s, s', sh, a, b);
    HungOwns(sh, t, e, u);
    FallingStays(sh, sh', a + b);
    Hosts(s, s', sh, sh', u, a, b);
  }

  lemma HungPath(s: State, s': State, sh: Shadow, a: seq<Node>, b: seq<Node>)
    requires Path(s, a) && Path(s, b) && Falling(sh, a) && Falling(sh, b) && (forall n :: n in a ==> n !in b)
    requires Stamp(sh, a[|a| - 1]) > Stamp(sh, b[0]) && At(s'.mem, a[|a| - 1]).next == Some(b[0])
    requires forall n: Node :: n != a[|a| - 1] ==> At(s'.mem, n) == At(s.mem, n)
    ensures Path(s', a + b) && Falling(sh, a + b)
  {
    FallingIsNoDup(sh, a);
    PathsJoin(s, s', a, b);
    FallingJoin(sh, a, b);
  }

  lemma Hosts(s: State, s': State, sh: Shadow, sh': Shadow, u: Tid, a: seq<Node>, b: seq<Node>)
    requires OwnOk(s, sh, u) && Own(sh, u) == a && Own(sh', u) == a + b && OwnNodes(s, sh, b) && Bears(PcOf(s, u))
    requires PcOf(s', u) == PcOf(s, u) && Path(s', a + b) && Falling(sh', a + b) && sh'.q == sh.q && s'.free == s.free
    requires (forall n :: n in s.mem ==> n in s'.mem) && At(s'.mem, a[0]).data == At(s.mem, a[0]).data
    ensures OwnOk(s', sh', u)
  {
    assert forall n :: n in a + b ==> n in a || n in b;
  }

  lemma HungOwn(s: State, sh: Shadow, t: Tid, e: Elem, p: Node, c: nat, nc: nat, u: Tid)
    requires Hangs(s, sh, t, e, p, c, nc, u)
    ensures AllOwn(Link(s, t, e, p, c, nc), Hung(sh, t, e, u))
  {
    var s', sh' := Link(s, t, e, p, c, nc), Hung(sh, t, e, u);
    HungOwns(sh, t, e, u);
    NothingOwned(s', sh', t);
    forall v ensures OwnOk(s', sh', v) {
      if v == u {
        HungHost(s, sh, t, e, p, c, nc, u);
      } else if v != t {
        HungOther(s, sh, t, e, p, c, nc, u, v);
      }
    }
  }

  lemma HungOther(s: State, sh: Shadow, t: Tid, e: Elem, p: Node, c: nat, nc: nat, u: Tid, v: Tid)
    requires Hangs(s, sh, t, e, p, c, nc, u) && v != t && v != u
    ensures OwnOk(Link(s, t, e, p, c, nc), Hung(sh, t, e, u), v)
  {
    HungOwns(sh, t, e, u);
    assert OwnOk(s, sh, v) && Disjoint(sh, v, u) && p in Own(sh, u);
    OwnStays(s, Link(s, t, e, p, c, nc), sh, Hung(sh, t, e, u), v);
  }

  lemma HungOwns(sh: Shadow, t: Tid, e: Elem, u: Tid)
    requires t != u
    ensures var sh' := Hung(sh, t, e, u);
      && Own(sh', u) == Own(sh, u) + Own(sh, t) && Own(sh', t) == []
      && forall v :: v != t && v != u ==> Own(sh', v) == Own(sh, v)
  {
  }

  lemma HungDisjoint(sh: Shadow, t: Tid, e: Elem, u: Tid)
    requires AllDisjoint(sh) && t != u
    ensures AllDisjoint(Hung(sh, t, e, u))
  {
    var sh' := Hung(sh, t, e, u);
    HungOwns(sh, t, e, u);
    assert forall n :: n in Own(sh', u) ==> n in Own(sh, u) || n in Own(sh, t);
    forall v, w ensures Disjoint(sh', v, w) {
      assert Disjoint(sh, v, w) && Disjoint(sh, t, w) && Disjoint(sh, v, t);
    }
  }

  lemma HungNodes(s: State, sh: Shadow, t: Tid, e: Elem, p: Node, c: nat, nc: nat, u: Tid)
    requires Hangs(s, sh, t, e, p, c, nc, u)
    ensures AllNodes(Link(s, t, e, p, c, nc), Hung(sh, t, e, u))
  {
    var s', sh' := Link(s, t, e, p, c, nc), Hung(sh, t, e, u);
    assert OwnOk(s, sh, u) && p in Own(sh, u);
    forall n ensures FreeOk(s', sh', n) && Located(s', sh', n) {
      assert FreeOk(s, sh, n) && Located(s, sh, n);
      if v :| OwnedBy(sh, n, v) { assert OwnedBy(sh', n, if v == t then u else v); }
    }
  }

  lemma HungLinked(s: State, sh: Shadow, t: Tid, e: Elem, u: Tid)
    requires Placed(s, sh) && Held(PcOf(s, t)) == Some(e.node) && u != t && |Own(sh, u)| > 0
    ensures AllLinked(Hung(sh, t, e, u))
  {
    var sh', a, o := Hung(sh, t, e, u), Own(sh, u), Own(sh, t);
    assert OwnOk(s, sh, t);
    assert Own(sh', u) == a + o && (a + o)[1..] == a[1..] + o && Own(sh', t) == [];
    forall v | v != t && v != u ensures Own(sh', v) == Own(sh, v) {}
    forall n ensures n in sh'.linked <==> IsLinked(sh', n) {
      if v :| InTail(sh', n, v) { assert v != t && (InTail(sh, n, v) || n in o); }
      if v :| v != t && InTail(sh, n, v) { assert InTail(sh', n, v); }
      assert n in o ==> InTail(sh', n, u);
      NowLinked(sh, sh', t, e.node, n);
    }
  }

  lemma HangStep(s: State, sh: Shadow, t: Tid, e: Elem, p: Node, c: nat, nc: nat, u: Tid)
    requires Hangs(s, sh, t, e, p, c, nc, u)
    ensures Whole(Link(s, t, e, p, c, nc), Hung(sh, t, e, u))
  {
    var s', sh' := Link(s, t, e, p, c, nc), Hung(sh, t, e, u);
    ChainStays(s, s', sh);
    assert QueueOk(s', sh');
    HungOwn(s, sh, t, e, p, c, nc, u);
    HungDisjoint(sh, t, e, u);
    HungNodes(s, sh, t, e, p, c, nc, u);
    HungLinked(s, sh, t, e, u);
    LinkThreads(s, sh, t, e, p, c, nc, sh');
    LinkConserves(s, sh, t, e, p, c, nc, sh');
  }


  // ----- line 122

  /** The shadow after a dequeue: the dummy, stamped with the number of this dequeue, is the thread's. */
  function Taken(s: State, sh: Shadow, t: Tid): Shadow
    requires |sh.q| > 1
  {
    Shadow(sh.q[1..], sh.own[t := [sh.q[0]]], sh.pop[sh.q[0] := |s.deqLog| + 1], sh.linked - {sh.q[1]})
  }

  ghost predicate Takes(s: State, sh: Shadow, t: Tid, p: Node, c: nat, n: Node, x: Data) {
    && Whole(s, sh) && PcOf(s, t) == D122(p, c, n, x) && s.deq == Pair(p, c)
    && |sh.q| > 1 && p == sh.q[0] && n == sh.q[1] && At(s.mem, p).next == Some(n) && x == At(s.mem, n).data
    && s.enq.ptr != p
  }

  lemma TakesFirst(s: State, sh: Shadow, t: Tid, p: Node, c: nat, n: Node, x: Data)
    requires Whole(s, sh) && PcOf(s, t) == D122(p, c, n, x) && s.deq == Pair(p, c)
    ensures Takes(s, sh, t, p, c, n, x)
  {
    assert ThreadOk(s, sh, PcOf(s, t));
    NullIsLast(s, sh.q, p);
    assert At(s.mem, sh.q[0]).next == Some(n);
  }

  lemma TakenQueue(s: State, sh: Shadow, t: Tid, p: Node, c: nat, n: Node, x: Data)
    requires Takes(s, sh, t, p, c, n, x)
    ensures QueueOk(Take(s, t, n, x), Taken(s, sh, t)) && p !in sh.q[1..]
    ensures forall m :: m in sh.q <==> m == p || m in sh.q[1..]
  {
    var q' := sh.q[1..];
    TakeMembers(sh.q);
    assert forall i :: 0 <= i < |q'| ==> q'[i] == sh.q[i + 1];
    assert forall i :: 0 <= i < |q'| - 1 ==> At(s.mem, q'[i]).next == Some(q'[i + 1]);
  }

  lemma TakenOwn(s: State, sh: Shadow, t: Tid, p: Node, c: nat, n: Node, x: Data)
    requires Takes(s, sh, t, p, c, n, x) && p !in sh.q[1..] && forall m :: m in sh.q <==> m == p || m in sh.q[1..]
    ensures AllOwn(Take(s, t, n, x), Taken(s, sh, t)) && AllDisjoint(Taken(s, sh, t))
  {
    var s', sh' := Take(s, t, n, x), Taken(s, sh, t);
    assert FreeOk(s, sh, p) && OwnOk(s, sh, t);
    OneOwned(s', sh', t, p);
    forall u | u != t ensures Own(sh', u) == Own(sh, u) && p !in Own(sh, u) { assert OwnOk(s, sh, u); }
    forall u ensures OwnOk(s', sh', u) {
      if u != t { TakenOther(s, sh, t, p, c, n, x, u); }
    }
    forall u, v ensures Disjoint(sh', u, v) { assert Disjoint(sh, u, v); }
  }

  lemma TakenOther(s: State, sh: Shadow, t: Tid, p: Node, c: nat, n: Node, x: Data, u: Tid)
    requires Takes(s, sh, t, p, c, n, x) && (forall m :: m in sh.q <==> m == p || m in sh.q[1..]) && u != t
    ensures OwnOk(Take(s, t, n, x), Taken(s, sh, t), u)
  {
    assert OwnOk(s, sh, u);
    OwnStays(s, Take(s, t, n, x), sh, Taken(s, sh, t), u);
  }

  lemma TakenNodes(s: State, sh: Shadow, t: Tid, p: Node, c: nat, n: Node, x: Data)
    requires Takes(s, sh, t, p, c, n, x) && p !in sh.q[1..] && forall m :: m in sh.q <==> m == p || m in sh.q[1..]
    ensures AllNodes(Take(s, t, n, x), Taken(s, sh, t))
  {
    var s', sh' := Take(s, t, n, x), Taken(s, sh, t);
    assert OwnOk(s, sh, t);
    forall m ensures FreeOk(s', sh', m) && Located(s', sh', m) {
      assert FreeOk(s, sh, m) && Located(s, sh, m);
      assert m == p ==> OwnedBy(sh', m, t);
      if u :| OwnedBy(sh, m, u) { assert OwnedBy(sh', m, u); }
    }
  }

  lemma TakenLinked(s: State, sh: Shadow, t: Tid, p: Node, c: nat, n: Node, x: Data)
    requires Takes(s, sh, t, p, c, n, x)
    ensures AllLinked(Taken(s, sh, t)) && n in sh.linked
  {
    var sh', q' := Taken(s, sh, t), sh.q[1..];
    assert OwnOk(s, sh, t);
    assert q' == [n] + q'[1..] && n !in q'[1..] && n in sh.q;
    assert n in sh.linked <==> IsLinked(sh, n);
    forall m, u ensures InTail(sh', m, u) <==> InTail(sh, m, u) {}
    forall m, u | InTail(sh, m, u) ensures m != n { assert OwnOk(s, sh, u) && m in Own(sh, u); }
    TailsApart(sh, sh', n);
  }

  /** The first element leaves the linked nodes. */
  lemma TailsApart(sh: Shadow, sh': Shadow, n: Node)
    requires AllLinked(sh) && sh'.linked == sh.linked - {n} && |sh.q| > 1 && sh'.q == sh.q[1..]
    requires sh'.q == [n] + sh'.q[1..] && n !in sh'.q[1..]
    requires (forall m, u :: InTail(sh', m, u) <==> InTail(sh, m, u)) && forall m, u :: InTail(sh, m, u) ==> m != n
    ensures AllLinked(sh')
  {
    forall m ensures m in sh'.linked <==> IsLinked(sh', m) {
      assert m in sh.linked <==> IsLinked(sh, m);
      if u :| InTail(sh, m, u) { assert InTail(sh', m, u); }
    }
  }

  lemma TakenThread(s: State, sh: Shadow, t: Tid, p: Node, c: nat, n: Node, x: Data, u: Tid)
    requires Takes(s, sh, t, p, c, n, x) && forall m :: m in sh.q <==> m == p || m in sh.q[1..]
    requires u != t
    ensures ThreadOk(Take(s, t, n, x), Taken(s, sh, t), PcOf(s, u))
  {
    var pc := PcOf(s, u);
    assert ThreadOk(s, sh, pc) && OwnOk(s, sh, u);
    assert Linking(pc) ==> pc.e.node in Own(sh, u) && Located(s, sh, pc.e.node);
  }

  /** Line 122: a successful swap retires the dummy and yields the first element of the queue. */
  lemma TakeStep(s: State, sh: Shadow, t: Tid, p: Node, c: nat, n: Node, x: Data) returns (sh': Shadow)
    requires Whole(s, sh) && PcOf(s, t) == D122(p, c, n, x) && s.deq == Pair(p, c)
    ensures |sh.q| > 1 && n == sh.q[1] && x == At(s.mem, sh.q[1]).data
    ensures Whole(Take(s, t, n, x), sh')
  {
    TakesFirst(s, sh, t, p, c, n, x);
    var s' := Take(s, t, n, x);
    sh' := Taken(s, sh, t);
    TakenQueue(s, sh, t, p, c, n, x);
    TakenOwn(s, sh, t, p, c, n, x);
    TakenNodes(s, sh, t, p, c, n, x);
    TakenLinked(s, sh, t, p, c, n, x);
    forall u ensures ThreadOk(s', sh', PcOf(s', u)) {
      if u != t { TakenThread(s, sh, t, p, c, n, x, u); }
    }
    assert sh.linked == sh'.linked + {n};
    BagAdd(s.mem, sh'.linked, n);
  }

  // ----- every step

  lemma EnqueueKeeps(s: State, sh: Shadow, t: Tid)
    requires Whole(s, sh)
    requires var pc := PcOf(s, t); pc.E66? || pc.E67? || pc.E68? || pc.E69? || pc.E71p? || pc.E71c?
    ensures Whole(Advance(s, t, Go), sh)
  {
    var pc := PcOf(s, t);
    assert ThreadOk(s, sh, pc) && OwnOk(s, sh, t);
    var s' := Advance(s, t, Go);
    LocalStep(s, s', sh, t, PcOf(s', t));
  }

  lemma SwapKeeps(s: State, sh: Shadow, t: Tid) returns (sh': Shadow)
    requires Whole(s, sh)
    requires var pc := PcOf(s, t); pc.E78? || pc.E83? || pc.D117?
    ensures Whole(Advance(s, t, Go), sh')
  {
    sh' := sh;
    assert ThreadOk(s, sh, PcOf(s, t));
    match PcOf(s, t)
    case E78(e, p, c, n) =>
      if s.enq == Pair(p, c) {
        SwingStep(s, sh, t, n, E66(e));
      } else {
        LocalStep(s, Goto(s, t, E66(e)), sh, t, E66(e));
      }
    case E83(e, p, c) =>
      if s.enq == Pair(p, c) {
        SwingStep(s, sh, t, e.node, Idle);
      } else {
        LocalStep(s, Goto(s, t, Idle), sh, t, Idle);
      }
    case D117(ep, ec, n) =>
      if s.enq == Pair(ep, ec) { SwingStep(s, sh, t, n, D95); } else { LocalStep(s, Goto(s, t, D95), sh, t, D95); }
  }

  lemma LinkKeeps(s: State, sh: Shadow, t: Tid) returns (sh': Shadow)
    requires Whole(s, sh) && PcOf(s, t).E74?
    ensures Whole(Advance(s, t, Go), sh')
  {
    var pc := PcOf(s, t);
    sh' := sh;
    Swap74Is(s, [], t);
    if CanLink(s, pc.e, pc.p, pc.nc) {
      LinksWhere(s, sh, t, pc.e, pc.p, pc.c, pc.nc);
      if pc.p in sh.q {
        AppendStep(s, sh, t, pc.e, pc.p, pc.c, pc.nc);
        sh' := Appended(sh, t, pc.e);
      } else {
        var u :| u != t && EndsTailOf(s, sh, pc.p, u);
        HangStep(s, sh, t, pc.e, pc.p, pc.c, pc.nc, u);
        sh' := Hung(sh, t, pc.e, u);
      }
    } else {
      LocalStep(s, Goto(s, t, E66(pc.e)), sh, t, E66(pc.e));
    }
  }

  /** What a dequeue reads is true when it reads it. */
  lemma ReadsOk(s: State, sh: Shadow, t: Tid, pc: Pc)
    requires QueueOk(s, sh) && ThreadOk(s, sh, PcOf(s, t))
    requires match PcOf(s, t)
      case D95 => pc == D96(s.deq.ptr)
      case D96(p) => pc == D97(p, s.deq.ctr)
      case D97(p, c) => pc == D98(p, c, s.enq.ptr)
      case D98(p, c, ep) => pc == D99(p, c, ep, s.enq.ctr)
      case D99(p, c, ep, ec) => pc == D102p(p, c, ep, ec, At(s.mem, p).next)
      case _ => false
    ensures ThreadOk(s, sh, pc)
  {
    NullIsLast(s, sh.q, s.deq.ptr);
  }

  lemma DequeueReadKeeps(s: State, sh: Shadow, t: Tid)
    requires Whole(s, sh)
    requires var pc := PcOf(s, t); pc.D95? || pc.D96? || pc.D97? || pc.D98? || pc.D99?
    ensures Whole(Advance(s, t, Go), sh)
  {
    assert ThreadOk(s, sh, PcOf(s, t));
    var s' := Advance(s, t, Go);
    ReadsOk(s, sh, t, PcOf(s', t));
    LocalStep(s, s', sh, t, PcOf(s', t));
  }

  lemma ChecksOk(s: State, sh: Shadow, t: Tid, pc: Pc)
    requires ThreadOk(s, sh, PcOf(s, t))
    requires match PcOf(s, t)
      case D102p(p, c, ep, ec, np) => pc == if s.deq.ptr == p then D102c(p, c, ep, ec, np) else D95
      case D102c(p, c, ep, ec, np) => pc == if s.deq.ctr == c then Verdict102(p, c, ep, ec, np) else D95
      case D120(p, c, np) => np.Some? && pc == D122(p, c, np.value, At(s.mem, np.value).data)
      case _ => false
    ensures ThreadOk(s, sh, pc)
  {
  }

  lemma DequeueCheckKeeps(s: State, sh: Shadow, t: Tid)
    requires Whole(s, sh)
    requires var pc := PcOf(s, t); pc.D102p? || pc.D102c? || pc.D120?
    ensures Whole(Advance(s, t, Go), sh)
  {
    assert ThreadOk(s, sh, PcOf(s, t));
    var s' := Advance(s, t, Go);
    ChecksOk(s, sh, t, PcOf(s', t));
    LocalStep(s, s', sh, t, PcOf(s', t));
  }

  lemma Swap122Is(s: State, t: Tid)
    requires PcOf(s, t).D122?
    ensures var pc := PcOf(s, t);
      Advance(s, t, Go) == if s.deq == Pair(pc.p, pc.c) then Take(s, t, pc.n, pc.x) else Goto(s, t, D95)
  {
  }

  lemma DequeueSwapKeeps(s: State, sh: Shadow, t: Tid) returns (sh': Shadow)
    requires Whole(s, sh) && PcOf(s, t).D122?
    ensures Whole(Advance(s, t, Go), sh')
  {
    var pc := PcOf(s, t);
    Swap122Is(s, t);
    if s.deq == Pair(pc.p, pc.c) {
      sh' := TakeStep(s, sh, t, pc.p, pc.c, pc.n, pc.x);
    } else {
      sh' := sh;
      LocalStep(s, Goto(s, t, D95), sh, t, D95);
    }
  }

  lemma ObtainKeeps(s: State, sh: Shadow, t: Tid, ch: Choice) returns (sh': Shadow)
    requires Whole(s, sh) && Enabled(s, t, ch) && PcOf(s, t).Pop238?
    ensures Whole(Advance(s, t, ch), sh')
  {
    var s', d := Advance(s, t, ch), PcOf(s, t).data;
    if ch.TakeNone? {
      sh' := sh;
      LocalStep(s, s', sh, t, Idle);
    } else {
      sh' := ObtainStep(s, s', sh, t, Elem(ch.node, d));
    }
  }

  lemma FillKeeps(s: State, sh: Shadow, t: Tid)
    requires Whole(s, sh)
    requires var pc := PcOf(s, t); pc.Inc260? || pc.Clear261? || pc.Inc262? || pc.Store262? || pc.Store264?
    ensures Whole(Advance(s, t, Go), sh)
  {
    var pc, s' := PcOf(s, t), Advance(s, t, Go);
    if pc.Inc260? || pc.Inc262? {
      LocalStep(s, s', sh, t, PcOf(s', t));
    } else {
      FillStep(s, sh, t, At(s'.mem, pc.e.node), PcOf(s', t));
    }
  }

  /** Every step of every thread keeps the invariant, torn reads or not. */
  lemma StepKeeps(s: State, sh: Shadow, t: Tid, ch: Choice) returns (sh': Shadow)
    requires Whole(s, sh) && Enabled(s, t, ch)
    ensures Whole(Advance(s, t, ch), sh')
  {
    var pc := PcOf(s, t);
    sh' := sh;
    if pc.E66? || pc.E67? || pc.E68? || pc.E69? || pc.E71p? || pc.E71c? {
      EnqueueKeeps(s, sh, t);
    } else if pc.E74? {
      sh' := LinkKeeps(s, sh, t);
    } else if pc.E78? || pc.E83? || pc.D117? {
      sh' := SwapKeeps(s, sh, t);
    } else if pc.D95? || pc.D96? || pc.D97? || pc.D98? || pc.D99? {
      DequeueReadKeeps(s, sh, t);
    } else if pc.D102p? || pc.D102c? || pc.D120? {
      DequeueCheckKeeps(s, sh, t);
    } else if pc.D122? {
      sh' := DequeueSwapKeeps(s, sh, t);
    } else if pc.D130? {
      sh' := PushStep(s, sh, t, pc.p);
    } else if pc.Pop238? {
      sh' := ObtainKeeps(s, sh, t, ch);
    } else if pc.Idle? {
      LocalStep(s, Advance(s, t, ch), sh, t, PcOf(Advance(s, t, ch), t));
    } else {
      FillKeeps(s, sh, t);
    }
  }


  // ----- whole runs

  lemma InitOk(s: State) returns (sh: Shadow)
    requires Init(s)
    ensures Whole(s, sh)
  {
    sh := Shadow([s.deq.ptr], map[], map[], {});
    forall t ensures OwnOk(s, sh, t) && ThreadOk(s, sh, PcOf(s, t)) { assert PcOf(s, t) == Idle; }
    forall n ensures !IsLinked(sh, n) { forall t ensures !InTail(sh, n, t) {} }
    forall n ensures FreeOk(s, sh, n) && Located(s, sh, n) {}
    forall t, u ensures Disjoint(sh, t, u) {}
  }

  /** In every state of every run the invariant holds. */
  lemma {:induction false} RunKeeps(run: seq<State>, acts: seq<Act>, i: nat) returns (sh: Shadow)
    requires IsRun(run, acts) && i < |run|
    ensures Whole(run[i], sh)
  {
    if i == 0 {
      sh := InitOk(run[0]);
    } else {
      sh := RunKeeps(run, acts, i - 1);
      assert Moves(run[i - 1], acts[i - 1], run[i]);
      sh := StepKeeps(run[i - 1], sh, acts[i - 1].t, acts[i - 1].ch);
    }
  }

  /** Line 120 never dereferences a null `next`, in any run. */
  lemma NoNullDereference(run: seq<State>, acts: seq<Act>, i: nat, t: Tid)
    requires IsRun(run, acts) && i < |run|
    ensures PcOf(run[i], t) != Fault
    ensures PcOf(run[i], t).D120? ==> PcOf(run[i], t).np.Some?
  {
    var sh := RunKeeps(run, acts, i);
    assert ThreadOk(run[i], sh, PcOf(run[i], t));
  }

  /** Node `n` hangs from the node that an enqueue in progress holds: `o` is that node and the list it leads to. */
  ghost predicate HangsFrom(s: State, n: Node, t: Tid, o: seq<Node>) {
    Bears(PcOf(s, t)) && Path(s, o) && NoDup(o) && Held(PcOf(s, t)) == Some(o[0]) && n in o[1..]
  }

  /** In every run the queue in memory is a list from the dummy on, without cycles, that the enqueue pointer is on, and
      no element is lost or invented: those enqueued are those dequeued, those in the queue and those that hang from a
      node which an enqueue in progress holds. */
  lemma ElementsConserved(run: seq<State>, acts: seq<Act>, i: nat) returns (q: seq<Node>, linked: set<Node>)
    requires IsRun(run, acts) && i < |run|
    ensures Chain(run[i], q) && run[i].enq.ptr in q
    ensures multiset(run[i].enqLog) == multiset(run[i].deqLog) + Bag(run[i].mem, linked)
    ensures forall n :: n in linked <==> n in q[1..] || exists t, o :: HangsFrom(run[i], n, t, o)
  {
    var s := run[i];
    var sh := RunKeeps(run, acts, i);
    q, linked := sh.q, sh.linked;
    forall n ensures n in linked <==> n in q[1..] || exists t, o :: HangsFrom(s, n, t, o) {
      assert n in linked <==> IsLinked(sh, n);
      if t :| InTail(sh, n, t) {
        assert OwnOk(s, sh, t);
        FallingIsNoDup(sh, Own(sh, t));
        assert HangsFrom(s, n, t, Own(sh, t));
      }
      if t, o :| HangsFrom(s, n, t, o) {
        assert OwnOk(s, sh, t);
        FallingIsNoDup(sh, Own(sh, t));
        SamePath(s, o, Own(sh, t));
        assert InTail(sh, n, t);
      }
    }
  }

  /** Memory determines the list that starts at a node. */
  lemma {:induction false} SamePath(s: State, a: seq<Node>, b: seq<Node>)
    requires Path(s, a) && Path(s, b) && a[0] == b[0]
    ensures a == b
  {
    assert |a| > 1 ==> At(s.mem, a[0]).next == Some(a[1]);
    assert |b| > 1 ==> At(s.mem, b[0]).next == Some(b[1]);
    if |a| > 1 {
      assert forall i :: 0 <= i < |a[1..]| - 1 ==> At(s.mem, a[1..][i]).next == Some(a[1..][i + 1]);
      assert forall i :: 0 <= i < |b[1..]| - 1 ==> At(s.mem, b[1..][i]).next == Some(b[1..][i + 1]);
      SamePath(s, a[1..], b[1..]);
      assert a == [a[0]] + a[1..] && b == [b[0]] + b[1..];
    }
  }

  /** When no enqueue is in progress, exactly the elements not yet dequeued are in the queue. */
  lemma QuiescentContents(run: seq<State>, acts: seq<Act>, i: nat) returns (q: seq<Node>)
    requires IsRun(run, acts) && i < |run| && forall t :: !InEnqueue(PcOf(run[i], t))
    ensures Chain(run[i], q)
    ensures multiset(run[i].enqLog) == multiset(run[i].deqLog) + multiset(Contents(run[i], q))
  {
    var s, linked := run[i], {};
    q, linked := ElementsConserved(run, acts, i);
    assert forall n :: n in linked <==> n in q[1..];
    assert NoDup(q[1..]);
    BagOfList(s, q[1..], linked);
    assert Contents(s, q) == Datas(s, q[1..]);
  }

  ghost function Datas(s: State, l: seq<Node>): seq<Data> {
    seq(|l|, i requires 0 <= i < |l| => At(s.mem, l[i]).data)
  }

  lemma DatasSnoc(s: State, l: seq<Node>, x: Node)
    ensures multiset(Datas(s, l + [x])) == multiset(Datas(s, l)) + multiset{At(s.mem, x).data}
  {
    assert Datas(s, l + [x]) == Datas(s, l) + [At(s.mem, x).data];
  }

  lemma LastOnce(l: seq<nat>)
    requires NoDup(l) && l != []
    ensures l[|l| - 1] !in l[..|l| - 1] && NoDup(l[..|l| - 1]) && l == l[..|l| - 1] + [l[|l| - 1]]
  {
  }

  lemma {:induction false} BagOfList(s: State, l: seq<Node>, ns: set<Node>)
    requires NoDup(l) && forall n :: n in ns <==> n in l
    ensures Bag(s.mem, ns) == multiset(Datas(s, l))
  {
    if l == [] {
      assert ns == {} && Datas(s, l) == [];
    } else {
      var rest, x := l[..|l| - 1], l[|l| - 1];
      LastOnce(l);
      BagOfList(s, rest, ns - {x});
      BagAdd(s.mem, ns - {x}, x);
      assert ns == (ns - {x}) + {x};
      DatasSnoc(s, rest, x);
    }
  }

  // ----- an "empty" answer

  predicate InDequeue(pc: Pc) {
    || pc.D95? || pc.D96? || pc.D97? || pc.D98? || pc.D99? || pc.D102p? || pc.D102c?
    || pc.D117? || pc.D120? || pc.D122? || pc.D130?
  }

  /** Nothing is linked behind the dummy. */
  ghost predicate Empty(s: State) { At(s.mem, s.deq.ptr).next.None? }

  /** A step never moves the dequeue pair backwards, and a pair that moved has a larger counter. */
  lemma DequeueCounterGrows(s: State, t: Tid, ch: Choice)
    requires Enabled(s, t, ch)
    ensures Advance(s, t, ch).deq == s.deq || Advance(s, t, ch).deq.ctr > s.deq.ctr
  {
    if PcOf(s, t).D122? { Swap122Is(s, t); }
  }

  /** Thread `t` found the queue empty: its `next` read returned null while the dequeue pair it holds was current. */
  ghost predicate SawEmpty(s: State, t: Tid) {
    var pc := PcOf(s, t);
    (pc.D102p? || pc.D102c?) && pc.np.None? && s.deq == Pair(pc.p, pc.c)
  }

  /** States `k..i` all belong to one dequeue call of `t`, and the queue was empty in state `k`. */
  ghost predicate EmptyDuring(run: seq<State>, t: Tid, k: nat, i: nat) {
    && k <= i < |run| && Empty(run[k])
    && forall m :: k <= m <= i ==> InDequeue(PcOf(run[m], t))
  }

  lemma OthersStay(s: State, t: Tid, a: Act)
    requires Enabled(s, a.t, a.ch) && a.t != t
    ensures PcOf(Advance(s, a.t, a.ch), t) == PcOf(s, t)
  {
  }

  lemma NullReadBy(s: State, t: Tid, ch: Choice)
    requires Enabled(s, t, ch) && SawEmpty(Advance(s, t, ch), t)
    ensures Advance(s, t, ch).deq == s.deq && InDequeue(PcOf(s, t))
    ensures SawEmpty(s, t) || Empty(s)
  {
    match PcOf(s, t)
    case D99(p, c, ep, ec) =>
    case D102p(p, c, ep, ec, np) =>
    case _ =>
  }

  /** Going back one step, either the null was read just now, from the dummy, or it had been seen before. */
  lemma SawEmptyBefore(s: State, sh: Shadow, t: Tid, a: Act)
    requires Whole(s, sh) && Enabled(s, a.t, a.ch) && SawEmpty(Advance(s, a.t, a.ch), t)
    ensures InDequeue(PcOf(s, t)) && (Empty(s) || SawEmpty(s, t))
  {
    if a.t == t {
      NullReadBy(s, t, a.ch);
    } else {
      OthersStay(s, t, a);
      DequeueCounterGrows(s, a.t, a.ch);
      assert ThreadOk(s, sh, PcOf(s, t));
    }
  }

  lemma OneBack(run: seq<State>, acts: seq<Act>, t: Tid, i: nat)
    requires IsRun(run, acts) && 0 < i < |run| && SawEmpty(run[i], t)
    ensures InDequeue(PcOf(run[i - 1], t)) && (Empty(run[i - 1]) || SawEmpty(run[i - 1], t))
  {
    var sh := RunKeeps(run, acts, i - 1);
    assert Moves(run[i - 1], acts[i - 1], run[i]);
    SawEmptyBefore(run[i - 1], sh, t, acts[i - 1]);
  }

  lemma NotAtStart(s: State, t: Tid)
    requires Init(s)
    ensures !SawEmpty(s, t)
  {
    assert PcOf(s, t) == Idle;
  }

  lemma {:induction false} EmptyWitness(run: seq<State>, acts: seq<Act>, t: Tid, i: nat) returns (k: nat)
    requires IsRun(run, acts) && i < |run| && SawEmpty(run[i], t)
    ensures EmptyDuring(run, t, k, i)
  {
    NotAtStart(run[0], t);
    OneBack(run, acts, t, i);
    if Empty(run[i - 1]) {
      k := i - 1;
    } else {
      k := EmptyWitness(run, acts, t, i - 1);
    }
  }

  /** Lines 103-114: when a dequeue answers "empty", nothing was linked behind the dummy at some instant of that
      call. */
  lemma EmptyAnswerWasTrue(run: seq<State>, acts: seq<Act>, i: nat) returns (k: nat)
    requires IsRun(run, acts) && i < |acts|
    requires PcOf(run[i], acts[i].t).D102c? && PcOf(run[i + 1], acts[i].t).Idle?
    ensures EmptyDuring(run, acts[i].t, k, i)
  {
    assert Moves(run[i], acts[i], run[i + 1]);
    var sh := RunKeeps(run, acts, i);
    assert ThreadOk(run[i], sh, PcOf(run[i], acts[i].t));
    k := EmptyWitness(run, acts, acts[i].t, i);
  }

  /** In a tear-free run everything enqueued by then had been dequeued at that instant. */
  lemma EmptyMeansAllTaken(run: seq<State>, acts: seq<Act>, i: nat) returns (k: nat)
    requires IsRun(run, acts) && TearFree(run, acts) && i < |acts|
    requires PcOf(run[i], acts[i].t).D102c? && PcOf(run[i + 1], acts[i].t).Idle?
    ensures EmptyDuring(run, acts[i].t, k, i) && run[k].enqLog == run[k].deqLog
  {
    k := EmptyAnswerWasTrue(run, acts, i);
    RunIsFifo(run, acts, k);
    NullIsLast(run[k], ChainAt(run, acts, k), run[k].deq.ptr);
  }
}
