/** The ring buffer of basic/lf_ringbuffer.c: N elements that circulate between a freelist and a queue whose
    N + 1 nodes circulate between the queue and a freelist of its own (basic/lf_queue.c `queue_new`,
    `queue_enqueue`, `queue_dequeue`).

    Each freelist push or pop, and each linking or unlinking of a queue node, is one step; any number of calls
    interleave.  Two calls that link nodes at the same time may, as `LockFreeQueueEveryRun` shows, link one's node
    not to the queue but behind the other's node (`Hang`), with which it then joins the queue.  A caller puts back
    only an element it was given, and puts it back once. */
module RingBuffer {
  import opened Prelude

  type Elem = nat
  type Node = nat
  type Tid = nat

  /** A queue node and the element it holds. */
  datatype Link = Link(node: Node, elem: Elem)

  /** A place for an element: `Queued(k)` is the k-th element that ever joined the queue, `Hanging(t, k)` the k-th
      behind the node that thread `t` is linking. */
  datatype Loc = Free(i: nat) | Queued(k: nat) | Held | Moving(t: Tid) | Hanging(t: Tid, k: nat)

  /** What a queue node is used for, as a history variable. */
  datatype Use = Spare(i: nat) | Dummy | Carrying(e: Elem)

  datatype Pc =
    | Idle
    | ReadDequeue
    | WritePop
    | WriteDequeue
    | Release(e: Elem, n: Node)
    | PushFree(e: Elem)
    | PopNode(e: Elem)
    | LinkNode(e: Elem, n: Node, tail: seq<Link>)

  /** `lost` collects elements whose enqueue failed; `first` counts dequeues; `loc`, `carrier` and `use` are history
      variables. */
  datatype State = State(
    all: set<Elem>, nodes: set<Node>,
    free: seq<Elem>, spare: seq<Node>, queue: seq<Link>, dummy: Node, pcs: map<Tid, Pc>,
    held: set<Elem>, lost: set<Elem>,
    first: nat, loc: map<Elem, Loc>, carrier: map<Elem, Node>, use: map<Node, Use>)

  datatype Act =
    | GetRead(t: Tid)
    | GetWrite(t: Tid)
    | PutRead(t: Tid, e: Elem)
    | PutWrite(t: Tid, e: Elem)
    | Run(t: Tid)
    | Hang(t: Tid, u: Tid)

  function PcOf(s: State, t: Tid): Pc {
    if t in s.pcs then s.pcs[t] else Idle
  }

  function LocOf(s: State, e: Elem): Loc {
    if e in s.loc then s.loc[e] else Held
  }

  function UseOf(s: State, n: Node): Use {
    if n in s.use then s.use[n] else Dummy
  }

  function Goto(s: State, t: Tid, pc: Pc): State {
    s.(pcs := s.pcs[t := pc])
  }

  predicate Enabled(s: State, a: Act) {
    match a
    case GetRead(t) => PcOf(s, t).Idle?
    case GetWrite(t) => PcOf(s, t).Idle?
    case PutRead(t, e) => PcOf(s, t).Idle? && e in s.held
    case PutWrite(t, e) => PcOf(s, t).Idle? && e in s.held
    case Run(t) => !PcOf(s, t).Idle?
    case Hang(t, u) => t != u && PcOf(s, t).LinkNode? && PcOf(s, u).LinkNode?
  }

  /** The caller gives an element back. */
  function Take(s: State, t: Tid, e: Elem, pc: Pc): State {
    Goto(s, t, pc).(held := s.held - {e}, loc := s.loc[e := Moving(t)])
  }

  /** The caller is given an element. */
  function Give(s: State, t: Tid, e: Elem): State {
    Goto(s, t, Idle).(held := s.held + {e}, loc := s.loc[e := Held])
  }

  /** `queue_dequeue` on a non-empty queue: the first node becomes the dummy and the old dummy is to be freed. */
  function Dequeued(s: State, t: Tid): State
    requires |s.queue| > 0
  {
    var l := s.queue[0];
    Goto(s, t, Release(l.elem, s.dummy)).(
      queue := s.queue[1..], first := s.first + 1, dummy := l.node,
      loc := s.loc[l.elem := Moving(t)], carrier := s.carrier[l.elem := s.dummy],
      use := s.use[l.node := Dummy][s.dummy := Carrying(l.elem)])
  }

  function Released(s: State, t: Tid, e: Elem, n: Node): State {
    Give(s, t, e).(spare := s.spare + [n], carrier := s.carrier - {e}, use := s.use[n := Spare(|s.spare|)])
  }

  function Popped(s: State, t: Tid): State
    requires |s.free| > 0
  {
    Give(s, t, s.free[|s.free| - 1]).(free := s.free[..|s.free| - 1])
  }

  function Pushed(s: State, t: Tid, e: Elem): State {
    Goto(s, t, Idle).(free := s.free + [e], loc := s.loc[e := Free(|s.free|)])
  }

  /** `queue_enqueue` gives up, and `ringbuffer_put_write` ignores it, when there is no spare node. */
  function NodePopped(s: State, t: Tid, e: Elem): State {
    if |s.spare| == 0 then Goto(s, t, Idle).(lost := s.lost + {e})
    else
      var n := s.spare[|s.spare| - 1];
      Goto(s, t, LinkNode(e, n, [])).(
        spare := s.spare[..|s.spare| - 1], carrier := s.carrier[e := n], use := s.use[n := Carrying(e)])
  }

  /** Places counted on from `w`. */
  function LocAt(w: Loc, i: nat): Loc {
    match w
    case Queued(k) => Queued(k + i)
    case Hanging(t, k) => Hanging(t, k + i)
    case _ => w
  }

  /** The elements of `l` move to the places from `w` on. */
  function PutAll(loc: map<Elem, Loc>, l: seq<Link>, w: Loc): map<Elem, Loc> {
    if l == [] then loc else PutAll(loc, l[..|l| - 1], w)[l[|l| - 1].elem := LocAt(w, |l| - 1)]
  }

  /** The node being linked and what hangs from it. */
  function Chunk(pc: Pc): seq<Link>
    requires pc.LinkNode?
  {
    [Link(pc.n, pc.e)] + pc.tail
  }

  /** The node, with all that hangs from it, joins the queue. */
  function NodeLinked(s: State, t: Tid, l: seq<Link>): State {
    Goto(s, t, Idle).(queue := s.queue + l, loc := PutAll(s.loc, l, Queued(s.first + |s.queue|)))
  }

  /** Or it joins what hangs from the node of thread `u`. */
  function NodeHung(s: State, t: Tid, l: seq<Link>, u: Tid): State
    requires PcOf(s, u).LinkNode?
  {
    var pc := PcOf(s, u);
    Goto(Goto(s, u, pc.(tail := pc.tail + l)), t, Idle).(loc := PutAll(s.loc, l, Hanging(u, |pc.tail|)))
  }

  function Step(s: State, a: Act): State
    requires Enabled(s, a)
  {
    match a
    case GetRead(t) => Goto(s, t, ReadDequeue)
    case GetWrite(t) => Goto(s, t, WritePop)
    case PutRead(t, e) => Take(s, t, e, PushFree(e))
    case PutWrite(t, e) => Take(s, t, e, PopNode(e))
    case Hang(t, u) => NodeHung(s, t, Chunk(PcOf(s, t)), u)
    case Run(t) =>
      match PcOf(s, t)
      case Idle => s
      case ReadDequeue => if |s.queue| > 0 then Dequeued(s, t) else Goto(s, t, Idle)
      case WritePop => if |s.free| > 0 then Popped(s, t) else Goto(s, t, WriteDequeue)
      case WriteDequeue => if |s.queue| > 0 then Dequeued(s, t) else Goto(s, t, WritePop)
      case Release(e, n) => Released(s, t, e, n)
      case PushFree(e) => Pushed(s, t, e)
      case PopNode(e) => NodePopped(s, t, e)
      case LinkNode(e, n, tail) => NodeLinked(s, t, Chunk(PcOf(s, t)))
  }

  // ----- the invariant

  /** The element a call has in hand. */
  predicate Moves(pc: Pc) { pc.Release? || pc.PushFree? || pc.PopNode? || pc.LinkNode? }

  ghost predicate FreeAt(s: State, i: int) {
    0 <= i < |s.free| ==> s.free[i] in s.all && LocOf(s, s.free[i]) == Free(i)
  }

  ghost predicate QueuedAt(s: State, i: int) {
    0 <= i < |s.queue| ==>
      var l := s.queue[i];
      l.elem in s.all && LocOf(s, l.elem) == Queued(s.first + i) && l.elem in s.carrier && s.carrier[l.elem] == l.node
  }

  ghost predicate HangingAt(s: State, t: Tid, i: int) {
    var pc := PcOf(s, t);
    pc.LinkNode? && 0 <= i < |pc.tail| ==>
      var l := pc.tail[i];
      l.elem in s.all && LocOf(s, l.elem) == Hanging(t, i) && l.elem in s.carrier && s.carrier[l.elem] == l.node
  }

  ghost predicate SpareAt(s: State, i: int) {
    0 <= i < |s.spare| ==> s.spare[i] in s.nodes && UseOf(s, s.spare[i]) == Spare(i)
  }

  ghost predicate ThreadOk(s: State, t: Tid) {
    var pc := PcOf(s, t);
    && (Moves(pc) ==> pc.e in s.all && LocOf(s, pc.e) == Moving(t))
    && (pc.Release? || pc.LinkNode? ==> pc.e in s.carrier && s.carrier[pc.e] == pc.n)
    && (pc.PushFree? || pc.PopNode? ==> pc.e !in s.carrier)
  }

  /** Element `e` is at place `p`. */
  ghost predicate IsAt(s: State, e: Elem, p: Loc) {
    match p
    case Free(i) => i < |s.free| && s.free[i] == e
    case Queued(k) => s.first <= k < s.first + |s.queue| && s.queue[k - s.first].elem == e
    case Held => e in s.held
    case Moving(t) => Moves(PcOf(s, t)) && PcOf(s, t).e == e
    case Hanging(t, k) => PcOf(s, t).LinkNode? && k < |PcOf(s, t).tail| && PcOf(s, t).tail[k].elem == e
  }

  ghost predicate ElemOk(s: State, e: Elem) {
    && (e in s.held ==> e in s.all && LocOf(s, e) == Held)
    && (e in s.carrier ==>
          && e in s.all && s.carrier[e] in s.nodes && UseOf(s, s.carrier[e]) == Carrying(e)
          && (LocOf(s, e).Queued? || LocOf(s, e).Moving? || LocOf(s, e).Hanging?))
    && (e in s.all ==> IsAt(s, e, LocOf(s, e)))
  }

  ghost predicate NodeOk(s: State, n: Node) {
    n in s.nodes ==>
      match UseOf(s, n)
      case Spare(i) => i < |s.spare| && s.spare[i] == n
      case Dummy => n == s.dummy
      case Carrying(e) => e in s.carrier && s.carrier[e] == n
  }

  ghost predicate Inv(s: State) {
    && |s.nodes| == |s.all| + 1 && s.lost == {}
    && s.dummy in s.nodes && UseOf(s, s.dummy).Dummy?
    && Places(s) && Actors(s)
  }

  ghost predicate Places(s: State) {
    && (forall i :: FreeAt(s, i)) && (forall i :: QueuedAt(s, i)) && (forall i :: SpareAt(s, i))
    && (forall t, i :: HangingAt(s, t, i))
  }

  ghost predicate Actors(s: State) {
    (forall t :: ThreadOk(s, t)) && (forall e :: ElemOk(s, e)) && (forall n :: NodeOk(s, n))
  }

  // ----- a spare node for every element that is not in the queue

  lemma {:induction false} FewerValues(m: map<Elem, Node>)
    ensures |m.Values| <= |m.Keys|
  {
    if m.Keys != {} {
      var e :| e in m.Keys;
      var m' := m - {e};
      FewerValues(m');
      assert m.Keys == m'.Keys + {e};
      assert m.Values <= m'.Values + {m[e]} by {
        forall n | n in m.Values ensures n in m'.Values + {m[e]} {
          var k :| k in m && m[k] == n;
          if k != e { assert k in m' && m'[k] == n; }
        }
      }
      SubsetSize(m.Values, m'.Values + {m[e]});
    }
  }

  /** While some element has no node, some node is spare. */
  lemma SpareNode(s: State, e: Elem)
    requires Inv(s) && e in s.all && e !in s.carrier
    ensures |s.spare| > 0
  {
    if |s.spare| == 0 {
      var used := s.carrier.Values + {s.dummy};
      forall n | n in s.nodes ensures n in used { assert NodeOk(s, n); }
      SubsetSize(s.nodes, used);
      FewerValues(s.carrier);
      forall k | k in s.carrier.Keys ensures k in s.all - {e} { assert ElemOk(s, k); }
      SubsetSize(s.carrier.Keys, s.all - {e});
    }
  }

  // ----- every step keeps the invariant

  lemma LocalKeeps(s: State, t: Tid, pc: Pc)
    requires Inv(s) && !Moves(PcOf(s, t)) && !Moves(pc)
    ensures Inv(Goto(s, t, pc))
  {
    var s' := Goto(s, t, pc);
    forall i ensures FreeAt(s', i) && QueuedAt(s', i) && SpareAt(s', i) {
      assert FreeAt(s, i) && QueuedAt(s, i) && SpareAt(s, i);
    }
    forall u, i ensures HangingAt(s', u, i) { assert HangingAt(s, u, i); }
    forall u ensures ThreadOk(s', u) { assert ThreadOk(s, u); }
    forall e ensures ElemOk(s', e) { assert ElemOk(s, e); }
    forall n ensures NodeOk(s', n) { assert NodeOk(s, n); }
  }

  lemma TakeKeeps(s: State, t: Tid, e: Elem, pc: Pc)
    requires Inv(s) && PcOf(s, t).Idle? && e in s.held && (pc == PushFree(e) || pc == PopNode(e))
    ensures Inv(Take(s, t, e, pc))
  {
    var s' := Take(s, t, e, pc);
    assert ElemOk(s, e);
    forall i ensures FreeAt(s', i) && QueuedAt(s', i) && SpareAt(s', i) {
      assert FreeAt(s, i) && QueuedAt(s, i) && SpareAt(s, i);
    }
    forall u, i ensures HangingAt(s', u, i) { assert HangingAt(s, u, i); }
    forall u ensures ThreadOk(s', u) { assert ThreadOk(s, u); }
    forall x ensures ElemOk(s', x) { assert ElemOk(s, x); }
    forall n ensures NodeOk(s', n) { assert NodeOk(s, n); }
  }

  lemma DequeueKeeps(s: State, t: Tid)
    requires Inv(s) && |s.queue| > 0 && !Moves(PcOf(s, t))
    ensures Inv(Dequeued(s, t))
  {
    var s', l := Dequeued(s, t), s.queue[0];
    assert QueuedAt(s, 0) && ElemOk(s, l.elem) && NodeOk(s, l.node) && NodeOk(s, s.dummy);
    forall i ensures FreeAt(s', i) && QueuedAt(s', i) && SpareAt(s', i) {
      assert FreeAt(s, i) && QueuedAt(s, i + 1) && SpareAt(s, i);
    }
    forall u, i ensures HangingAt(s', u, i) { assert HangingAt(s, u, i); }
    forall u ensures ThreadOk(s', u) { assert ThreadOk(s, u); }
    forall e ensures ElemOk(s', e) { assert ElemOk(s, e); }
    forall n ensures NodeOk(s', n) { assert NodeOk(s, n); }
  }

  lemma ReleaseKeeps(s: State, t: Tid, e: Elem, n: Node)
    requires Inv(s) && PcOf(s, t) == Release(e, n)
    ensures Inv(Released(s, t, e, n))
  {
    var s' := Released(s, t, e, n);
    assert ThreadOk(s, t) && ElemOk(s, e);
    forall i ensures FreeAt(s', i) && QueuedAt(s', i) && SpareAt(s', i) {
      assert FreeAt(s, i) && QueuedAt(s, i) && SpareAt(s, i);
    }
    forall u, i ensures HangingAt(s', u, i) { assert HangingAt(s, u, i); }
    forall u ensures ThreadOk(s', u) { assert ThreadOk(s, u); }
    forall x ensures ElemOk(s', x) { assert ElemOk(s, x); }
    forall x ensures NodeOk(s', x) { assert NodeOk(s, x); }
  }

  lemma PopKeeps(s: State, t: Tid)
    requires Inv(s) && |s.free| > 0 && !Moves(PcOf(s, t))
    ensures Inv(Popped(s, t))
  {
    var s', e := Popped(s, t), s.free[|s.free| - 1];
    assert FreeAt(s, |s.free| - 1) && ElemOk(s, e);
    forall i ensures FreeAt(s', i) && QueuedAt(s', i) && SpareAt(s', i) {
      assert FreeAt(s, i) && QueuedAt(s, i) && SpareAt(s, i);
    }
    forall u, i ensures HangingAt(s', u, i) { assert HangingAt(s, u, i); }
    forall u ensures ThreadOk(s', u) { assert ThreadOk(s, u); }
    forall x ensures ElemOk(s', x) { assert ElemOk(s, x); }
    forall n ensures NodeOk(s', n) { assert NodeOk(s, n); }
  }

  lemma PushKeeps(s: State, t: Tid, e: Elem)
    requires Inv(s) && PcOf(s, t) == PushFree(e)
    ensures Inv(Pushed(s, t, e))
  {
    var s' := Pushed(s, t, e);
    assert ThreadOk(s, t) && ElemOk(s, e);
    forall i ensures FreeAt(s', i) && QueuedAt(s', i) && SpareAt(s', i) {
      assert FreeAt(s, i) && QueuedAt(s, i) && SpareAt(s, i);
    }
    forall u, i ensures HangingAt(s', u, i) { assert HangingAt(s, u, i); }
    forall u ensures ThreadOk(s', u) { assert ThreadOk(s, u); }
    forall x ensures ElemOk(s', x) { assert ElemOk(s, x); }
    forall n ensures NodeOk(s', n) { assert NodeOk(s, n); }
  }

  lemma PopNodeKeeps(s: State, t: Tid, e: Elem)
    requires Inv(s) && PcOf(s, t) == PopNode(e)
    ensures Inv(NodePopped(s, t, e))
  {
    assert ThreadOk(s, t) && ElemOk(s, e);
    SpareNode(s, e);
    var s', n := NodePopped(s, t, e), s.spare[|s.spare| - 1];
    assert SpareAt(s, |s.spare| - 1) && NodeOk(s, n);
    forall i ensures FreeAt(s', i) && QueuedAt(s', i) && SpareAt(s', i) {
      assert FreeAt(s, i) && QueuedAt(s, i) && SpareAt(s, i);
    }
    forall u, i ensures HangingAt(s', u, i) { assert HangingAt(s, u, i); }
    forall u ensures ThreadOk(s', u) { assert ThreadOk(s, u); }
    forall x ensures ElemOk(s', x) { assert ElemOk(s, x); }
    forall x ensures NodeOk(s', x) { assert NodeOk(s, x); }
  }

  // ----- linking and hanging

  ghost predicate NewPlaces(loc: map<Elem, Loc>, loc': map<Elem, Loc>, l: seq<Link>, w: Loc) {
    && (forall i :: 0 <= i < |l| ==> l[i].elem in loc' && loc'[l[i].elem] == LocAt(w, i))
    && (forall e :: Among(l, e) || ((e in loc' <==> e in loc) && (e in loc ==> loc'[e] == loc[e])))
  }

  ghost predicate Among(l: seq<Link>, e: Elem) { exists i :: 0 <= i < |l| && l[i].elem == e }

  ghost predicate ElemsDiffer(l: seq<Link>) { forall i, j :: 0 <= i < j < |l| ==> l[i].elem != l[j].elem }

  lemma {:induction false} PutAllIs(loc: map<Elem, Loc>, l: seq<Link>, w: Loc)
    requires ElemsDiffer(l)
    ensures NewPlaces(loc, PutAll(loc, l, w), l, w)
  {
    if l != [] {
      var n := |l| - 1;
      var rest := l[..n];
      PutAllIs(loc, rest, w);
      var mid, loc' := PutAll(loc, rest, w), PutAll(loc, l, w);
      forall i | 0 <= i < |l| ensures l[i].elem in loc' && loc'[l[i].elem] == LocAt(w, i) {
        if i < n { assert rest[i] == l[i] && l[i].elem != l[n].elem; }
      }
      forall e | !Among(l, e) ensures (e in loc' <==> e in loc) && (e in loc ==> loc'[e] == loc[e]) {
        assert l[n].elem != e;
        assert !Among(rest, e);
      }
    }
  }

  /** The links a thread is about to attach: their elements are different and nowhere else. */
  lemma ChunkOk(s: State, t: Tid)
    requires Inv(s) && PcOf(s, t).LinkNode?
    ensures var l := Chunk(PcOf(s, t));
      && ElemsDiffer(l)
      && (forall i :: 0 <= i < |l| ==> LocOf(s, l[i].elem) == if i == 0 then Moving(t) else Hanging(t, i - 1))
      && forall i :: 0 <= i < |l| ==> l[i].elem in s.all && l[i].elem in s.carrier && s.carrier[l[i].elem] == l[i].node
  {
    var l := Chunk(PcOf(s, t));
    assert ThreadOk(s, t);
    forall i | 0 <= i < |l|
      ensures LocOf(s, l[i].elem) == if i == 0 then Moving(t) else Hanging(t, i - 1)
      ensures l[i].elem in s.all && l[i].elem in s.carrier && s.carrier[l[i].elem] == l[i].node
    {
      if i > 0 { assert HangingAt(s, t, i - 1) && l[i] == PcOf(s, t).tail[i - 1]; }
    }
  }

  /** A place that is not in the hand of thread `t` or behind its node. */
  predicate Elsewhere(p: Loc, t: Tid) { p != Moving(t) && !(p.Hanging? && p.t == t) }

  lemma NotAmong(s: State, t: Tid, e: Elem)
    requires Inv(s) && PcOf(s, t).LinkNode?
    ensures Elsewhere(LocOf(s, e), t) ==> !Among(Chunk(PcOf(s, t)), e)
    ensures e in s.all && !Among(Chunk(PcOf(s, t)), e) ==> Elsewhere(LocOf(s, e), t)
  {
    var pc, l := PcOf(s, t), Chunk(PcOf(s, t));
    ChunkOk(s, t);
    assert ElemOk(s, e) && l[0].elem == pc.e;
    if e in s.all && LocOf(s, e).Hanging? && LocOf(s, e).t == t {
      assert l[LocOf(s, e).k + 1] == pc.tail[LocOf(s, e).k];
    }
  }

  /** Attaching the links of thread `t` leaves what is elsewhere where it was. */
  lemma StaysPut(s: State, t: Tid, w: Loc, e: Elem)
    requires Inv(s) && PcOf(s, t).LinkNode? && Elsewhere(LocOf(s, e), t)
    ensures var loc' := PutAll(s.loc, Chunk(PcOf(s, t)), w); (if e in loc' then loc'[e] else Held) == LocOf(s, e)
  {
    ChunkOk(s, t);
    PutAllIs(s.loc, Chunk(PcOf(s, t)), w);
    NotAmong(s, t, e);
  }

  lemma GoesTo(s: State, t: Tid, w: Loc, i: nat)
    requires Inv(s) && PcOf(s, t).LinkNode? && i < |Chunk(PcOf(s, t))|
    ensures var l, loc' := Chunk(PcOf(s, t)), PutAll(s.loc, Chunk(PcOf(s, t)), w);
      l[i].elem in loc' && loc'[l[i].elem] == LocAt(w, i)
  {
    ChunkOk(s, t);
    PutAllIs(s.loc, Chunk(PcOf(s, t)), w);
  }

  lemma LinkPlaces(s: State, t: Tid)
    requires Inv(s) && PcOf(s, t).LinkNode?
    ensures Places(NodeLinked(s, t, Chunk(PcOf(s, t))))
  {
    var l := Chunk(PcOf(s, t));
    var s', w := NodeLinked(s, t, l), Queued(s.first + |s.queue|);
    ChunkOk(s, t);
    forall i ensures FreeAt(s', i) {
      assert FreeAt(s, i);
      if 0 <= i < |s.free| { StaysPut(s, t, w, s.free[i]); }
    }
    forall i ensures QueuedAt(s', i) {
      assert QueuedAt(s, i);
      if 0 <= i < |s.queue| { StaysPut(s, t, w, s.queue[i].elem); }
      else if |s.queue| <= i < |s'.queue| { GoesTo(s, t, w, i - |s.queue|); assert s'.queue[i] == l[i - |s.queue|]; }
    }
    forall i ensures SpareAt(s', i) { assert SpareAt(s, i); }
    forall u, i ensures HangingAt(s', u, i) {
      assert HangingAt(s, u, i);
      var pc := PcOf(s, u);
      if u != t && pc.LinkNode? && 0 <= i < |pc.tail| { StaysPut(s, t, w, pc.tail[i].elem); }
    }
  }

  lemma LinkActors(s: State, t: Tid)
    requires Inv(s) && PcOf(s, t).LinkNode?
    ensures Actors(NodeLinked(s, t, Chunk(PcOf(s, t))))
  {
    var l := Chunk(PcOf(s, t));
    var s', w := NodeLinked(s, t, l), Queued(s.first + |s.queue|);
    forall u ensures ThreadOk(s', u) {
      assert ThreadOk(s, u);
      if u != t && Moves(PcOf(s, u)) { StaysPut(s, t, w, PcOf(s, u).e); }
    }
    forall e ensures ElemOk(s', e) { LinkElem(s, t, e); }
    forall n ensures NodeOk(s', n) { assert NodeOk(s, n); }
  }

  lemma LinkElem(s: State, t: Tid, e: Elem)
    requires Inv(s) && PcOf(s, t).LinkNode?
    ensures ElemOk(NodeLinked(s, t, Chunk(PcOf(s, t))), e)
  {
    var l := Chunk(PcOf(s, t));
    var s', w := NodeLinked(s, t, l), Queued(s.first + |s.queue|);
    assert ElemOk(s, e);
    NotAmong(s, t, e);
    ChunkOk(s, t);
    if i :| 0 <= i < |l| && l[i].elem == e {
      GoesTo(s, t, w, i);
      assert s'.queue[|s.queue| + i] == l[i];
    } else {
      assert !Among(l, e);
      if Elsewhere(LocOf(s, e), t) { StaysPut(s, t, w, e); }
    }
  }

  lemma HangPlaces(s: State, t: Tid, u: Tid)
    requires Inv(s) && PcOf(s, t).LinkNode? && PcOf(s, u).LinkNode? && t != u
    ensures Places(NodeHung(s, t, Chunk(PcOf(s, t)), u))
  {
    var l, k := Chunk(PcOf(s, t)), |PcOf(s, u).tail|;
    var s', w := NodeHung(s, t, l, u), Hanging(u, k);
    ChunkOk(s, t);
    forall i ensures FreeAt(s', i) {
      assert FreeAt(s, i);
      if 0 <= i < |s.free| { StaysPut(s, t, w, s.free[i]); }
    }
    forall i ensures QueuedAt(s', i) {
      assert QueuedAt(s, i);
      if 0 <= i < |s.queue| { StaysPut(s, t, w, s.queue[i].elem); }
    }
    forall i ensures SpareAt(s', i) { assert SpareAt(s, i); }
    forall v, i ensures HangingAt(s', v, i) {
      assert HangingAt(s, v, i);
      var pc, pc' := PcOf(s, v), PcOf(s', v);
      if v != t && pc.LinkNode? && 0 <= i < |pc.tail| { StaysPut(s, t, w, pc.tail[i].elem); }
      else if v == u && k <= i < |pc'.tail| { GoesTo(s, t, w, i - k); assert pc'.tail[i] == l[i - k]; }
    }
  }

  lemma HangActors(s: State, t: Tid, u: Tid)
    requires Inv(s) && PcOf(s, t).LinkNode? && PcOf(s, u).LinkNode? && t != u
    ensures Actors(NodeHung(s, t, Chunk(PcOf(s, t)), u))
  {
    var l, k := Chunk(PcOf(s, t)), |PcOf(s, u).tail|;
    var s', w := NodeHung(s, t, l, u), Hanging(u, k);
    forall v ensures ThreadOk(s', v) {
      assert ThreadOk(s, v);
      if v != t && Moves(PcOf(s, v)) { StaysPut(s, t, w, PcOf(s, v).e); }
    }
    forall e ensures ElemOk(s', e) { HangElem(s, t, u, e); }
    forall n ensures NodeOk(s', n) { assert NodeOk(s, n); }
  }

  lemma HangElem(s: State, t: Tid, u: Tid, e: Elem)
    requires Inv(s) && PcOf(s, t).LinkNode? && PcOf(s, u).LinkNode? && t != u
    ensures ElemOk(NodeHung(s, t, Chunk(PcOf(s, t)), u), e)
  {
    var l, k := Chunk(PcOf(s, t)), |PcOf(s, u).tail|;
    var s', w := NodeHung(s, t, l, u), Hanging(u, k);
    assert ElemOk(s, e);
    NotAmong(s, t, e);
    ChunkOk(s, t);
    if i :| 0 <= i < |l| && l[i].elem == e {
      GoesTo(s, t, w, i);
      assert PcOf(s', u).tail[k + i] == l[i];
    } else {
      assert !Among(l, e);
      if Elsewhere(LocOf(s, e), t) { HangElsewhere(s, t, u, e); }
    }
  }

  lemma HangElsewhere(s: State, t: Tid, u: Tid, e: Elem)
    requires Inv(s) && PcOf(s, t).LinkNode? && PcOf(s, u).LinkNode? && t != u && Elsewhere(LocOf(s, e), t)
    ensures var s' := NodeHung(s, t, Chunk(PcOf(s, t)), u);
      LocOf(s', e) == LocOf(s, e) && (IsAt(s, e, LocOf(s, e)) ==> IsAt(s', e, LocOf(s, e)))
  {
    StaysPut(s, t, Hanging(u, |PcOf(s, u).tail|), e);
  }

  lemma StepKeeps(s: State, a: Act)
    requires Inv(s) && Enabled(s, a)
    ensures Inv(Step(s, a))
  {
    match a
    case GetRead(t) => LocalKeeps(s, t, ReadDequeue);
    case GetWrite(t) => LocalKeeps(s, t, WritePop);
    case PutRead(t, e) => TakeKeeps(s, t, e, PushFree(e));
    case PutWrite(t, e) => TakeKeeps(s, t, e, PopNode(e));
    case Hang(t, u) => HangPlaces(s, t, u); HangActors(s, t, u);
    case Run(t) =>
      match PcOf(s, t)
      case ReadDequeue => if |s.queue| > 0 { DequeueKeeps(s, t); } else { LocalKeeps(s, t, Idle); }
      case WritePop => if |s.free| > 0 { PopKeeps(s, t); } else { LocalKeeps(s, t, WriteDequeue); }
      case WriteDequeue => if |s.queue| > 0 { DequeueKeeps(s, t); } else { LocalKeeps(s, t, WritePop); }
      case Release(e, n) => ReleaseKeeps(s, t, e, n);
      case PushFree(e) => PushKeeps(s, t, e);
      case PopNode(e) => PopNodeKeeps(s, t, e);
      case LinkNode(e, n, tail) => LinkPlaces(s, t); LinkActors(s, t);
  }

  // ----- whole runs

  /** `ringbuffer_new`: N elements on the freelist, N + 1 queue nodes of which one is the dummy. */
  ghost predicate Init(s: State) {
    && |s.nodes| == |s.all| + 1 && s.dummy in s.nodes && s.queue == [] && s.first == 0
    && s.held == {} && s.lost == {} && s.carrier == map[]
    && (forall t :: PcOf(s, t).Idle?)
    && (forall e :: e in s.all ==> LocOf(s, e).Free? && LocOf(s, e).i < |s.free| && s.free[LocOf(s, e).i] == e)
    && (forall i :: 0 <= i < |s.free| ==> s.free[i] in s.all && LocOf(s, s.free[i]) == Free(i))
    && (forall n :: n in s.nodes ==>
          if n == s.dummy then UseOf(s, n) == Dummy
          else UseOf(s, n).Spare? && UseOf(s, n).i < |s.spare| && s.spare[UseOf(s, n).i] == n)
    && (forall i :: 0 <= i < |s.spare| ==> s.spare[i] in s.nodes && UseOf(s, s.spare[i]) == Spare(i))
  }

  ghost predicate MovesAt(run: seq<State>, acts: seq<Act>, i: int)
    requires 0 <= i < |acts| && |run| == |acts| + 1
  {
    Enabled(run[i], acts[i]) && run[i + 1] == Step(run[i], acts[i])
  }

  ghost predicate IsRun(run: seq<State>, acts: seq<Act>) {
    |run| == |acts| + 1 && Init(run[0]) && forall i :: 0 <= i < |acts| ==> MovesAt(run, acts, i)
  }

  lemma InitOk(s: State)
    requires Init(s)
    ensures Inv(s)
  {
    forall t ensures ThreadOk(s, t) { assert PcOf(s, t).Idle?; }
  }

  lemma {:induction false} RunKeeps(run: seq<State>, acts: seq<Act>, i: nat)
    requires IsRun(run, acts) && i < |run|
    ensures Inv(run[i]) && run[i].all == run[0].all && run[i].nodes == run[0].nodes
  {
    if i == 0 {
      InitOk(run[0]);
    } else {
      RunKeeps(run, acts, i - 1);
      assert MovesAt(run, acts, i - 1);
      StepKeeps(run[i - 1], acts[i - 1]);
      StepFixed(run[i - 1], acts[i - 1]);
    }
  }

  lemma StepFixed(s: State, a: Act)
    requires Enabled(s, a)
    ensures Step(s, a).all == s.all && Step(s, a).nodes == s.nodes
  {
    if a.Run? && PcOf(s, a.t).LinkNode? { LinkFixed(s, a.t, Chunk(PcOf(s, a.t))); }
  }

  lemma LinkFixed(s: State, t: Tid, l: seq<Link>)
    ensures NodeLinked(s, t, l).all == s.all && NodeLinked(s, t, l).nodes == s.nodes
  {
  }

  lemma AtItsPlace(s: State, e: Elem, p: Loc)
    requires Inv(s) && IsAt(s, e, p)
    ensures LocOf(s, e) == p
  {
    assert ElemOk(s, e);
    match p
    case Free(i) => assert FreeAt(s, i);
    case Queued(k) => assert QueuedAt(s, k - s.first);
    case Held =>
    case Moving(t) => assert ThreadOk(s, t);
    case Hanging(t, k) => assert HangingAt(s, t, k);
  }

  /** Conservation: in every state of every run each of the N elements is in exactly one place: on the freelist, in the
      queue, with a caller, in the hand of a call, or behind the node that another `ringbuffer_put_write` is linking. */
  lemma ElementsConserved(run: seq<State>, acts: seq<Act>, i: nat, e: Elem) returns (p: Loc)
    requires IsRun(run, acts) && i < |run| && e in run[0].all
    ensures IsAt(run[i], e, p) && forall p' :: IsAt(run[i], e, p') ==> p' == p
  {
    var s := run[i];
    RunKeeps(run, acts, i);
    assert ElemOk(s, e);
    p := LocOf(s, e);
    forall p' | IsAt(s, e, p') ensures p' == p { AtItsPlace(s, e, p'); }
  }

  /** While no `ringbuffer_put_write` is linking a node, nothing hangs: what its callers put is in the queue. */
  lemma NothingHangs(run: seq<State>, acts: seq<Act>, i: nat, e: Elem)
    requires IsRun(run, acts) && i < |run| && e in run[0].all && forall t :: !PcOf(run[i], t).LinkNode?
    ensures forall t, k :: !IsAt(run[i], e, Hanging(t, k))
    ensures e in run[i].held || (exists j :: IsAt(run[i], e, Free(j))) || (exists j :: IsAt(run[i], e, Queued(j)))
      || exists t :: IsAt(run[i], e, Moving(t))
  {
    var p := ElementsConserved(run, acts, i, e);
    assert !p.Hanging?;
  }

  /** `ringbuffer_put_write` always finds a queue node, so ignoring the result of `queue_enqueue` loses nothing. */
  lemma NothingLost(run: seq<State>, acts: seq<Act>, i: nat)
    requires IsRun(run, acts) && i < |run|
    ensures run[i].lost == {}
    ensures forall t :: PcOf(run[i], t).PopNode? ==> |run[i].spare| > 0
  {
    RunKeeps(run, acts, i);
    forall t | PcOf(run[i], t).PopNode? ensures |run[i].spare| > 0 {
      assert ThreadOk(run[i], t);
      SpareNode(run[i], PcOf(run[i], t).e);
    }
  }

  /** When no call is under way, the free nodes are exactly the nodes not needed by the queue. */
  lemma QuiescentNodes(run: seq<State>, acts: seq<Act>, i: nat, n: Node)
    requires IsRun(run, acts) && i < |run| && n in run[0].nodes
    requires forall t :: PcOf(run[i], t).Idle?
    ensures n in run[i].spare || n == run[i].dummy || exists j :: 0 <= j < |run[i].queue| && run[i].queue[j].node == n
  {
    var s := run[i];
    RunKeeps(run, acts, i);
    assert NodeOk(s, n);
    if UseOf(s, n).Carrying? {
      var e := UseOf(s, n).e;
      assert ElemOk(s, e);
      assert IsAt(s, e, LocOf(s, e));
      assert LocOf(s, e).Moving? || LocOf(s, e).Hanging? ==> PcOf(s, LocOf(s, e).t).Idle?;
      assert LocOf(s, e).Queued?;
      var j := LocOf(s, e).k - s.first;
      assert QueuedAt(s, j);
      assert s.queue[j].node == n;
    }
  }
}
