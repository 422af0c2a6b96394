/** The reference-counted free list of moody/concurrentqueue.h (`FreeList`), as a state machine over its
    atomic accesses.

    A node's `freeListRefs` word holds a count in its low 31 bits and the flag SHOULD_BE_ON_FREELIST in its
    top bit.  A node may be linked only while nobody holds a reference; whoever drops the last reference of a
    flagged node links it.  Any number of `add` and `try_get` calls interleave. */
module RefCountFreeList {
  import opened Prelude

  type Node = nat
  type Tid = nat

  const SHOULD: int := 0x8000_0000

  /** Where a node is, as a history variable: with a user, being added, linked, taken off but not yet
      returned, owned by the thread that links it (before and after it publishes a count of one), or
      flagged and left to the current reference holders. */
  datatype Role = User | Adding(t: Tid) | Linked | Got(t: Tid) | Exclusive(t: Tid) | Trying(t: Tid) | Waiting

  datatype Cell = Cell(refs: int, next: Option<Node>, role: Role, added: nat, got: nat)

  /** What to do once `add_knowing_refcount_is_zero` returns: leave `add`, or go on in `try_get`. */
  datatype After = Leave | Continue(head: Option<Node>)

  datatype Pc =
    | Idle
    | Add(n: Node)
    | LoadHead(n: Node, k: After)
    | StoreNext(n: Node, hd: Option<Node>, k: After)
    | StoreRefs(n: Node, hd: Option<Node>, k: After)
    | CasHead(n: Node, hd: Option<Node>, k: After)
    | Retry(n: Node, hd: Option<Node>, k: After)
    | GetHead
    | GetRefs(h: Node)
    | CasRefs(h: Node, r: int)
    | GetNext(h: Node)
    | CasPop(h: Node, nx: Option<Node>)
    | Sub1(h: Node, cur: Option<Node>)
    | Sub2(h: Node)

  /** `list` is a history variable: the nodes reachable from `head`. */
  datatype State = State(head: Option<Node>, mem: map<Node, Cell>, pcs: map<Tid, Pc>, list: seq<Node>)

  datatype Act = StartAdd(t: Tid, n: Node) | StartGet(t: Tid) | Run(t: Tid)

  function At(s: State, n: Node): Cell {
    if n in s.mem then s.mem[n] else Cell(0, None, User, 0, 0)
  }

  function PcOf(s: State, t: Tid): Pc {
    if t in s.pcs then s.pcs[t] else Idle
  }

  function Goto(s: State, t: Tid, pc: Pc): State {
    s.(pcs := s.pcs[t := pc])
  }

  function Put(s: State, n: Node, c: Cell, t: Tid, pc: Pc): State {
    s.(mem := s.mem[n := c], pcs := s.pcs[t := pc])
  }

  /** The head of the `while (head != nullptr)` loop. */
  function Loop(h: Option<Node>): Pc {
    match h case None => Idle case Some(n) => GetRefs(n)
  }

  function Resume(k: After): Pc {
    match k case Leave => Idle case Continue(h) => Loop(h)
  }

  predicate Enabled(s: State, a: Act) {
    match a
    case StartAdd(t, n) => t in s.pcs && PcOf(s, t).Idle? && At(s, n).role.User?
    case StartGet(t) => t in s.pcs && PcOf(s, t).Idle?
    case Run(t) => t in s.pcs && !PcOf(s, t).Idle?
  }

  /** `add`: raise the flag; link the node if nobody held a reference. */
  function AddStep(s: State, t: Tid, n: Node): State {
    var c := At(s, n);
    var c' := c.(refs := c.refs + SHOULD, added := c.added + 1);
    if c.refs == 0 then Put(s, n, c'.(role := Exclusive(t)), t, LoadHead(n, Leave))
    else Put(s, n, c'.(role := Waiting), t, Idle)
  }

  function LinkStep(s: State, t: Tid, n: Node, h: Option<Node>, k: After): State {
    if s.head == h
    then Put(s, n, At(s, n).(role := Linked), t, Resume(k)).(head := Some(n), list := [n] + s.list)
    else Goto(s, t, Retry(n, s.head, k))
  }

  function RetryStep(s: State, t: Tid, n: Node, h: Option<Node>, k: After): State {
    var c := At(s, n);
    var c' := c.(refs := c.refs + SHOULD - 1);
    if c.refs == 1 then Put(s, n, c'.(role := Exclusive(t)), t, StoreNext(n, h, k))
    else Put(s, n, c'.(role := Waiting), t, Resume(k))
  }

  function CasRefsStep(s: State, t: Tid, h: Node, r: int): State {
    var c := At(s, h);
    if c.refs == r then Put(s, h, c.(refs := r + 1), t, GetNext(h)) else Goto(s, t, GetHead)
  }

  function PopStep(s: State, t: Tid, h: Node, nx: Option<Node>): State {
    if s.head == Some(h)
    then Put(s, h, At(s, h).(role := Got(t)), t, Sub2(h)).(head := nx, list := if |s.list| > 0 then s.list[1..] else [])
    else Goto(s, t, Sub1(h, s.head))
  }

  function Sub1Step(s: State, t: Tid, h: Node, cur: Option<Node>): State {
    var c := At(s, h);
    var c' := c.(refs := c.refs - 1);
    if c.refs == SHOULD + 1 then Put(s, h, c'.(role := Exclusive(t)), t, LoadHead(h, Continue(cur)))
    else Put(s, h, c', t, Loop(cur))
  }

  function Sub2Step(s: State, t: Tid, h: Node): State {
    var c := At(s, h);
    Put(s, h, c.(refs := c.refs - 2, role := User, got := c.got + 1), t, Idle)
  }

  function Step(s: State, a: Act): State
    requires Enabled(s, a)
  {
    match a
    case StartAdd(t, n) => Put(s, n, At(s, n).(role := Adding(t)), t, Add(n))
    case StartGet(t) => Goto(s, t, GetHead)
    case Run(t) =>
      match PcOf(s, t)
      case Idle => s
      case Add(n) => AddStep(s, t, n)
      case LoadHead(n, k) => Goto(s, t, StoreNext(n, s.head, k))
      case StoreNext(n, h, k) => Put(s, n, At(s, n).(next := h), t, StoreRefs(n, h, k))
      case StoreRefs(n, h, k) => Put(s, n, At(s, n).(refs := 1, role := Trying(t)), t, CasHead(n, h, k))
      case CasHead(n, h, k) => LinkStep(s, t, n, h, k)
      case Retry(n, h, k) => RetryStep(s, t, n, h, k)
      case GetHead => Goto(s, t, Loop(s.head))
      case GetRefs(h) => Goto(s, t, if At(s, h).refs % SHOULD == 0 then GetHead else CasRefs(h, At(s, h).refs))
      case CasRefs(h, r) => CasRefsStep(s, t, h, r)
      case GetNext(h) => Goto(s, t, CasPop(h, At(s, h).next))
      case CasPop(h, nx) => PopStep(s, t, h, nx)
      case Sub1(h, cur) => Sub1Step(s, t, h, cur)
      case Sub2(h) => Sub2Step(s, t, h)
  }

  // ----- the invariant

  /** The node on which a thread holds a reference. */
  function Holds(pc: Pc): Option<Node> {
    match pc
    case GetNext(h) => Some(h)
    case CasPop(h, _) => Some(h)
    case Sub1(h, _) => Some(h)
    case Sub2(h) => Some(h)
    case _ => None
  }

  ghost function Holders(s: State, n: Node): set<Tid> {
    set t | t in s.pcs && Holds(s.pcs[t]) == Some(n)
  }

  function Base(r: Role): int {
    match r
    case User => 0
    case Adding(_) => 0
    case Linked => 1
    case Got(_) => 1
    case Trying(_) => 1
    case Exclusive(_) => SHOULD
    case Waiting => SHOULD
  }

  predicate OnLoan(r: Role) { r.User? || r.Adding? }

  /** The thread a role names is indeed at that point of its code. */
  ghost predicate RoleOk(s: State, n: Node) {
    match At(s, n).role
    case Adding(t) => PcOf(s, t) == Add(n)
    case Got(t) => PcOf(s, t) == Sub2(n)
    case Exclusive(t) =>
      Holders(s, n) == {} && var pc := PcOf(s, t); (pc.LoadHead? || pc.StoreNext? || pc.StoreRefs?) && pc.n == n
    case Trying(t) => var pc := PcOf(s, t); (pc.CasHead? || pc.Retry?) && pc.n == n
    case Waiting => Holders(s, n) != {}
    case _ => true
  }

  ghost predicate NodeOk(s: State, n: Node) {
    var c := At(s, n);
    && c.refs == |Holders(s, n)| + Base(c.role)
    && c.added == c.got + (if OnLoan(c.role) then 0 else 1)
    && (c.role.Linked? <==> n in s.list)
    && RoleOk(s, n)
  }

  ghost predicate ThreadOk(s: State, t: Tid) {
    match PcOf(s, t)
    case Add(n) => At(s, n).role == Adding(t)
    case LoadHead(n, _) => At(s, n).role == Exclusive(t)
    case StoreNext(n, _, _) => At(s, n).role == Exclusive(t)
    case StoreRefs(n, h, _) => At(s, n).role == Exclusive(t) && At(s, n).next == h
    case CasHead(n, h, _) => At(s, n).role == Trying(t) && At(s, n).next == h
    case Retry(n, _, _) => At(s, n).role == Trying(t)
    case CasPop(h, nx) => At(s, h).next == nx
    case Sub2(h) => At(s, h).role == Got(t)
    case CasRefs(h, r) => r % SHOULD != 0
    case _ => true
  }

  ghost predicate LinkAt(s: State, i: nat)
    requires i < |s.list|
  {
    At(s, s.list[i]).next == if i + 1 < |s.list| then Some(s.list[i + 1]) else None
  }

  ghost predicate ListOk(s: State) {
    && (s.head == if |s.list| == 0 then None else Some(s.list[0]))
    && (forall i, j :: 0 <= i < j < |s.list| ==> s.list[i] != s.list[j])
    && (forall i :: 0 <= i < |s.list| ==> LinkAt(s, i))
  }

  ghost predicate AllNodes(s: State) { forall n :: NodeOk(s, n) }
  ghost predicate AllThreads(s: State) { forall t :: ThreadOk(s, t) }

  ghost predicate Inv(s: State) {
    |s.pcs| < SHOULD - 1 && ListOk(s) && AllNodes(s) && AllThreads(s)
  }

  // ----- framing: what a step of thread `t` on node `x` leaves alone

  /** The node a thread is working on. */
  function Subject(pc: Pc): Option<Node> {
    match pc
    case Idle => None
    case Add(n) => Some(n)
    case LoadHead(n, _) => Some(n)
    case StoreNext(n, _, _) => Some(n)
    case StoreRefs(n, _, _) => Some(n)
    case CasHead(n, _, _) => Some(n)
    case Retry(n, _, _) => Some(n)
    case GetHead => None
    case GetRefs(h) => Some(h)
    case CasRefs(h, _) => Some(h)
    case GetNext(h) => Some(h)
    case CasPop(h, _) => Some(h)
    case Sub1(h, _) => Some(h)
    case Sub2(h) => Some(h)
  }

  predicate Names(r: Role, t: Tid) {
    r == Adding(t) || r == Got(t) || r == Exclusive(t) || r == Trying(t)
  }

  ghost predicate OnlyMoves(s: State, s': State, t: Tid, x: Node) {
    && t in s.pcs && s'.pcs.Keys == s.pcs.Keys
    && (forall u :: u != t ==> PcOf(s', u) == PcOf(s, u))
    && (forall n :: n != x ==> At(s', n) == At(s, n) && (n in s'.list <==> n in s.list))
    && (Subject(PcOf(s, t)).None? || Subject(PcOf(s, t)) == Some(x))
    && (Holds(PcOf(s', t)).None? || Holds(PcOf(s', t)) == Some(x))
  }

  lemma HoldersOf(s: State, s': State, t: Tid, x: Node, n: Node)
    requires OnlyMoves(s, s', t, x)
    ensures Holders(s', n) == Holders(s, n) - {t} + (if Holds(PcOf(s', t)) == Some(n) then {t} else {})
    ensures n != x ==> Holders(s', n) == Holders(s, n)
  {
    forall u
      ensures u in Holders(s', n) <==> u in Holders(s, n) - {t} + (if Holds(PcOf(s', t)) == Some(n) then {t} else {})
    {
      if u != t { assert PcOf(s', u) == PcOf(s, u); }
    }
  }

  lemma OtherNode(s: State, s': State, t: Tid, x: Node, n: Node)
    requires OnlyMoves(s, s', t, x) && n != x && NodeOk(s, n)
    ensures NodeOk(s', n)
  {
    HoldersOf(s, s', t, x, n);
    OtherRole(s, s', t, x, n);
  }

  lemma OtherRole(s: State, s': State, t: Tid, x: Node, n: Node)
    requires OnlyMoves(s, s', t, x) && n != x && RoleOk(s, n) && Holders(s', n) == Holders(s, n)
    ensures RoleOk(s', n)
  {
    assert At(s', n) == At(s, n);
    assert !Names(At(s, n).role, t);
  }

  lemma OtherThread(s: State, s': State, t: Tid, x: Node, u: Tid)
    requires OnlyMoves(s, s', t, x) && u != t && ThreadOk(s, u)
    requires At(s', x).role == At(s, x).role || !Names(At(s, x).role, u)
    requires At(s', x).next == At(s, x).next || (Holders(s, x) == {} && !Names(At(s, x).role, u))
    ensures ThreadOk(s', u)
  {
    assert PcOf(s', u) == PcOf(s, u);
    if Holds(PcOf(s, u)) == Some(x) { assert u in Holders(s, x); }
  }

  lemma NodesStay(s: State, s': State, t: Tid, x: Node)
    requires AllNodes(s) && OnlyMoves(s, s', t, x) && NodeOk(s', x)
    ensures AllNodes(s')
  {
    forall n ensures NodeOk(s', n) {
      if n != x { assert NodeOk(s, n); OtherNode(s, s', t, x, n); }
    }
  }

  /** No other thread's facts are about the role or the `next` a step of `t` gives to node `x`. */
  ghost predicate Mine(s: State, s': State, t: Tid, x: Node) {
    var r := At(s, x).role;
    && (At(s', x).role == r || r.User? || r.Waiting? || r.Linked? || Names(r, t))
    && (At(s', x).next == At(s, x).next || (Holders(s, x) == {} && r == Exclusive(t)))
  }

  lemma ThreadsStay(s: State, s': State, t: Tid, x: Node)
    requires AllThreads(s) && OnlyMoves(s, s', t, x) && ThreadOk(s', t) && Mine(s, s', t, x)
    ensures AllThreads(s')
  {
    forall u ensures ThreadOk(s', u) {
      if u != t { assert ThreadOk(s, u); OtherThread(s, s', t, x, u); }
    }
  }

  /** A step keeps the invariant once its own node, its own thread and the list are shown to be in order. */
  lemma Keeps(s: State, s': State, t: Tid, x: Node)
    requires Inv(s) && OnlyMoves(s, s', t, x) && Mine(s, s', t, x)
    requires NodeOk(s', x) && ThreadOk(s', t) && ListOk(s')
    ensures Inv(s')
  {
    NodesStay(s, s', t, x);
    ThreadsStay(s, s', t, x);
    assert |s'.pcs| == |s'.pcs.Keys| == |s.pcs|;
  }

  /** The list does not depend on nodes outside it, nor on anything but their `next`. */
  lemma ListStays(s: State, s': State)
    requires ListOk(s) && s'.list == s.list && s'.head == s.head
    requires forall n :: n in s.list ==> At(s', n).next == At(s, n).next
    ensures ListOk(s')
  {
    forall i | 0 <= i < |s'.list| ensures LinkAt(s', i) {
      assert LinkAt(s, i);
      assert s.list[i] in s.list;
    }
  }

  lemma FewHolders(s: State, n: Node)
    requires |s.pcs| < SHOULD - 1
    ensures |Holders(s, n)| < SHOULD - 1
  {
    assert Holders(s, n) <= s.pcs.Keys;
    assert s.pcs.Keys == Holders(s, n) + (s.pcs.Keys - Holders(s, n));
    assert |s.pcs.Keys| == |Holders(s, n)| + |s.pcs.Keys - Holders(s, n)|;
  }

  // ----- every step keeps the invariant

  lemma PutMoves(s: State, n: Node, c: Cell, t: Tid, pc: Pc)
    requires t in s.pcs
    requires Subject(PcOf(s, t)).None? || Subject(PcOf(s, t)) == Some(n)
    requires Holds(pc).None? || Holds(pc) == Some(n)
    ensures OnlyMoves(s, Put(s, n, c, t, pc), t, n)
    ensures Holders(Put(s, n, c, t, pc), n) == Holders(s, n) - {t} + (if Holds(pc).Some? then {t} else {})
    ensures t in Holders(s, n) <==> Holds(PcOf(s, t)).Some?
  {
    HoldersOf(s, Put(s, n, c, t, pc), t, n, n);
  }

  /** The step is in order as far as its own node and thread are concerned. */
  ghost predicate PutOk(s: State, n: Node, c: Cell, t: Tid, pc: Pc) {
    && t in s.pcs
    && (Subject(PcOf(s, t)).None? || Subject(PcOf(s, t)) == Some(n))
    && (Holds(pc).None? || Holds(pc) == Some(n))
    && NodeOk(Put(s, n, c, t, pc), n) && ThreadOk(Put(s, n, c, t, pc), t)
    && Mine(s, Put(s, n, c, t, pc), t, n)
  }

  lemma PutList(s: State, n: Node, c: Cell, t: Tid, pc: Pc)
    requires ListOk(s) && NodeOk(s, n)
    requires c.next == At(s, n).next || At(s, n).role == Exclusive(t)
    ensures ListOk(Put(s, n, c, t, pc))
  {
    ListStays(s, Put(s, n, c, t, pc));
  }

  /** A step that rewrites one node and leaves the list alone. */
  lemma PutKeeps(s: State, n: Node, c: Cell, t: Tid, pc: Pc)
    requires Inv(s) && PutOk(s, n, c, t, pc)
    ensures Inv(Put(s, n, c, t, pc))
  {
    PutMoves(s, n, c, t, pc);
    assert NodeOk(s, n);
    PutList(s, n, c, t, pc);
    Keeps(s, Put(s, n, c, t, pc), t, n);
  }

  lemma GotoMoves(s: State, t: Tid, x: Node, pc: Pc)
    requires t in s.pcs
    requires Subject(PcOf(s, t)).None? || Subject(PcOf(s, t)) == Some(x)
    requires Holds(pc) == Holds(PcOf(s, t))
    ensures OnlyMoves(s, Goto(s, t, pc), t, x)
    ensures Holders(Goto(s, t, pc), x) == Holders(s, x)
    ensures Mine(s, Goto(s, t, pc), t, x)
  {
    HoldersOf(s, Goto(s, t, pc), t, x, x);
  }

  /** Loads, and calls that start: only the thread's own locals change. */
  lemma LocalKeeps(s: State, t: Tid, x: Node, pc: Pc)
    requires Inv(s) && t in s.pcs
    requires Subject(PcOf(s, t)).None? || Subject(PcOf(s, t)) == Some(x)
    requires Holds(pc) == Holds(PcOf(s, t)) && ThreadOk(Goto(s, t, pc), t) && NodeOk(Goto(s, t, pc), x)
    ensures Inv(Goto(s, t, pc))
  {
    GotoMoves(s, t, x, pc);
    ListStays(s, Goto(s, t, pc));
    Keeps(s, Goto(s, t, pc), t, x);
  }

  /** `add` when nobody holds a reference: the caller becomes the node's exclusive owner. */
  lemma AddAlone(s: State, t: Tid, n: Node, c: Cell)
    requires NodeOk(s, n) && ThreadOk(s, t) && t in s.pcs && PcOf(s, t) == Add(n) && At(s, n).refs == 0
    requires c == At(s, n).(refs := SHOULD, added := At(s, n).added + 1, role := Exclusive(t))
    ensures PutOk(s, n, c, t, LoadHead(n, Leave))
  {
    PutMoves(s, n, c, t, LoadHead(n, Leave));
  }

  /** `add` while references are held: the node waits for the last of them to be dropped. */
  lemma AddWaits(s: State, t: Tid, n: Node, c: Cell)
    requires NodeOk(s, n) && ThreadOk(s, t) && t in s.pcs && PcOf(s, t) == Add(n) && At(s, n).refs != 0
    requires c == At(s, n).(refs := At(s, n).refs + SHOULD, added := At(s, n).added + 1, role := Waiting)
    ensures PutOk(s, n, c, t, Idle)
  {
    PutMoves(s, n, c, t, Idle);
  }

  lemma AddKeeps(s: State, t: Tid, n: Node)
    requires Inv(s) && t in s.pcs && PcOf(s, t) == Add(n)
    ensures Inv(AddStep(s, t, n))
  {
    assert NodeOk(s, n) && ThreadOk(s, t);
    var c := At(s, n);
    var c' := c.(refs := c.refs + SHOULD, added := c.added + 1);
    if c.refs == 0 { AddAlone(s, t, n, c'.(role := Exclusive(t))); } else { AddWaits(s, t, n, c'.(role := Waiting)); }
    if c.refs == 0 { PutKeeps(s, n, c'.(role := Exclusive(t)), t, LoadHead(n, Leave)); }
    else { PutKeeps(s, n, c'.(role := Waiting), t, Idle); }
  }

  /** Starting an `add`, and the two stores of the exclusive owner, whose node nobody else can observe. */
  lemma StoreOk(s: State, t: Tid, n: Node, c: Cell, pc: Pc)
    requires NodeOk(s, n) && ThreadOk(s, t) && t in s.pcs
    requires
      || (PcOf(s, t).Idle? && At(s, n).role.User? && c == At(s, n).(role := Adding(t)) && pc == Add(n))
      || (PcOf(s, t).StoreNext? && PcOf(s, t).n == n && c == At(s, n).(next := PcOf(s, t).hd)
        && pc == StoreRefs(n, PcOf(s, t).hd, PcOf(s, t).k))
      || (PcOf(s, t).StoreRefs? && PcOf(s, t).n == n && c == At(s, n).(refs := 1, role := Trying(t))
        && pc == CasHead(n, PcOf(s, t).hd, PcOf(s, t).k))
    ensures PutOk(s, n, c, t, pc)
  {
    PutMoves(s, n, c, t, pc);
  }

  lemma StoreKeeps(s: State, t: Tid, n: Node, c: Cell, pc: Pc)
    requires Inv(s) && t in s.pcs
    requires
      || (PcOf(s, t).Idle? && At(s, n).role.User? && c == At(s, n).(role := Adding(t)) && pc == Add(n))
      || (PcOf(s, t).StoreNext? && PcOf(s, t).n == n && c == At(s, n).(next := PcOf(s, t).hd)
        && pc == StoreRefs(n, PcOf(s, t).hd, PcOf(s, t).k))
      || (PcOf(s, t).StoreRefs? && PcOf(s, t).n == n && c == At(s, n).(refs := 1, role := Trying(t))
        && pc == CasHead(n, PcOf(s, t).hd, PcOf(s, t).k))
    ensures Inv(Put(s, n, c, t, pc))
  {
    assert NodeOk(s, n) && ThreadOk(s, t);
    StoreOk(s, t, n, c, pc);
    PutKeeps(s, n, c, t, pc);
  }

  lemma LinkOk(s: State, t: Tid, n: Node, h: Option<Node>, k: After)
    requires NodeOk(s, n) && ThreadOk(s, t) && t in s.pcs && PcOf(s, t) == CasHead(n, h, k) && s.head == h
    ensures var s' := LinkStep(s, t, n, h, k);
            OnlyMoves(s, s', t, n) && NodeOk(s', n) && ThreadOk(s', t) && Mine(s, s', t, n)
  {
    var s' := LinkStep(s, t, n, h, k);
    assert OnlyMoves(s, s', t, n);
    HoldersOf(s, s', t, n, n);
    assert Holders(s', n) == Holders(s, n);
  }

  /** A successful head CAS puts the node in front of the list it saw. */
  lemma LinkKeeps(s: State, t: Tid, n: Node, h: Option<Node>, k: After)
    requires Inv(s) && t in s.pcs && PcOf(s, t) == CasHead(n, h, k)
    ensures Inv(LinkStep(s, t, n, h, k))
  {
    assert NodeOk(s, n) && ThreadOk(s, t);
    if s.head == h {
      LinkOk(s, t, n, h, k);
      LinkedList(s, LinkStep(s, t, n, h, k), n);
      Keeps(s, LinkStep(s, t, n, h, k), t, n);
    } else {
      GotoMoves(s, t, n, Retry(n, s.head, k));
      LocalKeeps(s, t, n, Retry(n, s.head, k));
    }
  }

  lemma LinkedList(s: State, s': State, n: Node)
    requires ListOk(s) && n !in s.list && At(s, n).next == s.head
    requires s'.list == [n] + s.list && s'.head == Some(n)
    requires forall m :: At(s', m).next == At(s, m).next
    ensures ListOk(s')
  {
    forall i | 0 <= i < |s'.list| ensures LinkAt(s', i) {
      if i > 0 { assert LinkAt(s, i - 1); }
    }
  }

  lemma RetryOk(s: State, t: Tid, n: Node, h: Option<Node>, k: After)
    requires NodeOk(s, n) && ThreadOk(s, t) && t in s.pcs && PcOf(s, t) == Retry(n, h, k)
    ensures var c := At(s, n); var c' := c.(refs := c.refs + SHOULD - 1);
            if c.refs == 1 then PutOk(s, n, c'.(role := Exclusive(t)), t, StoreNext(n, h, k))
            else PutOk(s, n, c'.(role := Waiting), t, Resume(k))
  {
    var c := At(s, n);
    var c' := c.(refs := c.refs + SHOULD - 1);
    if c.refs == 1 { PutMoves(s, n, c'.(role := Exclusive(t)), t, StoreNext(n, h, k)); }
    else { PutMoves(s, n, c'.(role := Waiting), t, Resume(k)); }
  }

  lemma RetryKeeps(s: State, t: Tid, n: Node, h: Option<Node>, k: After)
    requires Inv(s) && t in s.pcs && PcOf(s, t) == Retry(n, h, k)
    ensures Inv(RetryStep(s, t, n, h, k))
  {
    assert NodeOk(s, n) && ThreadOk(s, t);
    RetryOk(s, t, n, h, k);
    var c := At(s, n);
    var c' := c.(refs := c.refs + SHOULD - 1);
    if c.refs == 1 { PutKeeps(s, n, c'.(role := Exclusive(t)), t, StoreNext(n, h, k)); }
    else { PutKeeps(s, n, c'.(role := Waiting), t, Resume(k)); }
  }

  /** Taking a reference needs a non-zero count, so never succeeds on an exclusively owned node. */
  lemma CasRefsHolders(s: State, t: Tid, h: Node, r: int, s': State)
    requires NodeOk(s, h) && ThreadOk(s, t) && t in s.pcs && PcOf(s, t) == CasRefs(h, r) && At(s, h).refs == r
    requires s' == Put(s, h, At(s, h).(refs := r + 1), t, GetNext(h))
    ensures !At(s, h).role.Exclusive? && t !in Holders(s, h) && Holders(s', h) == Holders(s, h) + {t}
  {
    PutMoves(s, h, At(s, h).(refs := r + 1), t, GetNext(h));
  }

  lemma CasRefsOk(s: State, t: Tid, h: Node, r: int)
    requires NodeOk(s, h) && ThreadOk(s, t) && t in s.pcs && PcOf(s, t) == CasRefs(h, r) && At(s, h).refs == r
    ensures PutOk(s, h, At(s, h).(refs := r + 1), t, GetNext(h))
  {
    CasRefsHolders(s, t, h, r, Put(s, h, At(s, h).(refs := r + 1), t, GetNext(h)));
  }

  lemma CasRefsKeeps(s: State, t: Tid, h: Node, r: int)
    requires Inv(s) && t in s.pcs && PcOf(s, t) == CasRefs(h, r)
    ensures Inv(CasRefsStep(s, t, h, r))
  {
    assert NodeOk(s, h) && ThreadOk(s, t);
    if At(s, h).refs == r {
      CasRefsOk(s, t, h, r);
      PutKeeps(s, h, At(s, h).(refs := r + 1), t, GetNext(h));
    } else {
      GetKeeps(s, t, h, GetHead);
    }
  }

  lemma PopMoves(s: State, t: Tid, h: Node, nx: Option<Node>)
    requires ListOk(s) && t in s.pcs && PcOf(s, t) == CasPop(h, nx) && s.head == Some(h)
    ensures var s' := PopStep(s, t, h, nx);
      OnlyMoves(s, s', t, h) && t in Holders(s, h) && Holders(s', h) == Holders(s, h)
  {
    var s' := PopStep(s, t, h, nx);
    PoppedMembers(s.list);
    assert OnlyMoves(s, s', t, h);
    HoldersOf(s, s', t, h, h);
    assert t in Holders(s, h);
    assert Holders(s', h) == Holders(s, h);
  }

  lemma PopOk(s: State, t: Tid, h: Node, nx: Option<Node>)
    requires NodeOk(s, h) && ThreadOk(s, t) && ListOk(s) && t in s.pcs && PcOf(s, t) == CasPop(h, nx)
      && s.head == Some(h)
    ensures var s' := PopStep(s, t, h, nx);
            OnlyMoves(s, s', t, h) && NodeOk(s', h) && ThreadOk(s', t) && Mine(s, s', t, h)
  {
    PoppedMembers(s.list);
    PopMoves(s, t, h, nx);
  }

  /** A successful head CAS of `try_get` installs the true successor: the `next` it read is still current. */
  lemma PopKeeps(s: State, t: Tid, h: Node, nx: Option<Node>)
    requires Inv(s) && t in s.pcs && PcOf(s, t) == CasPop(h, nx)
    ensures s.head == Some(h) ==>
      |s.list| > 0 && h == s.list[0] && nx == (if |s.list| > 1 then Some(s.list[1]) else None)
    ensures Inv(PopStep(s, t, h, nx))
  {
    assert NodeOk(s, h) && ThreadOk(s, t);
    if s.head == Some(h) {
      assert LinkAt(s, 0);
      PopOk(s, t, h, nx);
      PoppedList(s, PopStep(s, t, h, nx), nx);
      Keeps(s, PopStep(s, t, h, nx), t, h);
    } else {
      GetKeeps(s, t, h, Sub1(h, s.head));
    }
  }

  lemma PoppedMembers(list: seq<Node>)
    requires |list| > 0 && forall i, j :: 0 <= i < j < |list| ==> list[i] != list[j]
    ensures list[0] !in list[1..]
    ensures forall n :: n != list[0] ==> (n in list[1..] <==> n in list)
  {
    assert list == [list[0]] + list[1..];
  }

  lemma PoppedList(s: State, s': State, nx: Option<Node>)
    requires ListOk(s) && |s.list| > 0 && s'.list == s.list[1..]
    requires s'.head == nx == if |s.list| > 1 then Some(s.list[1]) else None
    requires forall m :: At(s', m).next == At(s, m).next
    ensures ListOk(s')
  {
    forall i | 0 <= i < |s'.list| ensures LinkAt(s', i) {
      assert LinkAt(s, i + 1);
    }
  }

  /** The last holder of a flagged node becomes the one who links it. */
  lemma Sub1LastOk(s: State, t: Tid, h: Node, cur: Option<Node>)
    requires NodeOk(s, h) && ThreadOk(s, t) && t in s.pcs && PcOf(s, t) == Sub1(h, cur) && |s.pcs| < SHOULD - 1
    requires At(s, h).refs == SHOULD + 1
    ensures PutOk(s, h, At(s, h).(refs := SHOULD, role := Exclusive(t)), t, LoadHead(h, Continue(cur)))
  {
    FewHolders(s, h);
    PutMoves(s, h, At(s, h).(refs := SHOULD, role := Exclusive(t)), t, LoadHead(h, Continue(cur)));
    assert |Holders(s, h) - {t}| == 0;
  }

  lemma Sub1MoreOk(s: State, t: Tid, h: Node, cur: Option<Node>)
    requires NodeOk(s, h) && ThreadOk(s, t) && t in s.pcs && PcOf(s, t) == Sub1(h, cur)
    requires At(s, h).refs != SHOULD + 1
    ensures PutOk(s, h, At(s, h).(refs := At(s, h).refs - 1), t, Loop(cur))
  {
    PutMoves(s, h, At(s, h).(refs := At(s, h).refs - 1), t, Loop(cur));
    assert |Holders(s, h) - {t}| == |Holders(s, h)| - 1;
  }

  lemma Sub1Keeps(s: State, t: Tid, h: Node, cur: Option<Node>)
    requires Inv(s) && t in s.pcs && PcOf(s, t) == Sub1(h, cur)
    ensures Inv(Sub1Step(s, t, h, cur))
  {
    assert NodeOk(s, h) && ThreadOk(s, t);
    var c := At(s, h);
    if c.refs == SHOULD + 1 {
      Sub1LastOk(s, t, h, cur);
      PutKeeps(s, h, c.(refs := SHOULD, role := Exclusive(t)), t, LoadHead(h, Continue(cur)));
    } else {
      Sub1MoreOk(s, t, h, cur);
      PutKeeps(s, h, c.(refs := c.refs - 1), t, Loop(cur));
    }
  }

  lemma Sub2Ok(s: State, t: Tid, h: Node)
    requires NodeOk(s, h) && ThreadOk(s, t) && t in s.pcs && PcOf(s, t) == Sub2(h) && |s.pcs| < SHOULD - 1
    ensures At(s, h).refs < SHOULD
    ensures var c := At(s, h); PutOk(s, h, c.(refs := c.refs - 2, role := User, got := c.got + 1), t, Idle)
  {
    FewHolders(s, h);
    var c := At(s, h);
    PutMoves(s, h, c.(refs := c.refs - 2, role := User, got := c.got + 1), t, Idle);
  }

  /** The assertion before `fetch_sub(2)` holds: the flag is clear. */
  lemma Sub2Keeps(s: State, t: Tid, h: Node)
    requires Inv(s) && t in s.pcs && PcOf(s, t) == Sub2(h)
    ensures At(s, h).refs < SHOULD
    ensures Inv(Sub2Step(s, t, h))
  {
    assert NodeOk(s, h) && ThreadOk(s, t);
    Sub2Ok(s, t, h);
    var c := At(s, h);
    PutKeeps(s, h, c.(refs := c.refs - 2, role := User, got := c.got + 1), t, Idle);
  }

  predicate Getting(pc: Pc, x: Node) {
    || pc.Idle? || pc.GetHead?
    || ((pc.GetRefs? || pc.CasRefs? || pc.GetNext? || pc.CasPop?) && pc.h == x)
  }

  /** A thread in the loads of `try_get` is named by no node's role, so these steps disturb none. */
  lemma GetOk(s: State, t: Tid, x: Node, pc: Pc)
    requires NodeOk(s, x) && t in s.pcs && Getting(PcOf(s, t), x) && Holds(pc) == Holds(PcOf(s, t))
    ensures NodeOk(Goto(s, t, pc), x)
  {
    GotoMoves(s, t, x, pc);
  }

  lemma GetKeeps(s: State, t: Tid, x: Node, pc: Pc)
    requires Inv(s) && t in s.pcs && Getting(PcOf(s, t), x)
    requires Holds(pc) == Holds(PcOf(s, t)) && ThreadOk(Goto(s, t, pc), t)
    ensures Inv(Goto(s, t, pc))
  {
    assert NodeOk(s, x);
    GetOk(s, t, x, pc);
    LocalKeeps(s, t, x, pc);
  }

  lemma LoadKeeps(s: State, t: Tid)
    requires Inv(s) && t in s.pcs
    requires var pc := PcOf(s, t); pc.GetHead? || pc.GetRefs? || pc.GetNext?
    ensures Inv(Step(s, Run(t)))
  {
    match PcOf(s, t)
    case GetHead => GetKeeps(s, t, 0, Loop(s.head));
    case GetRefs(h) => GetKeeps(s, t, h, if At(s, h).refs % SHOULD == 0 then GetHead else CasRefs(h, At(s, h).refs));
    case GetNext(h) => GetKeeps(s, t, h, CasPop(h, At(s, h).next));
  }

  lemma LoadHeadKeeps(s: State, t: Tid, n: Node, k: After)
    requires Inv(s) && t in s.pcs && PcOf(s, t) == LoadHead(n, k)
    ensures Inv(Goto(s, t, StoreNext(n, s.head, k)))
  {
    assert NodeOk(s, n) && ThreadOk(s, t);
    GotoMoves(s, t, n, StoreNext(n, s.head, k));
    LocalKeeps(s, t, n, StoreNext(n, s.head, k));
  }

  /** Every step of every `add` and `try_get` keeps the invariant. */
  lemma StepKeeps(s: State, a: Act)
    requires Inv(s) && Enabled(s, a)
    ensures Inv(Step(s, a))
  {
    match a
    case StartAdd(t, n) => StoreKeeps(s, t, n, At(s, n).(role := Adding(t)), Add(n));
    case StartGet(t) => GetKeeps(s, t, 0, GetHead);
    case Run(t) =>
      match PcOf(s, t)
      case Add(n) => AddKeeps(s, t, n);
      case LoadHead(n, k) => LoadHeadKeeps(s, t, n, k);
      case StoreNext(n, h, k) => StoreKeeps(s, t, n, At(s, n).(next := h), StoreRefs(n, h, k));
      case StoreRefs(n, h, k) => StoreKeeps(s, t, n, At(s, n).(refs := 1, role := Trying(t)), CasHead(n, h, k));
      case CasHead(n, h, k) => LinkKeeps(s, t, n, h, k);
      case Retry(n, h, k) => RetryKeeps(s, t, n, h, k);
      case CasRefs(h, r) => CasRefsKeeps(s, t, h, r);
      case CasPop(h, nx) => PopKeeps(s, t, h, nx);
      case Sub1(h, cur) => Sub1Keeps(s, t, h, cur);
      case Sub2(h) => Sub2Keeps(s, t, h);
      case _ => LoadKeeps(s, t);
  }

  // ----- whole runs

  /** An empty list and a fixed set of fewer than 2^31 - 1 idle threads. */
  ghost predicate Init(s: State) {
    && s.head == None && s.mem == map[] && s.list == []
    && |s.pcs| < SHOULD - 1 && forall t :: PcOf(s, t) == Idle
  }

  ghost predicate MovesAt(run: seq<State>, acts: seq<Act>, i: nat)
    requires i < |acts| && |run| == |acts| + 1
  {
    Enabled(run[i], acts[i]) && run[i + 1] == Step(run[i], acts[i])
  }

  ghost predicate IsRun(run: seq<State>, acts: seq<Act>) {
    |run| == |acts| + 1 && Init(run[0]) && forall i :: 0 <= i < |acts| ==> MovesAt(run, acts, i)
  }

  lemma InitOk(s: State)
    requires Init(s)
    ensures Inv(s)
  {
    forall n ensures NodeOk(s, n) {
      forall t ensures t !in Holders(s, n) { assert PcOf(s, t) == Idle; }
      assert Holders(s, n) == {};
    }
    forall t ensures ThreadOk(s, t) { assert PcOf(s, t) == Idle; }
  }

  lemma {:induction false} RunKeeps(run: seq<State>, acts: seq<Act>, i: nat)
    requires IsRun(run, acts) && i < |run|
    ensures Inv(run[i])
  {
    if i == 0 {
      InitOk(run[0]);
    } else {
      RunKeeps(run, acts, i - 1);
      assert MovesAt(run, acts, i - 1);
      StepKeeps(run[i - 1], acts[i - 1]);
    }
  }

  /** Someone is bound to link this node: a thread inside `add_knowing_refcount_is_zero` has it, or it is
      flagged and somebody holds a reference (the last holder to leave will link it). */
  ghost predicate WillBeLinked(s: State, n: Node) {
    || (exists t ::
          var pc := PcOf(s, t);
          (pc.LoadHead? || pc.StoreNext? || pc.StoreRefs? || pc.CasHead? || pc.Retry?) && pc.n == n)
    || (At(s, n).refs > SHOULD && Holders(s, n) != {})
  }

  /** In every run: the list has no repetition and is what `head` and the `next` fields spell out; each `add`
      has been matched by at most one `try_get`; and a node that was added and not yet handed out is linked,
      or just taken off by one thread, or certain to be linked. */
  lemma NoNodeIsLost(run: seq<State>, acts: seq<Act>, i: nat, n: Node)
    requires IsRun(run, acts) && i < |run|
    ensures ListOk(run[i])
    ensures At(run[i], n).got <= At(run[i], n).added <= At(run[i], n).got + 1
    ensures At(run[i], n).added > At(run[i], n).got ==>
              n in run[i].list || (exists t :: PcOf(run[i], t) == Sub2(n)) || WillBeLinked(run[i], n)
  {
    RunKeeps(run, acts, i);
    var s := run[i];
    assert NodeOk(s, n);
    match At(s, n).role
    case Got(t) => assert PcOf(s, t) == Sub2(n);
    case Exclusive(t) => assert PcOf(s, t).n == n;
    case Trying(t) => assert PcOf(s, t).n == n;
    case Waiting => assert |Holders(s, n)| > 0;
    case _ =>
  }

  /** No ABA: whenever the head CAS of a `try_get` succeeds, it installs the true second node of the list. */
  lemma PopInstallsSuccessor(run: seq<State>, acts: seq<Act>, i: nat, t: Tid, h: Node, nx: Option<Node>)
    requires IsRun(run, acts) && i < |acts| && acts[i] == Run(t) && PcOf(run[i], t) == CasPop(h, nx)
      && run[i].head == Some(h)
    ensures |run[i].list| > 0 && run[i].list[0] == h
    ensures run[i + 1].list == run[i].list[1..]
      && run[i + 1].head == (if |run[i].list| > 1 then Some(run[i].list[1]) else None)
  {
    RunKeeps(run, acts, i);
    assert MovesAt(run, acts, i);
    PopKeeps(run[i], t, h, nx);
  }

  /** A node is off the list and handed to one caller at a time: two threads never return the same node. */
  lemma OneCallerPerNode(run: seq<State>, acts: seq<Act>, i: nat, t: Tid, u: Tid, n: Node)
    requires IsRun(run, acts) && i < |run| && PcOf(run[i], t) == Sub2(n) && PcOf(run[i], u) == Sub2(n)
    ensures t == u && n !in run[i].list && At(run[i], n).refs < SHOULD
  {
    RunKeeps(run, acts, i);
    assert ThreadOk(run[i], t) && ThreadOk(run[i], u) && NodeOk(run[i], n);
    FewHolders(run[i], n);
  }
}
