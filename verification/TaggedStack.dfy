/** The tagged Treiber stack behind basic/lf_freelist.c (`freelist_push`, `freelist_pop`) and basic/lf_stack.c
    (`stack_internal_push`, `stack_pop`, `stack_internal_init_element`), as a state machine over its shared
    accesses.

    `top` and every `next` are (pointer, counter) pairs that are loaded and stored one half at a time; only the
    double-word compare-and-swap is atomic.  Each push takes one fresh counter. */
module TaggedStack {
  import opened Prelude

  type Node = nat
  type Data = nat
  type Tid = nat

  datatype Pair = Pair(ptr: Option<Node>, ctr: nat)

  /** The freelist loads the counter of `top` first when it pops and leaves the element's data alone when it
      pushes; the stack loads the pointer first and initialises the element. */
  datatype Kind = Freelist | Stack

  /** Who a node belongs to, as a history variable: a user, the thread pushing or popping it, or the stack
      (at height `i`). */
  datatype Role = User | Owned(t: Tid) | Linked(i: nat)

  datatype Cell = Cell(next: Pair, data: Data, role: Role)

  /** The stack from the bottom up, as a history variable. */
  datatype Entry = Entry(node: Node, tag: nat)

  datatype Item = Item(node: Node, data: Data)
  datatype Event = Pushed(item: Item) | Popped(item: Item)

  datatype Pc =
    | Idle
    | TakeTag(n: Node, d: Data)
    | InitPtr(n: Node, d: Data, tag: nat)
    | InitCtr(n: Node, d: Data, tag: nat)
    | InitData(n: Node, d: Data, tag: nat)
    | PushPtr(n: Node, d: Data, tag: nat)
    | PushCtr(n: Node, d: Data, tag: nat, p: Option<Node>)
    | StorePtr(n: Node, d: Data, tag: nat, p: Option<Node>, c: nat)
    | StoreCtr(n: Node, d: Data, tag: nat, p: Option<Node>, c: nat)
    | PushSwap(n: Node, d: Data, tag: nat, p: Option<Node>, c: nat)
    | PopStart
    | PopPtr(c: nat)
    | PopCtr(p: Option<Node>)
    | NextPtr(m: Node, c: nat)
    | NextCtr(m: Node, c: nat, x: Option<Node>)
    | PopSwap(m: Node, c: nat, x: Option<Node>, y: nat)
    | Got(n: Node, d: Data)

  datatype State = State(
    kind: Kind, top: Pair, aba: nat, mem: map<Node, Cell>, pcs: map<Tid, Pc>,
    list: seq<Entry>, events: seq<Event>)

  datatype Act = StartPush(t: Tid, n: Node, d: Data) | StartPop(t: Tid) | SetData(n: Node, d: Data) | Run(t: Tid)

  function At(s: State, n: Node): Cell {
    if n in s.mem then s.mem[n] else Cell(Pair(None, 0), 0, User)
  }

  function PcOf(s: State, t: Tid): Pc {
    if t in s.pcs then s.pcs[t] else Idle
  }

  function Goto(s: State, t: Tid, pc: Pc): State {
    s.(pcs := s.pcs[t := pc])
  }

  function Put(s: State, n: Node, c: Cell, t: Tid, pc: Pc): State {
    s.(mem := s.mem[n := c], pcs := s.pcs[t := pc])
  }

  predicate Enabled(s: State, a: Act) {
    match a
    case StartPush(t, n, d) => PcOf(s, t).Idle? && At(s, n).role.User?
    case StartPop(t) => PcOf(s, t).Idle?
    case SetData(n, d) => At(s, n).role.User?
    case Run(t) => !PcOf(s, t).Idle?
  }

  /** The test at the head of the pop loop: return empty-handed on a null pointer. */
  function Test(p: Option<Node>, c: nat): Pc {
    match p case None => Idle case Some(n) => NextPtr(n, c)
  }

  function Pushing(s: State, t: Tid, n: Node, d: Data, tag: nat, p: Option<Node>, c: nat): State {
    if s.top == Pair(p, c)
    then Put(s, n, At(s, n).(role := Linked(|s.list|)), t, Idle).(
      top := Pair(Some(n), tag), list := s.list + [Entry(n, tag)], events := s.events + [Pushed(Item(n, d))])
    else Goto(s, t, StorePtr(n, d, tag, s.top.ptr, s.top.ctr))
  }

  function Popping(s: State, t: Tid, m: Node, c: nat, x: Option<Node>, y: nat): State {
    if s.top == Pair(Some(m), c)
    then Put(s, m, At(s, m).(role := Owned(t)), t, Got(m, At(s, m).data)).(
      top := Pair(x, y), list := if |s.list| > 0 then s.list[..|s.list| - 1] else [],
      events := s.events + [Popped(Item(m, At(s, m).data))])
    else Goto(s, t, Test(s.top.ptr, s.top.ctr))
  }

  function WithPtr(c: Cell, p: Option<Node>): Cell { c.(next := c.next.(ptr := p)) }
  function WithCtr(c: Cell, k: nat): Cell { c.(next := c.next.(ctr := k)) }

  function PushStep(s: State, t: Tid): State {
    match PcOf(s, t)
    case TakeTag(n, d) =>
      Goto(s, t, if s.kind.Stack? then InitPtr(n, d, s.aba + 1) else PushPtr(n, d, s.aba + 1)).(aba := s.aba + 1)
    case InitPtr(n, d, tag) => Put(s, n, WithPtr(At(s, n), None), t, InitCtr(n, d, tag))
    case InitCtr(n, d, tag) => Put(s, n, WithCtr(At(s, n), 0), t, InitData(n, d, tag))
    case InitData(n, d, tag) => Put(s, n, At(s, n).(data := d), t, PushPtr(n, d, tag))
    case PushPtr(n, d, tag) => Goto(s, t, PushCtr(n, d, tag, s.top.ptr))
    case PushCtr(n, d, tag, p) => Goto(s, t, StorePtr(n, d, tag, p, s.top.ctr))
    case StorePtr(n, d, tag, p, c) => Put(s, n, WithPtr(At(s, n), p), t, StoreCtr(n, d, tag, p, c))
    case StoreCtr(n, d, tag, p, c) => Put(s, n, WithCtr(At(s, n), c), t, PushSwap(n, d, tag, p, c))
    case PushSwap(n, d, tag, p, c) => Pushing(s, t, n, d, tag, p, c)
    case _ => s
  }

  function PopStep(s: State, t: Tid): State {
    match PcOf(s, t)
    case PopStart => Goto(s, t, if s.kind.Stack? then PopCtr(s.top.ptr) else PopPtr(s.top.ctr))
    case PopPtr(c) => Goto(s, t, Test(s.top.ptr, c))
    case PopCtr(p) => Goto(s, t, Test(p, s.top.ctr))
    case NextPtr(m, c) => Goto(s, t, NextCtr(m, c, At(s, m).next.ptr))
    case NextCtr(m, c, x) => Goto(s, t, PopSwap(m, c, x, At(s, m).next.ctr))
    case PopSwap(m, c, x, y) => Popping(s, t, m, c, x, y)
    case Got(n, d) => Put(s, n, At(s, n).(role := User), t, Idle)
    case _ => s
  }

  predicate InPush(pc: Pc) {
    || pc.TakeTag? || pc.InitPtr? || pc.InitCtr? || pc.InitData? || pc.PushPtr? || pc.PushCtr?
    || pc.StorePtr? || pc.StoreCtr? || pc.PushSwap?
  }

  predicate InPop(pc: Pc) {
    pc.PopStart? || pc.PopPtr? || pc.PopCtr? || pc.NextPtr? || pc.NextCtr? || pc.PopSwap? || pc.Got?
  }

  function Step(s: State, a: Act): State
    requires Enabled(s, a)
  {
    match a
    case StartPush(t, n, d) =>
      Put(s, n, At(s, n).(role := Owned(t)), t, TakeTag(n, if s.kind.Stack? then d else At(s, n).data))
    case StartPop(t) => Goto(s, t, PopStart)
    case SetData(n, d) => s.(mem := s.mem[n := At(s, n).(data := d)])
    case Run(t) => if InPush(PcOf(s, t)) then PushStep(s, t) else PopStep(s, t)
  }

  // ----- the invariant

  /** The pair that stands for the stack of the lowest `i` entries; the bottom is (NULL, 0) for ever. */
  function PairAt(list: seq<Entry>, i: nat): Pair
    requires i <= |list|
  {
    if i == 0 then Pair(None, 0) else Pair(Some(list[i - 1].node), list[i - 1].tag)
  }

  ghost predicate LinkAt(s: State, i: nat)
    requires i < |s.list|
  {
    At(s, s.list[i].node).next == PairAt(s.list, i) && At(s, s.list[i].node).role == Linked(i)
    && 1 <= s.list[i].tag <= s.aba
  }

  /** Following `top` and `next` through memory walks exactly through `list`. */
  ghost predicate Chain(s: State) {
    s.top == PairAt(s.list, |s.list|) && forall i :: 0 <= i < |s.list| ==> LinkAt(s, i)
  }

  /** A reference stack: replaying the log of successful operations, every pop takes the last item pushed. */
  ghost function Replay(events: seq<Event>): Option<seq<Item>> {
    if events == [] then Some([]) else
      var e, before := events[|events| - 1], Replay(events[..|events| - 1]);
      match before
      case None => None
      case Some(st) =>
        match e
        case Pushed(item) => Some(st + [item])
        case Popped(item) => if |st| > 0 && st[|st| - 1] == item then Some(st[..|st| - 1]) else None
  }

  ghost predicate ItemAt(s: State, st: seq<Item>, i: nat)
    requires i < |s.list| == |st|
  {
    st[i] == Item(s.list[i].node, At(s, s.list[i].node).data)
  }

  /** What the memory holds, from the bottom up. */
  ghost predicate Holds(s: State, st: seq<Item>) {
    |st| == |s.list| && forall i :: 0 <= i < |st| ==> ItemAt(s, st, i)
  }

  ghost predicate Lifo(s: State) {
    Replay(s.events).Some? && Holds(s, Replay(s.events).value)
  }

  /** A push that has taken its counter and not yet installed it. */
  predicate Pending(pc: Pc) { InPush(pc) && !pc.TakeTag? }

  /** A pop that has loaded the counter of `top`. */
  predicate HasCtr(pc: Pc) { pc.PopPtr? || pc.NextPtr? || pc.NextCtr? || pc.PopSwap? }

  ghost predicate Unused(list: seq<Entry>, tag: nat) {
    forall i :: 0 <= i < |list| ==> list[i].tag != tag
  }

  /** If the pair a pop holds is in the stack, what it has read of that node's `next` is current. */
  ghost predicate Current(s: State, m: Node, c: nat, x: Option<Node>) {
    Entry(m, c) in s.list ==> At(s, m).next.ptr == x
  }

  ghost predicate PushOk(s: State, t: Tid) {
    var pc := PcOf(s, t);
    && (InPush(pc) ==> At(s, pc.n).role == Owned(t))
    && (Pending(pc) ==> 1 <= pc.tag <= s.aba && Unused(s.list, pc.tag))
    && (InPush(pc) && !(s.kind.Stack? && (pc.TakeTag? || pc.InitPtr? || pc.InitCtr? || pc.InitData?))
        ==> At(s, pc.n).data == pc.d)
    && (pc.StoreCtr? || pc.PushSwap? ==> At(s, pc.n).next.ptr == pc.p)
    && (pc.PushSwap? ==> At(s, pc.n).next.ctr == pc.c)
  }

  ghost predicate PopOk(s: State, t: Tid) {
    var pc := PcOf(s, t);
    && (HasCtr(pc) ==> pc.c <= s.aba)
    && (pc.NextCtr? || pc.PopSwap? ==> Current(s, pc.m, pc.c, pc.x))
    && (pc.PopSwap? && Entry(pc.m, pc.c) in s.list ==> At(s, pc.m).next.ctr == pc.y)
    && (pc.Got? ==> At(s, pc.n).role == Owned(t) && At(s, pc.n).data == pc.d)
  }

  /** No two pushes share a counter, and no push will install a counter that a pop has already loaded. */
  ghost predicate Apart(s: State, t: Tid, u: Tid) {
    t != u && Pending(PcOf(s, u)) ==>
      && (Pending(PcOf(s, t)) ==> PcOf(s, t).tag != PcOf(s, u).tag)
      && (HasCtr(PcOf(s, t)) ==> PcOf(s, t).c != PcOf(s, u).tag)
  }

  ghost predicate ThreadOk(s: State, t: Tid) { PushOk(s, t) && PopOk(s, t) }
  ghost predicate AllOk(s: State) { forall t :: ThreadOk(s, t) }
  ghost predicate AllApart(s: State) { forall t, u :: Apart(s, t, u) }

  ghost predicate Inv(s: State) {
    Chain(s) && Lifo(s) && AllOk(s) && AllApart(s)
  }

  // ----- every step keeps the invariant

  /** Nothing differs but the cell of `n` and where thread `t` stands. */
  ghost predicate Differs(s: State, s': State, t: Tid, n: Node) {
    && s'.kind == s.kind && s'.top == s.top && s'.aba == s.aba && s'.list == s.list && s'.events == s.events
    && (forall u :: u != t ==> PcOf(s', u) == PcOf(s, u))
    && (forall x :: x != n ==> At(s', x) == At(s, x))
  }

  /** The thread takes no new counter and loads none. */
  ghost predicate SameTags(before: Pc, pc: Pc) {
    && (Pending(pc) ==> Pending(before) && before.tag == pc.tag)
    && (HasCtr(pc) ==> HasCtr(before) && before.c == pc.c)
  }

  predicate Private(r: Role, t: Tid) { r.User? || r == Owned(t) }

  lemma ChainSame(s: State, s': State, t: Tid, n: Node)
    requires Chain(s) && Lifo(s) && Differs(s, s', t, n) && !At(s, n).role.Linked?
    ensures Chain(s') && Lifo(s')
  {
    forall i | 0 <= i < |s.list| ensures LinkAt(s', i) { assert LinkAt(s, i); }
    var st := Replay(s.events).value;
    forall i | 0 <= i < |st| ensures ItemAt(s', st, i) { assert ItemAt(s, st, i) && LinkAt(s, i); }
  }

  lemma InList(s: State, e: Entry)
    requires Chain(s) && e in s.list
    ensures At(s, e.node).role.Linked? && e.tag <= s.aba
  {
    var i :| 0 <= i < |s.list| && s.list[i] == e;
    assert LinkAt(s, i);
  }

  lemma OtherSame(s: State, s': State, t: Tid, n: Node, u: Tid)
    requires Chain(s) && Differs(s, s', t, n) && Private(At(s, n).role, t) && ThreadOk(s, u) && u != t
    ensures ThreadOk(s', u)
  {
    var pc := PcOf(s, u);
    if pc.NextCtr? || pc.PopSwap? {
      if Entry(pc.m, pc.c) in s.list { InList(s, Entry(pc.m, pc.c)); }
    }
  }

  lemma RewriteKeeps(s: State, s': State, t: Tid, n: Node)
    requires Inv(s) && Differs(s, s', t, n) && Private(At(s, n).role, t)
    requires ThreadOk(s', t) && SameTags(PcOf(s, t), PcOf(s', t))
    ensures Inv(s')
  {
    ChainSame(s, s', t, n);
    forall u ensures ThreadOk(s', u) {
      assert ThreadOk(s, u);
      if u != t { OtherSame(s, s', t, n, u); }
    }
    ApartSame(s, s', t);
  }

  lemma StartPushKeeps(s: State, t: Tid, n: Node, d: Data)
    requires Inv(s) && Enabled(s, StartPush(t, n, d))
    ensures Inv(Step(s, StartPush(t, n, d)))
  {
    RewriteKeeps(s, Step(s, StartPush(t, n, d)), t, n);
  }

  lemma SetDataKeeps(s: State, n: Node, d: Data)
    requires Inv(s) && Enabled(s, SetData(n, d))
    ensures Inv(Step(s, SetData(n, d)))
  {
    var s' := Step(s, SetData(n, d));
    ChainSame(s, s', 0, n);
    forall u: Tid ensures ThreadOk(s', u) {
      assert ThreadOk(s, u);
      OtherSame(s, s', u + 1, n, u);
    }
    forall u, v ensures Apart(s', u, v) { assert Apart(s, u, v); }
  }

  lemma OwnWriteKeeps(s: State, t: Tid)
    requires Inv(s) && var pc := PcOf(s, t); pc.InitPtr? || pc.InitCtr? || pc.InitData? || pc.StorePtr? || pc.StoreCtr?
    ensures Inv(PushStep(s, t))
  {
    assert ThreadOk(s, t);
    RewriteKeeps(s, PushStep(s, t), t, PcOf(s, t).n);
  }

  lemma FinishKeeps(s: State, t: Tid)
    requires Inv(s) && PcOf(s, t).Got?
    ensures Inv(PopStep(s, t))
  {
    assert ThreadOk(s, t);
    RewriteKeeps(s, PopStep(s, t), t, PcOf(s, t).n);
  }

  /** Loads, and swaps that fail. */
  lemma LocalKeeps(s: State, t: Tid, pc: Pc)
    requires Inv(s) && ThreadOk(Goto(s, t, pc), t)
    requires forall u :: Apart(Goto(s, t, pc), t, u) && Apart(Goto(s, t, pc), u, t)
    ensures Inv(Goto(s, t, pc))
  {
    var s' := Goto(s, t, pc);
    forall i | 0 <= i < |s.list| ensures LinkAt(s', i) { assert LinkAt(s, i); }
    var st := Replay(s.events).value;
    forall i | 0 <= i < |st| ensures ItemAt(s', st, i) { assert ItemAt(s, st, i); }
    forall u ensures ThreadOk(s', u) { assert ThreadOk(s, u); }
    forall u, v ensures Apart(s', u, v) { assert Apart(s, u, v); }
  }

  /** The counter in `top` belongs to no pending push. */
  lemma TopIsUsed(s: State, u: Tid)
    requires Chain(s) && ThreadOk(s, u)
    ensures s.top.ctr <= s.aba
    ensures Pending(PcOf(s, u)) ==> PcOf(s, u).tag != s.top.ctr
  {
    if |s.list| > 0 { assert LinkAt(s, |s.list| - 1); }
  }

  lemma PushLoadKeeps(s: State, t: Tid)
    requires Inv(s) && var pc := PcOf(s, t); pc.PushPtr? || pc.PushCtr? || (pc.PushSwap? && s.top != Pair(pc.p, pc.c))
    ensures Inv(PushStep(s, t))
  {
    assert ThreadOk(s, t);
    var pc := PcOf(PushStep(s, t), t);
    forall u ensures Apart(Goto(s, t, pc), t, u) && Apart(Goto(s, t, pc), u, t) {
      assert Apart(s, t, u) && Apart(s, u, t);
    }
    LocalKeeps(s, t, pc);
  }

  lemma PopLoadKeeps(s: State, t: Tid)
    requires Inv(s) && var pc := PcOf(s, t);
      || pc.PopStart? || pc.PopPtr? || pc.PopCtr? || pc.NextPtr? || pc.NextCtr?
      || (pc.PopSwap? && s.top != Pair(Some(pc.m), pc.c))
    ensures Inv(PopStep(s, t))
  {
    assert ThreadOk(s, t);
    var pc := PcOf(PopStep(s, t), t);
    TopIsUsed(s, t);
    forall u ensures Apart(Goto(s, t, pc), t, u) && Apart(Goto(s, t, pc), u, t) { PopLoadApart(s, t, u); }
    LocalKeeps(s, t, pc);
  }

  lemma PopLoadApart(s: State, t: Tid, u: Tid)
    requires Inv(s) && var pc := PcOf(s, t);
      || pc.PopStart? || pc.PopPtr? || pc.PopCtr? || pc.NextPtr? || pc.NextCtr?
      || (pc.PopSwap? && s.top != Pair(Some(pc.m), pc.c))
    ensures var s' := Goto(s, t, PcOf(PopStep(s, t), t)); Apart(s', t, u) && Apart(s', u, t)
  {
    assert Apart(s, t, u) && Apart(s, u, t) && ThreadOk(s, u);
    TopIsUsed(s, u);
  }

  lemma StartPopKeeps(s: State, t: Tid)
    requires Inv(s) && PcOf(s, t).Idle?
    ensures Inv(Goto(s, t, PopStart))
  {
    LocalKeeps(s, t, PopStart);
  }

  lemma TakeTagKeeps(s: State, t: Tid)
    requires Inv(s) && PcOf(s, t).TakeTag?
    ensures Inv(PushStep(s, t))
  {
    var s' := PushStep(s, t);
    forall i | 0 <= i < |s.list| ensures LinkAt(s', i) && s.list[i].tag != s'.aba { assert LinkAt(s, i); }
    var st := Replay(s.events).value;
    forall i | 0 <= i < |st| ensures ItemAt(s', st, i) { assert ItemAt(s, st, i); }
    forall u ensures ThreadOk(s', u) { assert ThreadOk(s, u); }
    forall u, v ensures Apart(s', u, v) { TakeTagApart(s, t, u, v); }
  }

  lemma TakeTagApart(s: State, t: Tid, u: Tid, v: Tid)
    requires Inv(s) && PcOf(s, t).TakeTag?
    ensures Apart(PushStep(s, t), u, v)
  {
    assert Apart(s, u, v) && ThreadOk(s, u) && ThreadOk(s, v);
  }

  /** The log grows by one event; the reference stack changes by that event. */
  lemma ReplayPush(events: seq<Event>, item: Item)
    requires Replay(events).Some?
    ensures Replay(events + [Pushed(item)]) == Some(Replay(events).value + [item])
  {
    assert (events + [Pushed(item)])[..|events|] == events;
  }

  lemma ReplayPop(events: seq<Event>, item: Item)
    requires Replay(events).Some? && var st := Replay(events).value; |st| > 0 && st[|st| - 1] == item
    ensures var st := Replay(events).value; Replay(events + [Popped(item)]) == Some(st[..|st| - 1])
  {
    assert (events + [Popped(item)])[..|events|] == events;
  }

  lemma LinkChain(s: State, t: Tid, n: Node, d: Data, tag: nat, p: Option<Node>, c: nat)
    requires Inv(s) && PcOf(s, t) == PushSwap(n, d, tag, p, c) && s.top == Pair(p, c)
    ensures Chain(Pushing(s, t, n, d, tag, p, c)) && Lifo(Pushing(s, t, n, d, tag, p, c))
  {
    var s' := Pushing(s, t, n, d, tag, p, c);
    assert ThreadOk(s, t);
    forall i | 0 <= i < |s'.list| ensures LinkAt(s', i) {
      if i < |s.list| { assert LinkAt(s, i); }
    }
    ReplayPush(s.events, Item(n, d));
    var st, st' := Replay(s.events).value, Replay(s'.events).value;
    forall i | 0 <= i < |st'| ensures ItemAt(s', st', i) {
      if i < |st| { assert ItemAt(s, st, i) && LinkAt(s, i); }
    }
  }

  lemma LinkOther(s: State, t: Tid, n: Node, d: Data, tag: nat, p: Option<Node>, c: nat, u: Tid)
    requires Inv(s) && PcOf(s, t) == PushSwap(n, d, tag, p, c) && s.top == Pair(p, c)
    ensures ThreadOk(Pushing(s, t, n, d, tag, p, c), u)
  {
    assert ThreadOk(s, t) && ThreadOk(s, u) && Apart(s, u, t);
    var pc := PcOf(s, u);
    if u != t && (pc.NextCtr? || pc.PopSwap?) {
      if Entry(pc.m, pc.c) in s.list { InList(s, Entry(pc.m, pc.c)); }
    }
  }

  lemma ApartSame(s: State, s': State, t: Tid)
    requires AllApart(s) && SameTags(PcOf(s, t), PcOf(s', t)) && forall u :: u != t ==> PcOf(s', u) == PcOf(s, u)
    ensures AllApart(s')
  {
    forall u, v ensures Apart(s', u, v) { assert Apart(s, u, v); }
  }

  lemma PushKeeps(s: State, t: Tid, n: Node, d: Data, tag: nat, p: Option<Node>, c: nat)
    requires Inv(s) && PcOf(s, t) == PushSwap(n, d, tag, p, c) && s.top == Pair(p, c)
    ensures Inv(Pushing(s, t, n, d, tag, p, c))
  {
    var s' := Pushing(s, t, n, d, tag, p, c);
    LinkChain(s, t, n, d, tag, p, c);
    assert AllOk(s') by {
      forall u ensures ThreadOk(s', u) { LinkOther(s, t, n, d, tag, p, c, u); }
    }
    ApartSame(s, s', t);
  }

  /** A pop whose swap succeeds has read the whole of the top node's current `next`. */
  lemma ReadWhole(s: State, t: Tid, m: Node, c: nat, x: Option<Node>, y: nat)
    requires Inv(s) && PcOf(s, t) == PopSwap(m, c, x, y) && s.top == Pair(Some(m), c)
    ensures |s.list| > 0 && s.list[|s.list| - 1] == Entry(m, c) && Pair(x, y) == PairAt(s.list, |s.list| - 1)
    ensures At(s, m).role == Linked(|s.list| - 1)
  {
    assert ThreadOk(s, t);
    var i := |s.list| - 1;
    assert s.list[i] == Entry(m, c);
    assert LinkAt(s, i);
  }

  lemma UnlinkChain(s: State, t: Tid, m: Node, c: nat, x: Option<Node>, y: nat)
    requires Inv(s) && PcOf(s, t) == PopSwap(m, c, x, y) && s.top == Pair(Some(m), c)
    ensures Chain(Popping(s, t, m, c, x, y)) && Lifo(Popping(s, t, m, c, x, y))
  {
    var s' := Popping(s, t, m, c, x, y);
    ReadWhole(s, t, m, c, x, y);
    forall i | 0 <= i < |s'.list| ensures LinkAt(s', i) { assert LinkAt(s, i); }
    var st := Replay(s.events).value;
    assert ItemAt(s, st, |st| - 1);
    ReplayPop(s.events, Item(m, At(s, m).data));
    var st' := st[..|st| - 1];
    forall i | 0 <= i < |st'| ensures ItemAt(s', st', i) { assert ItemAt(s, st, i) && LinkAt(s, i); }
  }

  lemma UnlinkOther(s: State, t: Tid, m: Node, c: nat, x: Option<Node>, y: nat, u: Tid)
    requires Inv(s) && PcOf(s, t) == PopSwap(m, c, x, y) && s.top == Pair(Some(m), c)
    ensures ThreadOk(Popping(s, t, m, c, x, y), u)
  {
    ReadWhole(s, t, m, c, x, y);
    assert ThreadOk(s, t) && ThreadOk(s, u);
  }

  lemma PopKeeps(s: State, t: Tid, m: Node, c: nat, x: Option<Node>, y: nat)
    requires Inv(s) && PcOf(s, t) == PopSwap(m, c, x, y) && s.top == Pair(Some(m), c)
    ensures Inv(Popping(s, t, m, c, x, y))
  {
    var s' := Popping(s, t, m, c, x, y);
    UnlinkChain(s, t, m, c, x, y);
    assert AllOk(s') by {
      forall u ensures ThreadOk(s', u) { UnlinkOther(s, t, m, c, x, y, u); }
    }
    ApartSame(s, s', t);
  }

  lemma PushStepKeeps(s: State, t: Tid)
    requires Inv(s) && InPush(PcOf(s, t))
    ensures Inv(PushStep(s, t))
  {
    var pc := PcOf(s, t);
    if pc.TakeTag? {
      TakeTagKeeps(s, t);
    } else if pc.PushSwap? && s.top == Pair(pc.p, pc.c) {
      PushKeeps(s, t, pc.n, pc.d, pc.tag, pc.p, pc.c);
    } else if pc.PushPtr? || pc.PushCtr? || pc.PushSwap? {
      PushLoadKeeps(s, t);
    } else {
      OwnWriteKeeps(s, t);
    }
  }

  lemma PopStepKeeps(s: State, t: Tid)
    requires Inv(s) && InPop(PcOf(s, t))
    ensures Inv(PopStep(s, t))
  {
    var pc := PcOf(s, t);
    if pc.Got? {
      FinishKeeps(s, t);
    } else if pc.PopSwap? && s.top == Pair(Some(pc.m), pc.c) {
      PopKeeps(s, t, pc.m, pc.c, pc.x, pc.y);
    } else {
      PopLoadKeeps(s, t);
    }
  }

  lemma StepKeeps(s: State, a: Act)
    requires Inv(s) && Enabled(s, a)
    ensures Inv(Step(s, a))
  {
    match a
    case StartPush(t, n, d) => StartPushKeeps(s, t, n, d);
    case StartPop(t) => StartPopKeeps(s, t);
    case SetData(n, d) => SetDataKeeps(s, n, d);
    case Run(t) => if InPush(PcOf(s, t)) { PushStepKeeps(s, t); } else { PopStepKeeps(s, t); }
  }

  // ----- whole runs

  /** An empty stack; every node belongs to a user; nobody is in a call. */
  ghost predicate Init(s: State) {
    && s.top == Pair(None, 0) && s.aba == 0 && s.list == [] && s.events == []
    && (forall n :: At(s, n).role.User?)
    && (forall t :: PcOf(s, t).Idle?)
  }

  ghost predicate MovesAt(run: seq<State>, acts: seq<Act>, i: int)
    requires 0 <= i < |acts| && |run| == |acts| + 1
  {
    Enabled(run[i], acts[i]) && run[i + 1] == Step(run[i], acts[i])
  }

  ghost predicate IsRun(run: seq<State>, acts: seq<Act>) {
    |run| == |acts| + 1 && Init(run[0]) && forall i :: 0 <= i < |acts| ==> MovesAt(run, acts, i)
  }

  lemma InitOk(s: State)
    requires Init(s)
    ensures Inv(s)
  {
    forall t ensures ThreadOk(s, t) { assert PcOf(s, t).Idle?; }
    forall t, u ensures Apart(s, t, u) { assert PcOf(s, u).Idle?; }
  }

  lemma {:induction false} RunKeeps(run: seq<State>, acts: seq<Act>, i: nat)
    requires IsRun(run, acts) && i < |run|
    ensures Inv(run[i])
  {
    if i == 0 {
      InitOk(run[0]);
    } else {
      RunKeeps(run, acts, i - 1);
      assert MovesAt(run, acts, i - 1);
      StepKeeps(run[i - 1], acts[i - 1]);
    }
  }

  /** In every interleaving of any number of pushes and pops, with recycled nodes and pairs read in halves, the
      stack in memory is what a LIFO stack holds after the same successful operations. */
  lemma RunIsLifo(run: seq<State>, acts: seq<Act>, i: nat)
    requires IsRun(run, acts) && i < |run|
    ensures Chain(run[i])
    ensures Replay(run[i].events).Some? && Holds(run[i], Replay(run[i].events).value)
  {
    RunKeeps(run, acts, i);
  }

  /** The element a pop is about to hand over belongs to no other thread, and its data are those of the item it
      took off; no push in flight shares its node either. */
  lemma PopperOwnsElement(run: seq<State>, acts: seq<Act>, i: nat, t: Tid, u: Tid)
    requires IsRun(run, acts) && i < |run| && PcOf(run[i], t).Got?
    ensures var n := PcOf(run[i], t).n;
      && At(run[i], n).data == PcOf(run[i], t).d
      && (u != t && (InPush(PcOf(run[i], u)) || PcOf(run[i], u).Got?) ==> PcOf(run[i], u).n != n)
      && (forall c :: Entry(n, c) !in run[i].list)
  {
    RunKeeps(run, acts, i);
    assert ThreadOk(run[i], t) && ThreadOk(run[i], u);
    forall c ensures Entry(PcOf(run[i], t).n, c) !in run[i].list {
      if Entry(PcOf(run[i], t).n, c) in run[i].list { InList(run[i], Entry(PcOf(run[i], t).n, c)); }
    }
  }

  /** The pop holds the pair (m, c) and is reading or has read that node's `next`. */
  predicate Chasing(pc: Pc, m: Node, c: nat) {
    (pc.NextPtr? || pc.NextCtr? || pc.PopSwap?) && pc.m == m && pc.c == c
  }

  /** A step cannot bring back a pair that a pop holds, nor change the `next` of a node that is in the stack. */
  lemma WasLinked(s: State, a: Act, t: Tid, m: Node, c: nat, k: nat)
    requires Inv(s) && Enabled(s, a) && Chasing(PcOf(s, t), m, c)
    requires var s' := Step(s, a); k < |s'.list| && s'.list[k] == Entry(m, c) && Chasing(PcOf(s', t), m, c)
    ensures k < |s.list| && s.list[k] == Entry(m, c)
    ensures At(Step(s, a), m).next == At(s, m).next
  {
    if a.Run? {
      assert ThreadOk(s, a.t) && Apart(s, t, a.t);
    }
    if k < |s.list| { assert LinkAt(s, k); }
  }

  /** No ABA: when the pair a pop holds is on the stack at the end of a stretch of the run, that node was linked
      at the same place with the same `next` all through the stretch, whatever else happened meanwhile. */
  lemma {:induction false} StayedLinked(run: seq<State>, acts: seq<Act>, j: nat, i: nat, t: Tid, m: Node, c: nat,
    k: nat)
    requires IsRun(run, acts) && j <= i < |run|
    requires forall h :: j <= h <= i ==> Chasing(PcOf(run[h], t), m, c)
    requires k < |run[i].list| && run[i].list[k] == Entry(m, c)
    ensures k < |run[j].list| && run[j].list[k] == Entry(m, c) && At(run[j], m).next == At(run[i], m).next
    decreases i - j
  {
    if j < i {
      RunKeeps(run, acts, i - 1);
      assert MovesAt(run, acts, i - 1);
      WasLinked(run[i - 1], acts[i - 1], t, m, c, k);
      StayedLinked(run, acts, j, i - 1, t, m, c, k);
    }
  }

  /** When a pop's swap succeeds, its node was on the stack with an unchanged `next` ever since the pop took up
      the pair, and the swap leaves exactly the rest of the stack. */
  lemma PopTakesTop(run: seq<State>, acts: seq<Act>, j: nat, i: nat, t: Tid)
    requires IsRun(run, acts) && j <= i < |acts| && acts[i] == Run(t)
    requires PcOf(run[i], t).PopSwap? && PcOf(run[i + 1], t).Got?
    requires forall h :: j <= h <= i ==> Chasing(PcOf(run[h], t), PcOf(run[i], t).m, PcOf(run[i], t).c)
    ensures var m, k := PcOf(run[i], t).m, |run[i].list| - 1;
      && 0 <= k < |run[j].list| && run[j].list[k] == run[i].list[k] == Entry(m, PcOf(run[i], t).c)
      && At(run[j], m).next == At(run[i], m).next
      && run[i + 1].list == run[i].list[..k] && run[i + 1].top == PairAt(run[i].list, k)
  {
    var s, pc := run[i], PcOf(run[i], t);
    RunKeeps(run, acts, i);
    assert MovesAt(run, acts, i);
    ReadWhole(s, t, pc.m, pc.c, pc.x, pc.y);
    StayedLinked(run, acts, j, i, t, pc.m, pc.c, |s.list| - 1);
  }

  lemma NullLoaded(s: State, a: Act, t: Tid)
    requires Chain(s) && Enabled(s, a) && PcOf(Step(s, a), t) == PopCtr(None)
    ensures InPop(PcOf(s, t))
    ensures s.list == [] || PcOf(s, t) == PopCtr(None)
  {
  }

  /** A stack pop that has loaded a null pointer loaded it, in the same call, when the stack was empty. */
  lemma {:induction false} NullWitness(run: seq<State>, acts: seq<Act>, i: nat, t: Tid) returns (k: nat)
    requires IsRun(run, acts) && i < |run| && PcOf(run[i], t) == PopCtr(None)
    ensures k < i && run[k].list == [] && forall h :: k <= h <= i ==> InPop(PcOf(run[h], t))
  {
    assert i > 0 by { assert Init(run[0]); }
    RunKeeps(run, acts, i - 1);
    assert MovesAt(run, acts, i - 1);
    NullLoaded(run[i - 1], acts[i - 1], t);
    if run[i - 1].list == [] {
      k := i - 1;
    } else {
      k := NullWitness(run, acts, i - 1, t);
    }
  }

  /** When a pop returns empty-handed, the stack was empty at some instant of that call. */
  lemma EmptyAnswerWasTrue(run: seq<State>, acts: seq<Act>, i: nat, t: Tid)
    requires IsRun(run, acts) && i < |acts| && acts[i] == Run(t)
    requires InPop(PcOf(run[i], t)) && !PcOf(run[i], t).Got? && PcOf(run[i + 1], t).Idle?
    ensures exists k :: 0 <= k <= i && run[k].list == [] && forall h :: k <= h <= i ==> InPop(PcOf(run[h], t))
  {
    RunKeeps(run, acts, i);
    assert MovesAt(run, acts, i);
    var k := i;
    if PcOf(run[i], t).PopCtr? { k := NullWitness(run, acts, i, t); }
    assert run[k].list == [];
  }
}
