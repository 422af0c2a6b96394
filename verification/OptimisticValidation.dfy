/** Kung-Robinson parallel validation, bench/cc/occ.cpp (`OptCC::central_validate`), as a state machine.

    A transaction reads rows, decides what to write, enters a first critical section (which snapshots the
    active writers and the transaction counter), validates, writes its rows one by one, and leaves through a
    second critical section (which gives it a transaction number and appends it to the history).  All of
    these interleave freely between transactions. */
module OptimisticValidation {
  import opened Prelude

  type Txn = nat
  type Row = nat

  datatype Phase = Unborn | Running | Validating | Writing | Failed | Committed | Aborted

  /** A version of a row that a transaction has copied: who wrote it (None: the initial version). */
  datatype Copy = Copy(x: Row, writer: Option<Txn>)

  /** `seen` holds the versions the transaction has copied, for reading or for updating; `rank` is its position in the
      order of first critical sections; `live` is `finish_active`. */
  datatype Tx = Tx(phase: Phase, start: nat, rset: set<Row>, wset: set<Row>, seen: set<Copy>,
                   rank: nat, finish: nat, live: seq<Txn>, written: set<Row>, tn: nat)

  /** `active` and `history` are the two lists, newest first; `order` records entries to the first critical
      section; `db[x]` is the transaction whose version of row `x` is current. */
  datatype State = State(tnc: nat, active: seq<Txn>, history: seq<Txn>, order: seq<Txn>,
                         db: map<Row, Option<Txn>>, tx: map<Txn, Tx>)

  const NEWTX := Tx(Unborn, 0, {}, {}, {}, 0, 0, [], {}, 0)

  function T(s: State, t: Txn): Tx {
    if t in s.tx then s.tx[t] else NEWTX
  }

  function Db(s: State, x: Row): Option<Txn> {
    if x in s.db then s.db[x] else None
  }

  datatype Act =
    | Begin(t: Txn, start: nat)
    | Read(t: Txn, x: Row)
    | Update(t: Txn, x: Row)
    | Enter(t: Txn)
    | Decide(t: Txn)
    | Write(t: Txn, x: Row)
    | Leave(t: Txn)

  predicate Enabled(s: State, a: Act) {
    match a
    case Begin(t, start) => T(s, t).phase.Unborn?
    case Read(t, x) => T(s, t).phase.Running?
    case Update(t, x) => T(s, t).phase.Running?
    case Enter(t) => T(s, t).phase.Running?
    case Decide(t) => T(s, t).phase.Validating?
    case Write(t, x) => T(s, t).phase.Writing? && x in T(s, t).wset - T(s, t).written
    case Leave(t) => T(s, t).phase.Failed? || (T(s, t).phase.Writing? && T(s, t).written == T(s, t).wset)
  }

  function Put(s: State, t: Txn, x: Tx): State {
    s.(tx := s.tx[t := x])
  }

  /** Unlink the entry of `t` from a list (occ.cpp:149-159). */
  function Unlink(l: seq<Txn>, t: Txn): seq<Txn> {
    if l == [] then [] else if l[0] == t then l[1..] else [l[0]] + Unlink(l[1..], t)
  }

  lemma {:induction false} UnlinkOk(l: seq<Txn>, t: Txn)
    requires NoDup(l)
    ensures NoDup(Unlink(l, t))
    ensures forall u :: u in Unlink(l, t) <==> u in l && u != t
  {
    if l != [] {
      assert l == [l[0]] + l[1..];
      assert l[0] !in l[1..];
      if l[0] != t {
        UnlinkOk(l[1..], t);
        var r := Unlink(l[1..], t);
        assert l[0] !in r;
        assert Unlink(l, t) == [l[0]] + r;
      }
    }
  }

  /** occ.cpp:121-140: no committed transaction of the interval (start, finish] wrote a row `t` read, and no
      transaction that was active wrote a row `t` read or writes. */
  ghost predicate Valid(s: State, t: Txn) {
    var x := T(s, t);
    && (forall h :: h in s.history && x.start < T(s, h).tn <= x.finish ==> T(s, h).wset !! x.rset)
    && (forall a :: a in x.live ==> T(s, a).wset !! x.rset && T(s, a).wset !! x.wset)
  }

  ghost function Step(s: State, a: Act): State
    requires Enabled(s, a)
  {
    match a
    case Begin(t, start) => Put(s, t, NEWTX.(phase := Running, start := start))
    case Read(t, x) => var r := T(s, t); Put(s, t, r.(rset := r.rset + {x}, seen := r.seen + {Copy(x, Db(s, x))}))
    case Update(t, x) => var r := T(s, t); Put(s, t, r.(wset := r.wset + {x}, seen := r.seen + {Copy(x, Db(s, x))}))
    case Enter(t) => Entering(s, t)
    case Decide(t) => Put(s, t, T(s, t).(phase := if Valid(s, t) then Writing else Failed))
    case Write(t, x) => Put(s, t, T(s, t).(written := T(s, t).written + {x})).(db := s.db[x := Some(t)])
    case Leave(t) => Leaving(s, t)
  }

  /** The first critical section, occ.cpp:106-120. */
  function Entering(s: State, t: Txn): State {
    var r := T(s, t);
    Put(s, t, r.(phase := Validating, finish := s.tnc, live := s.active, rank := |s.order|)).(
      active := if r.wset == {} then s.active else [t] + s.active,
      order := s.order + [t])
  }

  /** The second critical section, occ.cpp:146-177; a read-only transaction skips it. */
  function Leaving(s: State, t: Txn): State {
    var r := T(s, t);
    var active := if r.wset == {} then s.active else Unlink(s.active, t);
    if r.phase.Failed? then Put(s, t, r.(phase := Aborted)).(active := active)
    else if r.wset == {} then Put(s, t, r.(phase := Committed))
    else Put(s, t, r.(phase := Committed, tn := s.tnc + 1)).(active := active, tnc := s.tnc + 1,
      history := [t] + s.history)
  }

  // ----- the serial order

  predicate Validated(x: Tx) { x.phase.Writing? || x.phase.Committed? }
  predicate Entered(x: Tx) { Validated(x) || x.phase.Validating? || x.phase.Failed? || x.phase.Aborted? }

  /** The transaction at position `i` is validated and writes `x`. */
  ghost predicate WritesAt(s: State, order: seq<Txn>, i: nat, x: Row)
    requires i < |order|
  {
    Validated(T(s, order[i])) && x in T(s, order[i]).wset
  }

  /** The last validated writer of row `x` among the first `k` transactions of a serial order. */
  ghost function LastWriter(s: State, order: seq<Txn>, k: nat, x: Row): Option<Txn>
    requires k <= |order|
  {
    if k == 0 then None
    else if WritesAt(s, order, k - 1, x) then Some(order[k - 1])
    else LastWriter(s, order, k - 1, x)
  }

  /** `w` is a writer below `k` and no validated writer of `x` sits between. */
  lemma {:induction false} LastWriterIs(s: State, order: seq<Txn>, k: nat, x: Row, w: Option<Txn>)
    requires k <= |order|
    requires w.Some? ==> exists i :: 0 <= i < k && order[i] == w.value && WritesAt(s, order, i, x)
                                     && forall j :: i < j < k ==> !WritesAt(s, order, j, x)
    requires w.None? ==> forall j :: 0 <= j < k ==> !WritesAt(s, order, j, x)
    ensures LastWriter(s, order, k, x) == w
  {
    if k > 0 && !WritesAt(s, order, k - 1, x) {
      LastWriterIs(s, order, k - 1, x, w);
    }
  }

  // ----- the invariant

  /** Positions in `order` and ranks agree. */
  ghost predicate Ranked(s: State, t: Txn) {
    Entered(T(s, t)) ==> T(s, t).rank < |s.order| && s.order[T(s, t).rank] == t
  }

  ghost predicate OrderOk(s: State) {
    && (forall i :: 0 <= i < |s.order| ==> Entered(T(s, s.order[i])) && T(s, s.order[i]).rank == i)
    && (forall t :: Ranked(s, t))
  }

  /** The lists: active writers, and committed writers numbered tnc, tnc - 1, ... */
  ghost predicate ListsOk(s: State) {
    && NoDup(s.active)
    && (forall t :: t in s.active <==>
          var x := T(s, t); x.wset != {} && (x.phase.Validating? || x.phase.Writing? || x.phase.Failed?))
    && |s.history| == s.tnc
    && (forall i :: 0 <= i < |s.history| ==> T(s, s.history[i]).tn == s.tnc - i)
    && (forall t :: t in s.history <==> T(s, t).phase.Committed? && T(s, t).wset != {})
  }

  ghost predicate TxOk(s: State, t: Txn) {
    var x := T(s, t);
    && x.start <= s.tnc && x.finish <= s.tnc
    && x.written <= x.wset && (x.written != {} ==> Validated(x)) && (x.phase.Committed? ==> x.written == x.wset)
    && (forall c :: c in x.seen ==> c.x in x.rset + x.wset)
    && (x.phase.Unborn? ==> x.seen == {} && x.live == [])
    && (forall a :: a in x.live ==> Entered(T(s, a)))
    && (Validated(x) ==> Checked(s, t))
  }

  /** What a successful validation established about `t`, which later steps cannot undo. */
  ghost predicate Checked(s: State, t: Txn) {
    forall h :: NoConflict(s, t, h)
  }

  ghost predicate NoConflict(s: State, t: Txn, h: Txn) {
    var x, y := T(s, t), T(s, h);
    && (y.phase.Committed? && y.wset != {} && x.start < y.tn <= x.finish ==> y.wset !! x.rset)
    && (h in x.live ==> y.wset !! x.rset && y.wset !! x.wset)
  }

  /** A transaction that entered earlier was either in the later one's snapshot, or is no writer, or had
      aborted, or had committed with a number the later one saw. */
  ghost predicate Earlier(s: State, t: Txn, u: Txn) {
    var x, y := T(s, t), T(s, u);
    Entered(x) && Entered(y) && x.rank < y.rank ==>
      t in y.live || x.wset == {} || x.phase.Aborted? || (x.phase.Committed? && x.tn <= y.finish)
  }

  /** The current version of `x` is the one with the highest rank among all versions written. */
  ghost predicate Newest(s: State, x: Row, t: Txn) {
    x in T(s, t).written ==> Db(s, x).Some? && T(s, t).rank <= T(s, Db(s, x).value).rank
  }

  ghost predicate DbOk(s: State, x: Row) {
    Db(s, x).Some? ==> x in T(s, Db(s, x).value).written
  }

  /** `t` may still miss the version of `x` that `u` wrote: `u` is writing, or committed after `t` began. */
  ghost predicate Late(s: State, t: Txn, u: Txn) {
    T(s, u).phase.Writing? || (T(s, u).phase.Committed? && T(s, u).tn > T(s, t).start)
  }

  /** Every version of a row of which `t`, not yet validated, has a copy is no newer than that copy, or is late. */
  ghost predicate SeenOk(s: State, t: Txn, c: Copy, u: Txn) {
    var r := T(s, t);
    c in r.seen && !Validated(r) ==>
      && (c.writer.Some? ==> c.x in T(s, c.writer.value).written && (Entered(r) ==> T(s, c.writer.value).rank < r.rank))
      && (c.x in T(s, u).written ==> Late(s, t, u) || (c.writer.Some? && T(s, u).rank <= T(s, c.writer.value).rank))
  }

  /** A validated transaction saw, of every row it read, the last validated version before it. */
  ghost predicate Serial(s: State, t: Txn, c: Copy, u: Txn) {
    var r := T(s, t);
    Validated(r) && c in r.seen && c.x in r.rset ==>
      && (c.writer.Some? ==> var w := T(s, c.writer.value); Validated(w) && c.x in w.wset && w.rank < r.rank)
      && (Validated(T(s, u)) && c.x in T(s, u).wset && T(s, u).rank < r.rank ==>
            c.writer.Some? && T(s, u).rank <= T(s, c.writer.value).rank)
  }

  ghost predicate AllTx(s: State) { forall t :: TxOk(s, t) }
  ghost predicate AllEarlier(s: State) { forall t, u :: Earlier(s, t, u) }
  ghost predicate AllDb(s: State) { (forall x :: DbOk(s, x)) && (forall x, t :: Newest(s, x, t)) }
  ghost predicate AllSeen(s: State) { forall t, c, u :: SeenOk(s, t, c, u) }
  ghost predicate AllSerial(s: State) { forall t, c, u :: Serial(s, t, c, u) }

  ghost predicate Inv(s: State) {
    OrderOk(s) && ListsOk(s) && AllTx(s) && AllEarlier(s) && AllDb(s) && AllSeen(s) && AllSerial(s)
  }

  // ----- steps of a running transaction, which no other transaction looks at

  /** A running transaction changes only its own read set, write set and what it saw. */
  ghost predicate RunningMove(s: State, s': State, t: Txn) {
    && s' == Put(s, t, T(s', t)) && !Entered(T(s, t)) && !Entered(T(s', t))
    && TxOk(s', t) && (forall c, u :: SeenOk(s', t, c, u))
  }

  lemma RunningKeeps(s: State, s': State, t: Txn)
    requires Inv(s) && RunningMove(s, s', t)
    ensures Inv(s')
  {
    assert TxOk(s, t);
    forall u | u != t ensures T(s', u) == T(s, u) {}
    RunningLists(s, s', t);
    RunningTx(s, s', t);
    forall u, v ensures Earlier(s', u, v) { assert Earlier(s, u, v); }
    RunningData(s, s', t);
  }

  lemma RunningLists(s: State, s': State, t: Txn)
    requires OrderOk(s) && ListsOk(s) && RunningMove(s, s', t)
    ensures OrderOk(s') && ListsOk(s')
  {
    forall u | u != t ensures T(s', u) == T(s, u) {}
    forall i | 0 <= i < |s.order| ensures s.order[i] != t { assert Entered(T(s, s.order[i])); }
    forall u ensures Ranked(s', u) { assert Ranked(s, u); }
    forall i | 0 <= i < |s.history| ensures T(s', s.history[i]).tn == s.tnc - i { assert s.history[i] in s.history; }
  }

  lemma RunningTx(s: State, s': State, t: Txn)
    requires AllTx(s) && RunningMove(s, s', t)
    ensures AllTx(s')
  {
    forall u ensures TxOk(s', u) {
      if u != t {
        assert TxOk(s, u);
        assert T(s', u) == T(s, u);
        if Validated(T(s, u)) {
          forall h ensures NoConflict(s', u, h) { assert NoConflict(s, u, h); }
        }
      }
    }
  }

  lemma RunningData(s: State, s': State, t: Txn)
    requires AllTx(s) && AllDb(s) && AllSeen(s) && AllSerial(s) && RunningMove(s, s', t)
    ensures AllDb(s') && AllSeen(s') && AllSerial(s')
  {
    assert TxOk(s, t) && TxOk(s', t);
    forall x ensures DbOk(s', x) { assert DbOk(s, x); }
    forall x, u ensures Newest(s', x, u) { assert Newest(s, x, u) && DbOk(s, x); }
    forall u, c, v ensures SeenOk(s', u, c, v) {
      if u != t { assert SeenOk(s, u, c, v) && TxOk(s, u); }
    }
    forall u, c, v ensures Serial(s', u, c, v) { assert Serial(s, u, c, v); }
  }

  lemma BeginKeeps(s: State, t: Txn, start: nat)
    requires Inv(s) && Enabled(s, Begin(t, start)) && start <= s.tnc
    ensures Inv(Step(s, Begin(t, start)))
  {
    RunningKeeps(s, Step(s, Begin(t, start)), t);
  }

  /** What an access copies is the newest version, so every other version is older. */
  lemma AccessKeeps(s: State, t: Txn, a: Act)
    requires Inv(s) && Enabled(s, a) && (a.Read? || a.Update?) && a.t == t
    ensures Inv(Step(s, a))
  {
    var s' := Step(s, a);
    assert TxOk(s, t);
    forall c, u ensures SeenOk(s', t, c, u) {
      assert SeenOk(s, t, c, u) && DbOk(s, a.x) && Newest(s, a.x, u) && TxOk(s, u);
    }
    RunningKeeps(s, s', t);
  }

  // ----- the critical sections, the verdict and the writes

  /** The number of a committed writer is at most `tnc`. */
  lemma NumberBelow(s: State, t: Txn)
    requires ListsOk(s) && T(s, t).phase.Committed? && T(s, t).wset != {}
    ensures T(s, t).tn <= s.tnc
  {
    var i :| 0 <= i < |s.history| && s.history[i] == t;
  }

  lemma EnterLists(s: State, t: Txn)
    requires OrderOk(s) && ListsOk(s) && T(s, t).phase.Running?
    ensures OrderOk(Entering(s, t)) && ListsOk(Entering(s, t))
  {
    var s' := Entering(s, t);
    forall u | u != t ensures T(s', u) == T(s, u) {}
    forall i | 0 <= i < |s'.order| ensures Entered(T(s', s'.order[i])) && T(s', s'.order[i]).rank == i {
      if i < |s.order| { assert Entered(T(s, s.order[i])) && T(s, s.order[i]).rank == i; }
    }
    forall u ensures Ranked(s', u) { assert Ranked(s, u); }
    forall i | 0 <= i < |s.history| ensures T(s', s.history[i]).tn == s.tnc - i { assert s.history[i] in s.history; }
    assert t !in s.active;
  }

  lemma EnterTx(s: State, t: Txn)
    requires ListsOk(s) && AllTx(s) && T(s, t).phase.Running?
    ensures AllTx(Entering(s, t))
  {
    var s' := Entering(s, t);
    forall u ensures TxOk(s', u) {
      assert TxOk(s, u);
      if Validated(T(s, u)) {
        forall h ensures NoConflict(s', u, h) { assert NoConflict(s, u, h); }
      }
    }
  }

  lemma EnterEarlier(s: State, t: Txn)
    requires OrderOk(s) && ListsOk(s) && AllTx(s) && AllEarlier(s) && T(s, t).phase.Running?
    ensures AllEarlier(Entering(s, t))
  {
    var s' := Entering(s, t);
    forall u, v ensures Earlier(s', u, v) {
      assert Earlier(s, u, v) && Ranked(s, u) && Ranked(s, v);
      if v == t && u != t && T(s, u).phase.Committed? && T(s, u).wset != {} { NumberBelow(s, u); }
    }
  }

  lemma EnterData(s: State, t: Txn)
    requires OrderOk(s) && AllTx(s) && AllDb(s) && AllSeen(s) && AllSerial(s) && T(s, t).phase.Running?
    ensures AllDb(Entering(s, t)) && AllSeen(Entering(s, t)) && AllSerial(Entering(s, t))
  {
    var s' := Entering(s, t);
    assert TxOk(s, t);
    forall x ensures DbOk(s', x) { assert DbOk(s, x); }
    forall x, u ensures Newest(s', x, u) { assert Newest(s, x, u) && DbOk(s, x); }
    forall u, c, v ensures SeenOk(s', u, c, v) {
      assert SeenOk(s, u, c, v) && TxOk(s, u);
      if c in T(s, u).seen && c.writer.Some? { assert TxOk(s, c.writer.value) && Ranked(s, c.writer.value); }
    }
    forall u, c, v ensures Serial(s', u, c, v) { assert Serial(s, u, c, v); }
  }

  lemma EnterKeeps(s: State, t: Txn)
    requires Inv(s) && T(s, t).phase.Running?
    ensures Inv(Entering(s, t))
  {
    EnterLists(s, t);
    EnterTx(s, t);
    EnterEarlier(s, t);
    EnterData(s, t);
  }

  function Decided(s: State, t: Txn, ok: bool): State {
    Put(s, t, T(s, t).(phase := if ok then Writing else Failed))
  }

  lemma DecideLists(s: State, t: Txn, ok: bool)
    requires OrderOk(s) && ListsOk(s) && T(s, t).phase.Validating?
    ensures OrderOk(Decided(s, t, ok)) && ListsOk(Decided(s, t, ok))
  {
    var s' := Decided(s, t, ok);
    forall i | 0 <= i < |s'.order| ensures Entered(T(s', s'.order[i])) && T(s', s'.order[i]).rank == i {
      assert Entered(T(s, s.order[i])) && T(s, s.order[i]).rank == i;
    }
    forall u ensures Ranked(s', u) { assert Ranked(s, u); }
    forall i | 0 <= i < |s.history| ensures T(s', s.history[i]).tn == s.tnc - i { assert s.history[i] in s.history; }
  }

  lemma DecideTx(s: State, t: Txn)
    requires ListsOk(s) && AllTx(s) && T(s, t).phase.Validating?
    ensures AllTx(Decided(s, t, Valid(s, t)))
  {
    var s' := Decided(s, t, Valid(s, t));
    forall u ensures TxOk(s', u) {
      assert TxOk(s, u);
      if Validated(T(s', u)) {
        forall h ensures NoConflict(s', u, h) {
          if u != t { assert NoConflict(s, u, h); }
        }
      }
    }
  }

  /** Validation succeeded: what `t` read is the newest validated version before it. */
  lemma DecideSerial(s: State, t: Txn, c: Copy, u: Txn)
    requires OrderOk(s) && ListsOk(s) && AllTx(s) && AllEarlier(s) && AllSeen(s) && T(s, t).phase.Validating?
      && Valid(s, t)
    ensures Serial(Decided(s, t, true), t, c, u)
  {
    assert SeenOk(s, t, c, u) && TxOk(s, t) && TxOk(s, u) && Earlier(s, u, t);
    if c.writer.Some? { assert TxOk(s, c.writer.value); }
  }

  /** A transaction that becomes valid later wrote nothing that an already validated later-ranked one read. */
  lemma DecideOthers(s: State, t: Txn, v: Txn, c: Copy, u: Txn)
    requires OrderOk(s) && AllTx(s) && AllEarlier(s) && AllSerial(s) && T(s, t).phase.Validating? && v != t
    ensures Serial(Decided(s, t, true), v, c, u)
  {
    assert Serial(s, v, c, u) && Earlier(s, t, v) && TxOk(s, v);
    if Validated(T(s, v)) { assert NoConflict(s, v, t); }
  }

  lemma DecideData(s: State, t: Txn, ok: bool)
    requires Inv(s) && T(s, t).phase.Validating? && (ok <==> Valid(s, t))
    ensures AllEarlier(Decided(s, t, ok)) && AllDb(Decided(s, t, ok)) && AllSeen(Decided(s, t, ok))
  {
    var s' := Decided(s, t, ok);
    forall u, v ensures Earlier(s', u, v) { assert Earlier(s, u, v); }
    forall x ensures DbOk(s', x) { assert DbOk(s, x); }
    forall x, u ensures Newest(s', x, u) { assert Newest(s, x, u) && DbOk(s, x); }
    forall u, c, v ensures SeenOk(s', u, c, v) { assert SeenOk(s, u, c, v) && TxOk(s, t); }
  }

  lemma DecideKeeps(s: State, t: Txn)
    requires Inv(s) && T(s, t).phase.Validating?
    ensures Inv(Decided(s, t, Valid(s, t)))
  {
    var ok := Valid(s, t);
    var s' := Decided(s, t, ok);
    DecideLists(s, t, ok);
    DecideTx(s, t);
    DecideData(s, t, ok);
    forall v, c, u ensures Serial(s', v, c, u) {
      assert Serial(s, v, c, u);
      if ok {
        if v == t { DecideSerial(s, t, c, u); } else { DecideOthers(s, t, v, c, u); }
      }
    }
  }

  function Wrote(s: State, t: Txn, x: Row): State {
    Put(s, t, T(s, t).(written := T(s, t).written + {x})).(db := s.db[x := Some(t)])
  }

  /** Versions of a row are written in rank order: a later-ranked writer of the row would have had `t` in its
      snapshot and failed validation. */
  lemma WriteInOrder(s: State, t: Txn, x: Row, u: Txn)
    requires OrderOk(s) && AllTx(s) && AllEarlier(s) && T(s, t).phase.Writing? && x in T(s, t).wset
      && x in T(s, u).written
    ensures T(s, u).rank <= T(s, t).rank
  {
    assert TxOk(s, t) && TxOk(s, u) && Earlier(s, t, u) && Ranked(s, t) && Ranked(s, u);
    assert NoConflict(s, u, t);
  }

  lemma WriteLists(s: State, t: Txn, x: Row)
    requires OrderOk(s) && ListsOk(s) && AllTx(s) && AllEarlier(s) && T(s, t).phase.Writing? && x in T(s, t).wset
    ensures var s' := Wrote(s, t, x); OrderOk(s') && ListsOk(s') && AllTx(s') && AllEarlier(s')
  {
    var s' := Wrote(s, t, x);
    forall i | 0 <= i < |s'.order| ensures Entered(T(s', s'.order[i])) && T(s', s'.order[i]).rank == i {
      assert Entered(T(s, s.order[i])) && T(s, s.order[i]).rank == i;
    }
    forall u ensures Ranked(s', u) { assert Ranked(s, u); }
    forall i | 0 <= i < |s.history| ensures T(s', s.history[i]).tn == s.tnc - i { assert s.history[i] in s.history; }
    forall u ensures TxOk(s', u) {
      assert TxOk(s, u);
      if Validated(T(s, u)) {
        forall h ensures NoConflict(s', u, h) { assert NoConflict(s, u, h); }
      }
    }
    forall u, v ensures Earlier(s', u, v) { assert Earlier(s, u, v); }
  }

  lemma WriteData(s: State, t: Txn, x: Row)
    requires Inv(s) && T(s, t).phase.Writing? && x in T(s, t).wset
    ensures var s' := Wrote(s, t, x); AllDb(s') && AllSeen(s') && AllSerial(s')
  {
    var s' := Wrote(s, t, x);
    forall y ensures DbOk(s', y) { assert DbOk(s, y); }
    forall y, u ensures Newest(s', y, u) {
      assert Newest(s, y, u) && DbOk(s, y);
      if y == x && x in T(s, u).written { WriteInOrder(s, t, x, u); }
    }
    forall u, c, v ensures SeenOk(s', u, c, v) { assert SeenOk(s, u, c, v); }
    forall u, c, v ensures Serial(s', u, c, v) { assert Serial(s, u, c, v); }
  }

  /** Leaving changes the phase of `t`, its number and the lists. */
  function Left(s: State, t: Txn, phase: Phase, tn: nat, active: seq<Txn>, history: seq<Txn>, tnc: nat): State {
    State(tnc, active, history, s.order, s.db, s.tx[t := T(s, t).(phase := phase, tn := tn)])
  }

  ghost predicate LeavesAs(s: State, t: Txn, phase: Phase, tn: nat, tnc: nat) {
    var x := T(s, t);
    && (x.phase.Writing? || x.phase.Failed?) && s.tnc <= tnc
    && (phase == Aborted || phase == Committed)
    && (phase == Committed ==> x.phase.Writing? && x.written == x.wset && (x.wset != {} ==> tn > s.tnc))
    && (phase == Aborted ==> x.phase.Failed?)
  }

  lemma LeftOrder(s: State, t: Txn, phase: Phase, tn: nat, active: seq<Txn>, history: seq<Txn>, tnc: nat)
    requires OrderOk(s) && LeavesAs(s, t, phase, tn, tnc)
    ensures OrderOk(Left(s, t, phase, tn, active, history, tnc))
  {
    var s' := Left(s, t, phase, tn, active, history, tnc);
    forall i | 0 <= i < |s'.order| ensures Entered(T(s', s'.order[i])) && T(s', s'.order[i]).rank == i {
      assert Entered(T(s, s.order[i])) && T(s, s.order[i]).rank == i;
    }
    forall u ensures Ranked(s', u) { assert Ranked(s, u); }
  }

  lemma LeftTx(s: State, t: Txn, phase: Phase, tn: nat, active: seq<Txn>, history: seq<Txn>, tnc: nat)
    requires AllTx(s) && LeavesAs(s, t, phase, tn, tnc)
    ensures AllTx(Left(s, t, phase, tn, active, history, tnc))
  {
    var s' := Left(s, t, phase, tn, active, history, tnc);
    forall u ensures TxOk(s', u) {
      assert TxOk(s, u);
      if Validated(T(s', u)) {
        forall h ensures NoConflict(s', u, h) { assert NoConflict(s, u, h); }
      }
    }
  }

  lemma LeftData(s: State, t: Txn, phase: Phase, tn: nat, active: seq<Txn>, history: seq<Txn>, tnc: nat)
    requires AllTx(s) && AllEarlier(s) && AllDb(s) && AllSeen(s) && AllSerial(s) && LeavesAs(s, t, phase, tn, tnc)
    ensures var s' := Left(s, t, phase, tn, active, history, tnc);
            AllEarlier(s') && AllDb(s') && AllSeen(s') && AllSerial(s')
  {
    var s' := Left(s, t, phase, tn, active, history, tnc);
    forall u, v ensures Earlier(s', u, v) { assert Earlier(s, u, v); }
    forall y ensures DbOk(s', y) { assert DbOk(s, y); }
    forall y, u ensures Newest(s', y, u) { assert Newest(s, y, u) && DbOk(s, y); }
    forall u, c, v ensures SeenOk(s', u, c, v) { assert SeenOk(s, u, c, v) && TxOk(s, u) && TxOk(s, v); }
    forall u, c, v ensures Serial(s', u, c, v) { assert Serial(s, u, c, v); }
  }

  /** Leaving the list of active writers. */
  lemma UnlinkActive(s: State, t: Txn)
    requires ListsOk(s) && (T(s, t).phase.Writing? || T(s, t).phase.Failed?) && T(s, t).wset != {}
    ensures NoDup(Unlink(s.active, t)) && forall u :: u in Unlink(s.active, t) <==> u in s.active && u != t
  {
    UnlinkOk(s.active, t);
  }

  lemma AbortLists(s: State, t: Txn)
    requires ListsOk(s) && T(s, t).phase.Failed?
    ensures ListsOk(Leaving(s, t))
  {
    var s' := Leaving(s, t);
    if T(s, t).wset != {} { UnlinkActive(s, t); }
    forall i | 0 <= i < |s.history| ensures T(s', s.history[i]).tn == s.tnc - i { assert s.history[i] in s.history; }
  }

  lemma CommitLists(s: State, t: Txn)
    requires ListsOk(s) && T(s, t).phase.Writing?
    ensures ListsOk(Leaving(s, t))
  {
    var s' := Leaving(s, t);
    if T(s, t).wset == {} {
      forall i | 0 <= i < |s.history| ensures T(s', s.history[i]).tn == s.tnc - i { assert s.history[i] in s.history; }
    } else {
      UnlinkActive(s, t);
      forall i | 0 <= i < |s'.history| ensures T(s', s'.history[i]).tn == s'.tnc - i {
        if i > 0 { assert s'.history[i] == s.history[i - 1] && s.history[i - 1] in s.history; }
      }
    }
  }

  lemma LeaveKeeps(s: State, t: Txn)
    requires Inv(s) && Enabled(s, Leave(t))
    ensures Inv(Leaving(s, t))
  {
    var s', x := Leaving(s, t), T(s, t);
    var phase, tn := T(s', t).phase, T(s', t).tn;
    assert s' == Left(s, t, phase, tn, s'.active, s'.history, s'.tnc);
    if x.phase.Failed? { AbortLists(s, t); } else { CommitLists(s, t); }
    LeftOrder(s, t, phase, tn, s'.active, s'.history, s'.tnc);
    LeftTx(s, t, phase, tn, s'.active, s'.history, s'.tnc);
    LeftData(s, t, phase, tn, s'.active, s'.history, s'.tnc);
  }

  /** A transaction that begins does so with a number that has been given out; unless `blind`, one that enters has read
      every row it updates. */
  ghost predicate Proper(s: State, a: Act, d: nat, blind: bool) {
    && (a.Begin? ==> a.start <= s.tnc + d)
    && (a.Enter? && !blind ==> T(s, a.t).wset <= T(s, a.t).rset)
  }

  /** Every step of every transaction keeps the invariant. */
  lemma StepKeeps(s: State, a: Act, blind: bool)
    requires Inv(s) && Enabled(s, a) && Proper(s, a, 0, blind)
    ensures Inv(Step(s, a))
  {
    match a
    case Begin(t, start) => BeginKeeps(s, t, start);
    case Read(t, x) => AccessKeeps(s, t, a);
    case Update(t, x) => AccessKeeps(s, t, a);
    case Enter(t) => EnterKeeps(s, t);
    case Decide(t) => DecideKeeps(s, t);
    case Write(t, x) => WriteLists(s, t, x); WriteData(s, t, x);
    case Leave(t) => LeaveKeeps(s, t);
  }

  // ----- whole runs

  const START := State(0, [], [], [], map[], map[])

  ghost predicate MovesAt(run: seq<State>, acts: seq<Act>, i: nat)
    requires i < |acts| && |run| == |acts| + 1
  {
    Enabled(run[i], acts[i]) && run[i + 1] == Step(run[i], acts[i])
  }

  /** A run whose transactions begin with a number at most `d` above the transaction counter and which, unless `blind`,
      read every row they update. */
  ghost predicate IsRun(run: seq<State>, acts: seq<Act>, d: nat, blind: bool) {
    && |run| == |acts| + 1 && run[0] == START
    && (forall i :: 0 <= i < |acts| ==> MovesAt(run, acts, i))
    && (forall i :: 0 <= i < |acts| ==> Proper(run[i], acts[i], d, blind))
  }

  lemma StartOk()
    ensures Inv(START)
  {
    forall t ensures TxOk(START, t) {}
    forall t, u ensures Earlier(START, t, u) {}
    forall x ensures DbOk(START, x) {}
    forall x, t ensures Newest(START, x, t) {}
    forall t, c, u ensures SeenOk(START, t, c, u) {}
    forall t, c, u ensures Serial(START, t, c, u) {}
    forall t ensures Ranked(START, t) {}
  }

  lemma {:induction false} RunKeeps(run: seq<State>, acts: seq<Act>, blind: bool, i: nat)
    requires IsRun(run, acts, 0, blind) && i < |run|
    ensures Inv(run[i])
  {
    if i == 0 {
      StartOk();
    } else {
      RunKeeps(run, acts, blind, i - 1);
      assert MovesAt(run, acts, i - 1) && Proper(run[i - 1], acts[i - 1], 0, blind);
      StepKeeps(run[i - 1], acts[i - 1], blind);
    }
  }

  lemma SerialRead(s: State, t: Txn, c: Copy)
    requires Inv(s) && Validated(T(s, t)) && c in T(s, t).seen && c.x in T(s, t).rset
    ensures T(s, t).rank <= |s.order|
    ensures c.writer == LastWriter(s, s.order, T(s, t).rank, c.x)
  {
    assert Ranked(s, t);
    var k := T(s, t).rank;
    forall j | 0 <= j < k && WritesAt(s, s.order, j, c.x) ensures c.writer.Some? && j <= T(s, c.writer.value).rank {
      assert Serial(s, t, c, s.order[j]);
      assert T(s, s.order[j]).rank == j;
    }
    if c.writer.Some? {
      assert Serial(s, t, c, t) && Ranked(s, c.writer.value);
      assert s.order[T(s, c.writer.value).rank] == c.writer.value;
    }
    LastWriterIs(s, s.order, k, c.x, c.writer);
  }

  /** One-copy serializability: in every state of every run, every version that a validated transaction copied of a
      row it read is the one it would read if the validated transactions ran one after another in the order in which
      they entered the first critical section. */
  lemma ReadsAreSerial(run: seq<State>, acts: seq<Act>, blind: bool, i: nat, t: Txn, c: Copy)
    requires IsRun(run, acts, 0, blind) && i < |run|
    requires Validated(T(run[i], t)) && c in T(run[i], t).seen && c.x in T(run[i], t).rset
    ensures T(run[i], t).rank < |run[i].order| && run[i].order[T(run[i], t).rank] == t
    ensures c.writer == LastWriter(run[i], run[i].order, T(run[i], t).rank, c.x)
  {
    RunKeeps(run, acts, blind, i);
    assert Ranked(run[i], t);
    SerialRead(run[i], t, c);
  }

  /** And when no transaction is in the middle of its writes, the database is what that serial execution leaves. */
  lemma DatabaseIsSerial(run: seq<State>, acts: seq<Act>, blind: bool, i: nat, x: Row)
    requires IsRun(run, acts, 0, blind) && i < |run|
    requires forall t :: !T(run[i], t).phase.Writing?
    ensures Db(run[i], x) == LastWriter(run[i], run[i].order, |run[i].order|, x)
  {
    RunKeeps(run, acts, blind, i);
    var s := run[i];
    var k, w := |s.order|, Db(s, x);
    assert DbOk(s, x);
    forall j | 0 <= j < k && WritesAt(s, s.order, j, x) ensures w.Some? && j <= T(s, w.value).rank {
      assert TxOk(s, s.order[j]) && Newest(s, x, s.order[j]);
      assert T(s, s.order[j]).rank == j;
    }
    if w.Some? {
      assert TxOk(s, w.value) && Ranked(s, w.value);
    }
    LastWriterIs(s, s.order, k, x, w);
  }
}
