/** The code of `OptCC` in bench/cc/occ.cpp: building the access sets, comparing them, and the two critical
    sections.  Each method is proved against what the protocol of OptimisticValidation uses. */
module OptimisticValidationCode {
  import opened OptimisticValidation
  import opened Prelude

  datatype Access = Access(isWrite: bool, row: Row)

  /** The rows of the accesses of one kind, in access order. */
  function RowsOf(accesses: seq<Access>, isWrite: bool): seq<Row> {
    if accesses == [] then []
    else
      var n := |accesses| - 1;
      RowsOf(accesses[..n], isWrite) + if accesses[n].isWrite == isWrite then [accesses[n].row] else []
  }

  /** Every access lands in exactly one of the two sets, and nothing else does. */
  lemma {:induction false} RowsOfExact(accesses: seq<Access>, isWrite: bool, x: Row)
    ensures x in RowsOf(accesses, isWrite) <==> Access(isWrite, x) in accesses
    ensures |RowsOf(accesses, true)| + |RowsOf(accesses, false)| == |accesses|
  {
    if accesses != [] {
      var n := |accesses| - 1;
      RowsOfExact(accesses[..n], isWrite, x);
      assert accesses == accesses[..n] + [accesses[n]];
    }
  }

  lemma {:induction false} RowsOfPrefix(accesses: seq<Access>, i: nat, isWrite: bool)
    requires i <= |accesses|
    ensures |RowsOf(accesses[..i], isWrite)| <= |RowsOf(accesses, isWrite)|
    decreases |accesses| - i
  {
    if i < |accesses| {
      RowsOfPrefix(accesses, i + 1, isWrite);
      assert accesses[..i + 1][..i] == accesses[..i];
    } else {
      assert accesses[..i] == accesses;
    }
  }

  /** `get_rw_set`: two arrays of the announced sizes, filled in one pass. */
  method GetRwSet(accesses: seq<Access>, writeCount: nat) returns (rset: array<Row>, wset: array<Row>)
    requires writeCount == |RowsOf(accesses, true)|
    ensures rset[..] == RowsOf(accesses, false) && wset[..] == RowsOf(accesses, true)
    ensures fresh(rset) && fresh(wset)
  {
    RowsOfExact(accesses, true, 0);
    wset := new Row[writeCount];
    rset := new Row[|accesses| - writeCount];
    var n, m := 0, 0;
    for i := 0 to |accesses|
      invariant n == |RowsOf(accesses[..i], true)| && n <= wset.Length && wset[..n] == RowsOf(accesses[..i], true)
      invariant m == |RowsOf(accesses[..i], false)| && m <= rset.Length && rset[..m] == RowsOf(accesses[..i], false)
    {
      assert accesses[..i + 1][..i] == accesses[..i];
      RowsOfPrefix(accesses, i + 1, true);
      RowsOfPrefix(accesses, i + 1, false);
      if accesses[i].isWrite {
        Append(wset, n, accesses[i].row);
        n := n + 1;
      } else {
        Append(rset, m, accesses[i].row);
        m := m + 1;
      }
    }
    assert accesses[..|accesses|] == accesses;
  }

  method Append(rows: array<Row>, n: nat, row: Row)
    requires n < rows.Length
    modifies rows
    ensures rows[..n + 1] == old(rows[..n]) + [row]
  {
    rows[n] := row;
  }

  ghost predicate Disjoint(a: seq<Row>, b: seq<Row>) {
    forall x :: x in a ==> x !in b
  }

  /** `test_valid`: true exactly when the two sets have no row in common. */
  method TestValid(a: seq<Row>, b: seq<Row>) returns (ok: bool)
    ensures ok <==> Disjoint(a, b)
  {
    for i := 0 to |a|
      invariant forall k :: 0 <= k < i ==> a[k] !in b
    {
      for j := 0 to |b|
        invariant a[i] !in b[..j]
      {
        if a[i] == b[j] {
          assert a[i] in a && a[i] in b;
          return false;
        }
      }
      assert b[..|b|] == b;
    }
    return true;
  }

  /** `set_ent`: a write set on one of the two lists. */
  datatype Ent = Ent(tn: nat, txn: Txn, rows: seq<Row>)

  /** What lines 121-140 decide from the two snapshots. */
  ghost predicate Passes(start: nat, finish: nat, his: seq<Ent>, live: seq<Ent>, rset: seq<Row>, wset: seq<Row>) {
    && (forall e :: e in his && start < e.tn <= finish ==> Disjoint(e.rows, rset))
    && (forall e :: e in live ==> Disjoint(e.rows, rset) && Disjoint(e.rows, wset))
  }

  ghost predicate Numbered(his: seq<Ent>, tnc: nat) {
    |his| == tnc && forall i :: 0 <= i < |his| ==> his[i].tn == tnc - i
  }

  /** The history scan, lines 121-130: it starts below `finish` and stops at `start`. */
  method ScanHistory(start: nat, finish: nat, his: seq<Ent>, rset: seq<Row>) returns (valid: bool)
    requires exists tnc :: Numbered(his, tnc)
    ensures valid <==> forall e :: e in his && start < e.tn <= finish ==> Disjoint(e.rows, rset)
  {
    valid := true;
    if finish > start {
      var i := 0;
      while i < |his| && his[i].tn > finish
        invariant 0 <= i <= |his| && forall k :: 0 <= k < i ==> his[k].tn > finish
      {
        i := i + 1;
      }
      while i < |his| && his[i].tn > start
        invariant 0 <= i <= |his|
        invariant forall k :: 0 <= k < i && start < his[k].tn <= finish ==> Disjoint(his[k].rows, rset)
        invariant i < |his| ==> his[i].tn <= finish
      {
        valid := TestValid(his[i].rows, rset);
        if !valid {
          assert his[i] in his && start < his[i].tn <= finish;
          return;
        }
        i := i + 1;
      }
      assert forall k :: i <= k < |his| ==> his[k].tn <= start;
    }
  }

  /** The scan of the transactions that were active, lines 132-140. */
  method ScanActive(live: seq<Ent>, rset: seq<Row>, wset: seq<Row>) returns (valid: bool)
    ensures valid <==> forall e :: e in live ==> Disjoint(e.rows, rset) && Disjoint(e.rows, wset)
  {
    valid := true;
    for i := 0 to |live|
      invariant valid && forall k :: 0 <= k < i ==> Disjoint(live[k].rows, rset) && Disjoint(live[k].rows, wset)
    {
      valid := TestValid(live[i].rows, rset);
      if valid { valid := TestValid(live[i].rows, wset); }
      if !valid {
        assert live[i] in live;
        return;
      }
    }
  }

  /** Lines 121-140 as a whole. */
  method Validate(start: nat, finish: nat, his: seq<Ent>, live: seq<Ent>, rset: seq<Row>, wset: seq<Row>)
    returns (valid: bool)
    requires exists tnc :: Numbered(his, tnc)
    ensures valid <==> Passes(start, finish, his, live, rset, wset)
  {
    valid := ScanHistory(start, finish, his, rset);
    if valid { valid := ScanActive(live, rset, wset); }
  }

  ghost function Owners(l: seq<Ent>): seq<Txn> {
    seq(|l|, i requires 0 <= i < |l| => l[i].txn)
  }

  /** The shared lists and the transaction counter; each method body runs under the latch. */
  class Validator {
    var tnc: nat
    var active: seq<Ent>
    var history: seq<Ent>

    ghost predicate Ready()
      reads this
    {
      Numbered(history, tnc)
    }

    constructor ()
      ensures Ready() && tnc == 0 && active == [] && history == []
    {
      tnc, active, history := 0, [], [];
    }

    /** Lines 106-120: snapshot the lists; a writer puts its write set in front of the active list. */
    method FirstSection(wset: Ent) returns (finish: nat, live: seq<Ent>, his: seq<Ent>)
      requires Ready()
      modifies this
      ensures Ready() && tnc == old(tnc) && history == old(history)
      ensures finish == tnc && live == old(active) && his == history
      ensures active == if wset.rows == [] then old(active) else [wset] + old(active)
    {
      finish := tnc;
      live := [];
      var ent := 0;
      while ent < |active|
        invariant 0 <= ent <= |active| && live == active[..ent]
      {
        live := live + [active[ent]];
        ent := ent + 1;
      }
      if |wset.rows| != 0 { active := [wset] + active; }
      his := history;
    }

    /** Lines 148-169: unlink the write set from the active list and, if valid, number it and push it on the history. */
    method SecondSection(wset: Ent, valid: bool)
      requires Ready() && wset.txn in Owners(active)
      modifies this
      ensures Ready()
      ensures Owners(active) == Unlink(old(Owners(active)), wset.txn) && forall e :: e in active ==> e in old(active)
      ensures tnc == old(tnc) + (if valid then 1 else 0)
      ensures history == if valid then [wset.(tn := tnc)] + old(history) else old(history)
    {
      var prev := 0;
      while active[prev].txn != wset.txn
        invariant 0 <= prev < |active| && wset.txn !in Owners(active)[..prev]
        decreases |active| - prev
      {
        assert Owners(active)[..prev + 1] == Owners(active)[..prev] + [active[prev].txn];
        assert Owners(active)[..|active|] == Owners(active);
        prev := prev + 1;
      }
      UnlinkAt(Owners(active), wset.txn, prev);
      active := active[..prev] + active[prev + 1..];
      assert Owners(active) == old(Owners(active))[..prev] + old(Owners(active))[prev + 1..];
      if valid {
        tnc := tnc + 1;
        history := [wset.(tn := tnc)] + history;
      }
    }
  }

  lemma {:induction false} UnlinkAt(l: seq<Txn>, t: Txn, k: nat)
    requires k < |l| && l[k] == t && t !in l[..k]
    ensures Unlink(l, t) == l[..k] + l[k + 1..]
  {
    if k > 0 {
      assert l[0] in l[..k];
      assert l[1..][..k - 1] == l[..k][1..];
      UnlinkAt(l[1..], t, k - 1);
      assert l[..k] == [l[0]] + l[1..][..k - 1];
    }
  }

  // ----- the code and the protocol

  ghost predicate RowsAre(rows: seq<Row>, want: set<Row>) { forall x :: x in rows <==> x in want }

  /** An entry of the code for a transaction of the protocol. */
  ghost predicate EntryOf(s: State, e: Ent) { RowsAre(e.rows, T(s, e.txn).wset) }

  /** A list of the code represents a list of the protocol. */
  ghost predicate Represents(s: State, l: seq<Txn>, ents: seq<Ent>) {
    Owners(ents) == l && forall e :: e in ents ==> EntryOf(s, e)
  }

  ghost predicate NumberedAs(s: State, ents: seq<Ent>) { forall e :: e in ents ==> e.tn == T(s, e.txn).tn }

  ghost predicate Matches(s: State, tnc: nat, active: seq<Ent>, history: seq<Ent>) {
    tnc == s.tnc && Represents(s, s.active, active) && Represents(s, s.history, history) && NumberedAs(s, history)
  }

  /** `his` is the history as it was when `t` entered: what has been put in front of it since is left out. */
  ghost predicate Snapshot(s: State, t: Txn, his: seq<Ent>) {
    && T(s, t).finish <= s.tnc <= |s.history|
    && Represents(s, s.history[s.tnc - T(s, t).finish..], his) && NumberedAs(s, his)
  }

  /** The first critical section of the code is `Entering`, and takes the two snapshots. */
  lemma FirstIsEntering(s: State, t: Txn, tnc: nat, active: seq<Ent>, history: seq<Ent>, wset: Ent)
    requires Inv(s) && Matches(s, tnc, active, history) && T(s, t).phase.Running? && wset.txn == t && EntryOf(s, wset)
    ensures var s' := Entering(s, t);
      && Matches(s', tnc, if wset.rows == [] then active else [wset] + active, history)
      && Represents(s', T(s', t).live, active) && Snapshot(s', t, history)
  {
    var s' := Entering(s, t);
    forall e | EntryOf(s, e) ensures EntryOf(s', e) {}
    assert wset.rows != [] ==> wset.rows[0] in wset.rows;
    assert wset.rows != [] ==> Owners([wset] + active) == [t] + Owners(active);
    assert s'.history[0..] == s.history;
  }

  /** The second critical section of the code is `Leaving`. */
  lemma SecondIsLeaving(s: State, t: Txn, tnc: nat, active: seq<Ent>, history: seq<Ent>, wset: Ent, active': seq<Ent>)
    requires Inv(s) && Matches(s, tnc, active, history) && wset.txn == t && EntryOf(s, wset) && wset.rows != []
    requires T(s, t).phase.Writing? || T(s, t).phase.Failed?
    requires Owners(active') == Unlink(Owners(active), t) && forall e :: e in active' ==> e in active
    ensures var valid, s' := T(s, t).phase.Writing?, Leaving(s, t);
      if valid then Matches(s', tnc + 1, active', [wset.(tn := tnc + 1)] + history)
      else Matches(s', tnc, active', history)
  {
    var valid, s' := T(s, t).phase.Writing?, Leaving(s, t);
    assert wset.rows[0] in wset.rows;
    forall e | EntryOf(s, e) ensures EntryOf(s', e) {}
    forall e | e in history ensures T(s', e.txn).tn == T(s, e.txn).tn { OwnerIn(history, e); }
    if valid {
      var history' := [wset.(tn := tnc + 1)] + history;
      assert Owners(history') == [t] + Owners(history);
      forall e | e in history' ensures EntryOf(s', e) && e.tn == T(s', e.txn).tn {
        if e in history { assert EntryOf(s, e); } else { assert EntryOf(s, wset); }
      }
    }
  }

  lemma OwnerIn(l: seq<Ent>, e: Ent)
    requires e in l
    ensures e.txn in Owners(l)
  {
    var i :| 0 <= i < |l| && l[i] == e;
    assert Owners(l)[i] == e.txn;
  }

  /** A step changes neither the write set of a transaction that has entered nor the number of a committed one. */
  lemma Settled(s: State, a: Act, u: Txn)
    requires Enabled(s, a) && Entered(T(s, u))
    ensures T(Step(s, a), u).wset == T(s, u).wset
    ensures T(s, u).phase.Committed? ==> T(Step(s, a), u).tn == T(s, u).tn
    ensures T(Step(s, a), u).finish == T(s, u).finish && T(Step(s, a), u).live == T(s, u).live
  {
  }

  lemma HistoryGrows(s: State, a: Act)
    requires Enabled(s, a)
    ensures var s' := Step(s, a);
      (s'.history == s.history && s'.tnc == s.tnc) || (s'.history == [s'.history[0]] + s.history && s'.tnc == s.tnc + 1)
  {
  }

  /** Whatever others do between the first critical section and the scan, the snapshots stay what the scan expects. */
  lemma SnapshotsStay(s: State, a: Act, t: Txn, his: seq<Ent>, live: seq<Ent>)
    requires Inv(s) && Enabled(s, a) && Entered(T(s, t)) && Snapshot(s, t, his) && Represents(s, T(s, t).live, live)
    ensures Snapshot(Step(s, a), t, his) && Represents(Step(s, a), T(s, t).live, live)
  {
    var s' := Step(s, a);
    HistoryGrows(s, a);
    Settled(s, a, t);
    assert s'.history[s'.tnc - T(s, t).finish..] == s.history[s.tnc - T(s, t).finish..];
    forall e | e in his ensures EntryOf(s', e) && e.tn == T(s', e.txn).tn {
      OwnerIn(his, e);
      assert e.txn in s.history && EntryOf(s, e);
      Settled(s, a, e.txn);
    }
    forall e | e in live ensures EntryOf(s', e) {
      OwnerIn(live, e);
      assert TxOk(s, t) && EntryOf(s, e);
      Settled(s, a, e.txn);
    }
  }

  /** On such snapshots the scans of the code compute the verdict of the protocol. */
  lemma PassesIsValid(s: State, t: Txn, his: seq<Ent>, live: seq<Ent>, rset: seq<Row>, wset: seq<Row>)
    requires Inv(s) && Snapshot(s, t, his) && Represents(s, T(s, t).live, live)
    requires RowsAre(rset, T(s, t).rset) && RowsAre(wset, T(s, t).wset)
    ensures Passes(T(s, t).start, T(s, t).finish, his, live, rset, wset) <==> Valid(s, t)
  {
    if Passes(T(s, t).start, T(s, t).finish, his, live, rset, wset) { PassesOnlyValid(s, t, his, live, rset, wset); }
    if Valid(s, t) {
      forall e | e in his && T(s, t).start < e.tn <= T(s, t).finish ensures Disjoint(e.rows, rset) {
        OwnerIn(his, e);
        assert e.txn in s.history && EntryOf(s, e);
      }
      forall e | e in live ensures Disjoint(e.rows, rset) && Disjoint(e.rows, wset) {
        OwnerIn(live, e);
        assert EntryOf(s, e);
      }
    }
  }

  /** A committed writer with a number up to `finish` is in the snapshot. */
  lemma InSnapshot(s: State, t: Txn, his: seq<Ent>, h: Txn) returns (e: Ent)
    requires ListsOk(s) && Snapshot(s, t, his) && h in s.history && T(s, h).tn <= T(s, t).finish
    ensures e in his && e.txn == h && e.tn == T(s, h).tn
  {
    var i := HistoryIndex(s, h);
    OwnerAt(his, s.history, s.tnc - T(s, t).finish, i);
    e := his[i - (s.tnc - T(s, t).finish)];
  }

  lemma HistoryIndex(s: State, h: Txn) returns (i: nat)
    requires ListsOk(s) && h in s.history
    ensures i < |s.history| && s.history[i] == h && T(s, h).tn == s.tnc - i
  {
    i :| 0 <= i < |s.history| && s.history[i] == h;
  }

  lemma OwnerAt(ents: seq<Ent>, l: seq<Txn>, k: nat, i: nat)
    requires k <= i < |l| && Owners(ents) == l[k..]
    ensures i - k < |ents| && ents[i - k].txn == l[i]
  {
    assert Owners(ents)[i - k] == l[i];
  }

  lemma PassesOnlyValid(s: State, t: Txn, his: seq<Ent>, live: seq<Ent>, rset: seq<Row>, wset: seq<Row>)
    requires Inv(s) && Snapshot(s, t, his) && Represents(s, T(s, t).live, live)
    requires RowsAre(rset, T(s, t).rset) && RowsAre(wset, T(s, t).wset)
    requires Passes(T(s, t).start, T(s, t).finish, his, live, rset, wset)
    ensures Valid(s, t)
  {
    forall h | h in s.history && T(s, t).start < T(s, h).tn <= T(s, t).finish ensures T(s, h).wset !! T(s, t).rset {
      var e := InSnapshot(s, t, his, h);
      assert EntryOf(s, e);
    }
    forall a | a in T(s, t).live ensures T(s, a).wset !! T(s, t).rset && T(s, a).wset !! T(s, t).wset {
      var i :| 0 <= i < |T(s, t).live| && T(s, t).live[i] == a;
      assert live[i].txn == Owners(live)[i] == a && live[i] in live && EntryOf(s, live[i]);
    }
  }
}
