/** Exactly when the validation of bench/cc/occ.cpp is serializable.  It compares `start_tn` with transaction numbers,
    so a transaction that begins with a larger number than the counter skips writers it should have checked; and
    `get_rw_set` leaves rows accessed for updating out of the read set, so an update from a stale copy passes. */
module OptimisticValidationLimits {
  import opened OptimisticValidation
  import opened Prelude

  /** Running the validated transactions one after another in the given order, each would copy what it did copy. */
  ghost predicate Explains(s: State, order: seq<Txn>) {
    && NoDup(order) && (forall t :: Validated(T(s, t)) ==> t in order)
    && forall i, c :: 0 <= i < |order| && Validated(T(s, order[i])) && c in T(s, order[i]).seen ==>
         c.writer == LastWriter(s, order, i, c.x)
  }

  /** Some serial order explains everything the validated transactions copied. */
  ghost predicate Serializable(s: State) { exists order :: Explains(s, order) }

  /** A transaction that has entered has read every row it updates. */
  ghost predicate Listed(s: State, t: Txn) { Entered(T(s, t)) ==> T(s, t).wset <= T(s, t).rset }

  lemma {:induction false} AllListed(run: seq<State>, acts: seq<Act>, i: nat, t: Txn)
    requires IsRun(run, acts, 0, false) && i < |run|
    ensures Listed(run[i], t)
  {
    if i > 0 {
      AllListed(run, acts, i - 1, t);
      assert MovesAt(run, acts, i - 1) && Proper(run[i - 1], acts[i - 1], 0, false);
    }
  }

  lemma RunIsSerializable(run: seq<State>, acts: seq<Act>, i: nat)
    requires IsRun(run, acts, 0, false) && i < |run|
    ensures Serializable(run[i])
  {
    var s := run[i];
    RunKeeps(run, acts, false, i);
    forall t | Validated(T(s, t)) ensures t in s.order { assert Ranked(s, t); }
    forall k, c | 0 <= k < |s.order| && Validated(T(s, s.order[k])) && c in T(s, s.order[k]).seen
      ensures c.writer == LastWriter(s, s.order, k, c.x)
    {
      var t := s.order[k];
      AllListed(run, acts, i, t);
      assert TxOk(s, t) && T(s, t).rank == k;
      SerialRead(s, t, c);
    }
    assert Explains(s, s.order);
  }

  // ----- two transactions that no order explains

  lemma {:induction false} SomeWriter(s: State, order: seq<Txn>, k: nat, x: Row, i: nat)
    requires i < k <= |order| && WritesAt(s, order, i, x)
    ensures LastWriter(s, order, k, x).Some?
  {
    if i < k - 1 { SomeWriter(s, order, k - 1, x, i); }
  }

  /** `t` copied the initial version of a row that `u` writes. */
  ghost predicate Misses(s: State, t: Txn, u: Txn) {
    && Validated(T(s, t)) && Validated(T(s, u))
    && exists x :: x in T(s, u).wset && Copy(x, None) in T(s, t).seen
  }

  /** If each misses what the other wrote, no serial order explains both. */
  lemma BothMiss(s: State, t: Txn, u: Txn)
    requires t != u && Misses(s, t, u) && Misses(s, u, t)
    ensures !Serializable(s)
  {
    forall order | Explains(s, order) ensures false {
      var i :| 0 <= i < |order| && order[i] == t;
      var j :| 0 <= j < |order| && order[j] == u;
      if i < j { MissesBefore(s, order, i, j); } else { MissesBefore(s, order, j, i); }
    }
  }

  lemma MissesBefore(s: State, order: seq<Txn>, i: nat, j: nat)
    requires i < j < |order| && Misses(s, order[j], order[i])
    ensures !Explains(s, order)
  {
    var x :| x in T(s, order[i]).wset && Copy(x, None) in T(s, order[j]).seen;
    SomeWriter(s, order, j, x, i);
    assert Copy(x, None).writer != LastWriter(s, order, j, x);
  }

  // ----- the runs

  lemma Extend(run: seq<State>, acts: seq<Act>, d: nat, blind: bool, a: Act) returns (run': seq<State>, acts': seq<Act>)
    requires IsRun(run, acts, d, blind) && Enabled(run[|acts|], a) && Proper(run[|acts|], a, d, blind)
    ensures IsRun(run', acts', d, blind) && run'[|acts'|] == Step(run[|acts|], a)
  {
    run', acts' := run + [Step(run[|acts|], a)], acts + [a];
    forall i | 0 <= i < |acts'| ensures MovesAt(run', acts', i) && Proper(run'[i], acts'[i], d, blind) {
      if i < |acts| { assert MovesAt(run, acts, i) && Proper(run[i], acts[i], d, blind); }
    }
  }

  /** Two transactions have copied the initial rows 0 and 1; transaction `t` is about to update row `t`, having read it
      unless `rset` is empty. */
  function Ready(d: nat, rset: set<Row>, wset: set<Row>, seen: set<Copy>): Tx {
    NEWTX.(phase := Running, start := d, rset := rset, wset := wset, seen := seen)
  }

  /** Transaction 0 goes through validation and writes, then transaction 1 does, and neither is stopped. */
  lemma BothPass(run: seq<State>, acts: seq<Act>, d: nat, blind: bool, rset: set<Row>, x: Row, y: Row, seen: set<Copy>)
    returns (run': seq<State>, acts': seq<Act>)
    requires IsRun(run, acts, d, blind) && (d > 0 || rset == {}) && (blind || {x, y} <= rset)
    requires run[|acts|] == State(0, [], [], [], map[],
      map[0 := Ready(0, rset, {x}, seen), 1 := Ready(d, rset, {y}, seen)])
    ensures IsRun(run', acts', d, blind)
    ensures var s := run'[|acts'|];
      && Validated(T(s, 0)) && Validated(T(s, 1))
      && T(s, 0).wset == {x} && T(s, 1).wset == {y} && T(s, 0).seen == T(s, 1).seen == seen
  {
    run', acts' := FirstPasses(run, acts, d, blind, rset, x, y, seen);
    run', acts' := Extend(run', acts', d, blind, Enter(1));
    assert Valid(run'[|acts'|], 1);
    run', acts' := Extend(run', acts', d, blind, Decide(1));
  }

  lemma FirstPasses(run: seq<State>, acts: seq<Act>, d: nat, blind: bool, rset: set<Row>, x: Row, y: Row,
    seen: set<Copy>)
    returns (run': seq<State>, acts': seq<Act>)
    requires IsRun(run, acts, d, blind) && (blind || {x, y} <= rset)
    requires run[|acts|] == State(0, [], [], [], map[],
      map[0 := Ready(0, rset, {x}, seen), 1 := Ready(d, rset, {y}, seen)])
    ensures IsRun(run', acts', d, blind)
    ensures run'[|acts'|] == State(1, [], [0], [0], map[x := Some(0)], map[
      0 := Ready(0, rset, {x}, seen).(phase := Committed, written := {x}, tn := 1), 1 := Ready(d, rset, {y}, seen)])
  {
    run', acts' := FirstValidates(run, acts, d, blind, rset, x, y, seen);
    run', acts' := Extend(run', acts', d, blind, Write(0, x));
    assert {} + {x} == {x};
    run', acts' := Extend(run', acts', d, blind, Leave(0));
    assert Unlink([0], 0) == [];
  }

  lemma FirstValidates(run: seq<State>, acts: seq<Act>, d: nat, blind: bool, rset: set<Row>, x: Row, y: Row,
    seen: set<Copy>)
    returns (run': seq<State>, acts': seq<Act>)
    requires IsRun(run, acts, d, blind) && (blind || {x, y} <= rset)
    requires run[|acts|] == State(0, [], [], [], map[],
      map[0 := Ready(0, rset, {x}, seen), 1 := Ready(d, rset, {y}, seen)])
    ensures IsRun(run', acts', d, blind)
    ensures run'[|acts'|] == State(0, [0], [], [0], map[], map[
      0 := Ready(0, rset, {x}, seen).(phase := Writing), 1 := Ready(d, rset, {y}, seen)])
  {
    run', acts' := Extend(run, acts, d, blind, Enter(0));
    assert Valid(run'[|acts'|], 0);
    run', acts' := Extend(run', acts', d, blind, Decide(0));
  }

  /** Write skew: transaction 1 begins one above the counter and does not notice what transaction 0 wrote. */
  lemma WriteSkew(d: nat) returns (run: seq<State>, acts: seq<Act>)
    requires d > 0
    ensures IsRun(run, acts, d, false)
    ensures var s := run[|acts|]; Misses(s, 0, 1) && Misses(s, 1, 0)
  {
    run, acts := [START], [];
    run, acts := Extend(run, acts, d, false, Begin(0, 0));
    run, acts := Extend(run, acts, d, false, Begin(1, d));
    run, acts := ReadBoth(run, acts, d, 0);
    run, acts := ReadBoth(run, acts, d, 1);
    run, acts := Extend(run, acts, d, false, Update(0, 0));
    run, acts := Extend(run, acts, d, false, Update(1, 1));
    var seen := {Copy(0, None), Copy(1, None)};
    assert seen + {Copy(0, None)} == seen && seen + {Copy(1, None)} == seen && {} + {0} == {0} && {} + {1} == {1};
    assert run[|acts|].tx == map[0 := Ready(0, {0, 1}, {0}, seen), 1 := Ready(d, {0, 1}, {1}, seen)];
    run, acts := BothPass(run, acts, d, false, {0, 1}, 0, 1, seen);
    assert 0 in T(run[|acts|], 0).wset && 1 in T(run[|acts|], 1).wset;
  }

  lemma ReadBoth(run: seq<State>, acts: seq<Act>, d: nat, t: Txn) returns (run': seq<State>, acts': seq<Act>)
    requires IsRun(run, acts, d, false) && run[|acts|].db == map[]
      && T(run[|acts|], t) == Ready(T(run[|acts|], t).start, {}, {}, {})
    ensures IsRun(run', acts', d, false)
    ensures run'[|acts'|] == Put(run[|acts|], t,
      Ready(T(run[|acts|], t).start, {0, 1}, {}, {Copy(0, None), Copy(1, None)}))
  {
    run', acts' := Extend(run, acts, d, false, Read(t, 0));
    run', acts' := Extend(run', acts', d, false, Read(t, 1));
    assert {} + {0} + {1} == {0, 1};
    assert {} + {Copy(0, None)} + {Copy(1, None)} == {Copy(0, None), Copy(1, None)};
  }

  /** Lost update: both transactions update row 0 from its initial version. */
  lemma LostUpdate() returns (run: seq<State>, acts: seq<Act>)
    ensures IsRun(run, acts, 0, true)
    ensures var s := run[|acts|]; Misses(s, 0, 1) && Misses(s, 1, 0)
  {
    run, acts := [START], [];
    run, acts := Extend(run, acts, 0, true, Begin(0, 0));
    run, acts := Extend(run, acts, 0, true, Begin(1, 0));
    run, acts := Extend(run, acts, 0, true, Update(0, 0));
    run, acts := Extend(run, acts, 0, true, Update(1, 0));
    assert {} + {0} == {0} && {} + {Copy(0, None)} == {Copy(0, None)};
    run, acts := BothPass(run, acts, 0, true, {}, 0, 0, {Copy(0, None)});
    assert 0 in T(run[|acts|], 0).wset && 0 in T(run[|acts|], 1).wset;
  }

  /** Raising the limits admits more runs. */
  lemma Looser(run: seq<State>, acts: seq<Act>, d: nat, blind: bool, d': nat, blind': bool)
    requires IsRun(run, acts, d, blind) && d <= d' && (blind ==> blind')
    ensures IsRun(run, acts, d', blind')
  {
    forall i | 0 <= i < |acts| ensures Proper(run[i], acts[i], d', blind') { assert Proper(run[i], acts[i], d, blind); }
  }

  ghost predicate Safe(d: nat, blind: bool) {
    forall run, acts, i :: IsRun(run, acts, d, blind) && 0 <= i < |run| ==> Serializable(run[i])
  }

  /** Validation is serializable exactly when no transaction begins with a number above the counter and every
      transaction has read the rows it updates. */
  lemma SerializableIff(d: nat, blind: bool)
    ensures Safe(d, blind) <==> d == 0 && !blind
  {
    if d == 0 && !blind {
      forall run, acts, i | IsRun(run, acts, d, blind) && 0 <= i < |run| ensures Serializable(run[i]) {
        RunIsSerializable(run, acts, i);
      }
    } else {
      var run, acts;
      if d > 0 {
        run, acts := WriteSkew(d);
        Looser(run, acts, d, false, d, blind);
      } else {
        run, acts := LostUpdate();
      }
      BothMiss(run[|acts|], 0, 1);
      assert !Serializable(run[|acts|]);
    }
  }
}
