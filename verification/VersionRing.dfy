/** The version ring of a row (bench/cc/row_hekaton.cpp: `access`, `reserveRow`, `doubleHistory`, `post_process`): a
    circular buffer of versions with begin and end times, of which the oldest may be collected, or replaced when
    the buffer may not grow.  Each method is one call under the row's latch. */
module VersionRing {
  import opened Prelude
  import opened RingSlots

  type Row = nat
  type Value = nat

  const INF: int := 0xFFFF_FFFF_FFFF_FFFF

  /** `WriteHisEntry`: a begin or end field holds a transaction id while its flag is set. */
  datatype Entry = Entry(beginTxn: bool, endTxn: bool, begin: int, end: int, row: Option<Row>)

  /** A committed version: its commit time, the row that stores it and the data it was committed with. */
  datatype Version = Version(begin: int, row: Row, value: Value)

  datatype Result = Abort | Ok(row: Row)

  /** Commit times rise and stay below infinity. */
  ghost predicate Rising(vs: seq<Version>) {
    && |vs| > 0 && vs[0].begin >= 0 && vs[|vs| - 1].begin < INF
    && forall i, j :: 0 <= i < j < |vs| ==> vs[i].begin < vs[j].begin
  }

  /** Version `k` was current at time `ts`: it had begun and the next had not. */
  ghost predicate CurrentAt(vs: seq<Version>, ts: int, k: int) {
    0 <= k < |vs| && vs[k].begin < ts && (k + 1 < |vs| ==> ts < vs[k + 1].begin)
  }

  /** At a time that is no version's commit time exactly one version was current, if the row existed. */
  lemma {:induction false} OneCurrent(vs: seq<Version>, ts: int, n: nat) returns (k: nat)
    requires Rising(vs) && vs[0].begin < ts && n < |vs| && (forall i :: 0 <= i < |vs| ==> vs[i].begin != ts)
    requires n + 1 < |vs| ==> ts < vs[n + 1].begin
    ensures CurrentAt(vs, ts, k) && k <= n && forall j :: CurrentAt(vs, ts, j) ==> j == k
    decreases n
  {
    if vs[n].begin < ts {
      k := n;
    } else {
      k := OneCurrent(vs, ts, n - 1);
    }
  }

  /** No two entries share a row. */
  ghost predicate Apart(h: seq<Entry>) {
    forall i, j :: 0 <= i < j < |h| && h[i].row.Some? ==> h[i].row != h[j].row
  }

  lemma ApartAt(h: seq<Entry>, i: nat, j: nat)
    requires Apart(h) && i < |h| && j < |h| && i != j && h[i].row.Some?
    ensures h[i].row != h[j].row
  {
  }

  lemma SameRows(h: seq<Entry>, h': seq<Entry>)
    requires Apart(h) && |h| == |h'| && forall i :: 0 <= i < |h| ==> h'[i].row == h[i].row
    ensures Apart(h')
  {
  }

  lemma RisesOn(vs: seq<Version>, v: Version)
    requires Rising(vs) && vs[|vs| - 1].begin < v.begin < INF
    ensures Rising(vs + [v])
  {
  }

  lemma UnrolledAt(n: int, drop: int, k: int)
    requires n > 0 && drop <= k < drop + 2 * n
    ensures SlotOf(2 * n, 0 - drop, k) == k - drop
  {
    RemainderUnique(k - drop, 2 * n, 0, k - drop);
  }

  class RowHistory {
    var history: array<Entry>
    var latest: nat
    var oldest: nat
    var existsPrewrite: bool

    /** The contents of rows. */
    var data: map<Row, Value>

    /** All versions ever committed, and how many of the first are no longer in the ring. */
    ghost var versions: seq<Version>
    ghost var drop: nat
    ghost var shift: int

    /** The transaction whose prewrite is pending. */
    ghost var holder: int

    ghost function Slot(k: int): int
      requires history.Length > 0
      reads this
    {
      SlotOf(history.Length, shift, k)
    }

    ghost predicate Shape()
      reads this
    {
      && history.Length >= 2 && drop < |versions| <= drop + history.Length
      && latest == Slot(|versions| - 1) && oldest == Slot(drop)
      && (existsPrewrite ==> |versions| < drop + history.Length)
      && Rising(versions)
    }

    /** The entry of version `k` has its times, row and data. */
    ghost predicate EntryOk(k: int)
      requires history.Length > 0
      reads this, history
    {
      drop <= k < |versions| ==>
        var e, v := history[Slot(k)], versions[k];
        && e.begin == v.begin && e.row == Some(v.row) && v.row in data && data[v.row] == v.value
        && (if k + 1 < |versions| then !e.endTxn && e.end == versions[k + 1].begin
            else if existsPrewrite then e.endTxn else e.end == INF)
    }

    ghost predicate RowsApart()
      reads this, history
    {
      Apart(history[..])
    }

    ghost predicate RowsStored()
      reads this, history
    {
      forall i :: 0 <= i < history.Length && history[i].row.Some? ==> history[i].row.value in data
    }

    ghost predicate PrewriteOk()
      requires history.Length > 0
      reads this, history
    {
      existsPrewrite ==> var e := history[Slot(|versions|)]; e.row.Some? && e.beginTxn && e.begin == holder
    }

    ghost predicate Valid()
      reads this, history
    {
      Shape() && (forall k :: EntryOk(k)) && RowsApart() && RowsStored() && PrewriteOk()
    }

    /** `init`. */
    constructor (row: Row, value: Value)
      ensures Valid() && !existsPrewrite && versions == [Version(0, row, value)] && drop == 0 && fresh(history)
      ensures history.Length == 4 && data == map[row := value]
    {
      var junk: Entry := *;
      var h := new Entry[4](_ => junk.(row := None));
      history := h;
      latest, oldest, existsPrewrite := 0, 0, false;
      data := map[row := value];
      versions, drop, shift := [Version(0, row, value)], 0, 0;
      new;
      h[0] := Entry(false, false, 0, INF, Some(row));
    }

    /** A read at time `ts`, which is no version's commit time: the version current at `ts`, or abort exactly when
        that version is no longer in the ring. */
    method Read(ts: int) returns (r: Result)
      requires Valid() && versions[0].begin < ts && forall i :: 0 <= i < |versions| ==> versions[i].begin != ts
      ensures exists k :: CurrentAt(versions, ts, k)
      ensures forall k :: CurrentAt(versions, ts, k) ==> r == if k < drop then Abort else Ok(versions[k].row)
      ensures forall k :: CurrentAt(versions, ts, k) && r.Ok? ==> r.row in data && data[r.row] == versions[k].value
    {
      ghost var k := OneCurrent(versions, ts, |versions| - 1);
      r := Scan(ts, k);
    }

    /** The branches and the backward scan of the read, for the version `k` they look for. */
    method Scan(ts: int, ghost k: nat) returns (r: Result)
      requires Valid() && CurrentAt(versions, ts, k) && forall i :: 0 <= i < |versions| ==> versions[i].begin != ts
      ensures r == if k < drop then Abort else Ok(versions[k].row)
      ensures r.Ok? ==> r.row in data && data[r.row] == versions[k].value
    {
      assert EntryOk(drop) && EntryOk(|versions| - 1) && EntryOk(k);
      if ts < history[oldest].begin {
        return Abort;
      } else if ts > history[latest].begin {
        return Ok(history[latest].row.value);
      }
      var i := latest;
      ghost var j := |versions| - 1;
      while true
        invariant k < j < |versions| && drop < j && i == Slot(j)
        decreases j
      {
        NextSlot(history.Length, shift, j);
        i := if i == 0 then history.Length - 1 else i - 1;
        j := j - 1;
        assert i == Slot(j) by { Before(history.Length, shift, j + 1); }
        assert EntryOk(j);
        if history[i].begin < ts {
          assert history[i].end > ts;
          return Ok(history[i].row.value);
        }
        if i == oldest { break; }
      }
      assert false;
    }

    ghost predicate Full()
      reads this
    {
      |versions| == drop + history.Length
    }

    /** The oldest version leaves the ring. */
    method DropOldest()
      requires Valid() && drop + 1 < |versions|
      modifies `oldest, `drop
      ensures Valid() && drop == old(drop) + 1
    {
      NextSlot(history.Length, shift, drop);
      oldest := (oldest + 1) % history.Length;
      drop := drop + 1;
      forall k ensures EntryOk(k) { assert old(EntryOk(k)); }
    }

    /** Garbage collection: versions that ended before `minTs` leave, one after the other; the latest never does. */
    method Collect(minTs: int)
      requires Valid() && !existsPrewrite && minTs <= INF
      modifies `oldest, `drop
      ensures Valid() && old(drop) <= drop
      ensures Ended(old(drop), minTs) && (drop + 1 < |versions| ==> versions[drop + 1].begin >= minTs)
    {
      OldestEnd();
      while history[oldest].end < minTs
        invariant Valid() && old(drop) <= drop
        invariant history[oldest].end == if drop + 1 < |versions| then versions[drop + 1].begin else INF
        invariant Ended(old(drop), minTs)
        decreases |versions| - drop
      {
        OldestNotLatest();
        assert oldest != latest;
        DropOldest();
        OldestEnd();
      }
    }

    lemma OldestEnd()
      requires Valid() && !existsPrewrite
      ensures history[oldest].end == if drop + 1 < |versions| then versions[drop + 1].begin else INF
    {
      assert EntryOk(drop);
    }

    lemma OldestNotLatest()
      requires Shape() && drop + 1 < |versions|
      ensures oldest != latest
    {
      SlotsDiffer(history.Length, shift, drop, |versions| - 1);
    }

    /** The copy loop of `doubleHistory`: the ring from the oldest entry on, then empty entries. */
    static method Unroll(h: array<Entry>, first: nat, ghost shift: int, ghost drop: nat) returns (t: array<Entry>)
      requires h.Length > 0 && first == SlotOf(h.Length, shift, drop)
      ensures fresh(t) && t.Length == 2 * h.Length
      ensures forall j :: 0 <= j < h.Length ==> t[j] == h[SlotOf(h.Length, shift, drop + j)]
      ensures forall j :: h.Length <= j < t.Length ==> t[j].row == None
    {
      var n := h.Length;
      var junk: Entry := *;
      t := new Entry[2 * n](_ => junk);
      var idx := first;
      for i := 0 to n
        invariant idx == SlotOf(n, shift, drop + i)
        invariant forall j :: 0 <= j < i ==> t[j] == h[SlotOf(n, shift, drop + j)]
        invariant forall j :: n <= j < n + i ==> t[j].row == None
      {
        t[i] := h[idx];
        idx := Advance(n, idx, shift, drop + i);
        t[n + i] := junk.(row := None, beginTxn := false, endTxn := false);
      }
    }

    /** `Unroll` with what the rows of the new table are. */
    static method Unrolled(h: array<Entry>, first: nat, ghost shift: int, ghost drop: nat) returns (t: array<Entry>)
      requires h.Length > 0 && first == SlotOf(h.Length, shift, drop) && Apart(h[..])
      ensures fresh(t) && t.Length == 2 * h.Length && Apart(t[..])
      ensures forall k :: drop <= k < drop + h.Length ==> t[k - drop] == h[SlotOf(h.Length, shift, k)]
      ensures forall j :: 0 <= j < t.Length && t[j].row.Some? ==> exists i :: 0 <= i < h.Length && h[i].row == t[j].row
    {
      t := Unroll(h, first, shift, drop);
      ghost var n := h.Length;
      forall i, j | 0 <= i < j < t.Length && t[i].row.Some? ensures t[i].row != t[j].row {
        if j < n {
          SlotsDiffer(n, shift, drop + i, drop + j);
          ApartAt(h[..], SlotOf(n, shift, drop + i), SlotOf(n, shift, drop + j));
        }
      }
      forall k | drop <= k < drop + n ensures t[k - drop] == h[SlotOf(n, shift, k)] {
        assert t[k - drop] == h[SlotOf(n, shift, drop + (k - drop))];
      }
    }

    /** `doubleHistory` of a full ring: no version is lost. */
    method Double()
      requires Valid() && !existsPrewrite && Full()
      modifies `history, `oldest, `latest, `shift
      ensures Valid() && history.Length == 2 * old(history.Length) && fresh(history)
    {
      var n := history.Length;
      var t := Unrolled(history, oldest, shift, drop);
      ghost var was, h := shift, history;
      oldest, latest := 0, n - 1;
      history := t;
      shift := 0 - drop;
      forall k | drop <= k < |versions| ensures Slot(k) == k - drop && history[Slot(k)] == h[SlotOf(n, was, k)] {
        UnrolledAt(n, drop, k);
      }
      forall k ensures EntryOk(k) { assert old(EntryOk(k)); }
    }

    /** The test for a full ring. */
    lemma FullTest()
      requires Shape()
      ensures (latest + 1) % history.Length == Slot(|versions|)
      ensures Slot(|versions|) == oldest <==> Full()
    {
      NextSlot(history.Length, shift, |versions| - 1);
      if Full() {
        SlotAgain(history.Length, shift, |versions|);
      } else {
        SlotsDiffer(history.Length, shift, drop, |versions|);
      }
    }

    /** An entry outside the ring can be given a row, or any other contents, without touching a version. */
    lemma OutsideRing(k: int)
      requires Shape() && !Full() && drop <= k < |versions|
      ensures Slot(k) != Slot(|versions|)
    {
      SlotsDiffer(history.Length, shift, k, |versions|);
    }

    /** The versions that left since `was` all ended before `minTs`. */
    ghost predicate Ended(was: nat, minTs: int)
      requires drop < |versions|
      reads this
    {
      forall k :: was < k <= drop ==> versions[k].begin < minTs
    }

    /** Version `k` may be that of a reader whose timestamp is not below `minTs`. */
    ghost predicate MayBeRead(k: int, minTs: int)
      reads `versions
    {
      0 <= k < |versions| && (k + 1 < |versions| ==> versions[k + 1].begin >= minTs)
    }

    /** Of the versions from `first` on that may be read, `row` is that of the first if `lost`, and no other's. */
    ghost predicate TakesRow(row: Row, first: nat, minTs: int, lost: bool)
      reads `versions
    {
      forall k :: first <= k && MayBeRead(k, minTs) ==> (row == versions[k].row <==> k == first && lost)
    }

    /** `reserveRow` up to the choice of the entry: make room by collecting, growing, or replacing the oldest. */
    method MakeRoom(minTs: int, threads: nat)
      requires Valid() && !existsPrewrite && minTs <= INF
      modifies `history, `oldest, `latest, `shift, `drop
      ensures Valid() && !Full() && (history == old(history) || fresh(history))
      ensures history == old(history) ==> shift == old(shift)
      ensures old(!Full()) ==> drop == old(drop) && history == old(history)
      ensures drop > old(drop) ==> history == old(history)
      ensures forall k :: old(drop) <= k && MayBeRead(k, minTs) ==>
        (k < drop <==> k == old(drop) && old(Full()) && old(history.Length) >= threads)
      ensures old(drop) <= drop
        && (Ended(old(drop), minTs) || (drop == old(drop) + 1 && old(history.Length) >= threads))
    {
      FullTest();
      assert EntryOk(drop);
      if (latest + 1) % history.Length == oldest && minTs > history[oldest].end {
        Collect(minTs);
        FullTest();
      }
      if (latest + 1) % history.Length == oldest {
        if history.Length < threads {
          Double();
        } else {
          DropOldest();
        }
      }
    }

    /** `reserveRow`: the entry after the latest version, with a row that no version uses. */
    method Reserve(minTs: int, threads: nat, unused: Row) returns (id: nat)
      requires Valid() && !existsPrewrite && minTs <= INF && unused !in data
      modifies `history, `oldest, `latest, `shift, `drop, `data, history
      ensures Valid() && !Full() && id == Slot(|versions|) && history[id].row.Some?
      ensures history == old(history) || fresh(history)
      ensures data == old(data) || (data == old(data)[unused := 0] && history[id].row == Some(unused))
      ensures old(Full()) && history == old(history) ==> history[id].row == Some(versions[old(drop)].row)
      ensures old(!Full()) ==> drop == old(drop) && history == old(history)
      ensures TakesRow(history[id].row.value, old(drop), minTs, old(Full()) && old(history.Length) >= threads)
      ensures old(drop) <= drop
        && (Ended(old(drop), minTs) || (drop == old(drop) + 1 && old(history.Length) >= threads))
    {
      assert EntryOk(drop);
      SlotAgain(history.Length, shift, |versions|);
      MakeRoom(minTs, threads);
      FullTest();
      id := (latest + 1) % history.Length;
      if history[id].row == None { GiveRow(id, unused); }
      forall k | old(drop) <= k && MayBeRead(k, minTs) && k >= drop ensures history[id].row != Some(versions[k].row) {
        DraftApart(k);
      }
    }

    method GiveRow(id: nat, unused: Row)
      requires Valid() && !existsPrewrite && !Full() && id == Slot(|versions|) && unused !in data
      modifies `data, history
      ensures Valid() && history[id].row == Some(unused) && data == old(data)[unused := 0]
    {
      history[id] := history[id].(row := Some(unused));
      data := data[unused := 0];
      forall k ensures EntryOk(k) {
        assert old(EntryOk(k));
        if drop <= k < |versions| { OutsideRing(k); }
      }
    }

    /** The row a pending write works on. */
    ghost function Draft(): Row
      requires Valid() && existsPrewrite
      reads this, history
    {
      history[Slot(|versions|)].row.value
    }

    /** The row of the draft is no version's row. */
    lemma DraftApart(k: int)
      requires Shape() && !Full() && drop <= k < |versions| && RowsApart() && (forall j :: EntryOk(j))
      requires history[Slot(|versions|)].row.Some?
      ensures history[Slot(|versions|)].row != Some(versions[k].row)
    {
      OutsideRing(k);
      assert EntryOk(k);
      ApartAt(history[..], Slot(|versions|), Slot(k));
    }

    /** The row that a read has returned holds its version for as long as the version is in the ring; the draft is never
        such a row. */
    lemma Readable(k: int)
      requires Valid() && drop <= k < |versions|
      ensures versions[k].row in data && data[versions[k].row] == versions[k].value
      ensures existsPrewrite ==> Draft() != versions[k].row
    {
      assert EntryOk(k);
      if existsPrewrite { DraftApart(k); }
    }

    method LatestBegin() returns (t: int)
      requires Valid()
      ensures t == versions[|versions| - 1].begin
    {
      assert EntryOk(|versions| - 1);
      t := history[latest].begin;
    }

    /** The prewrite that does not abort. */
    method Draw(txnid: int, minTs: int, threads: nat, unused: Row) returns (row: Row)
      requires Valid() && !existsPrewrite && minTs <= INF && unused !in data
      modifies this, history
      ensures Valid() && existsPrewrite && versions == old(versions) && (history == old(history) || fresh(history))
      ensures holder == txnid && row == Draft() && data[row] == versions[|versions| - 1].value
      ensures forall x :: x in old(data) && x != row ==> x in data && data[x] == old(data)[x]
      ensures old(Full()) && history == old(history) ==> row == versions[old(drop)].row
      ensures TakesRow(row, old(drop), minTs, old(Full()) && old(history.Length) >= threads)
      ensures old(!Full()) ==> drop == old(drop) && history == old(history)
      ensures data.Keys <= old(data.Keys) + {unused}
      ensures Ended(old(drop), minTs) || (drop == old(drop) + 1 && old(history.Length) >= threads && old(Full()))
    {
      var id := Reserve(minTs, threads, unused);
      ghost var d := data;
      Mark(id, txnid);
      row := history[id].row.value;
      assert data == d[row := versions[|versions| - 1].value];
    }

    /** A prewrite aborts exactly when another is pending or a later version exists; otherwise it gets a row of its
        own with a copy of the latest version, and no other row changes.  Of the versions in the ring that a reader
        may hold, the row of the oldest is overwritten exactly if the ring is full and may not grow, and no other's
        ever is. */
    method Prewrite(ts: int, txnid: int, minTs: int, threads: nat, unused: Row) returns (r: Result)
      requires Valid() && minTs <= INF && unused !in data
      modifies this, history
      ensures Valid() && versions == old(versions) && (history == old(history) || fresh(history))
      ensures r.Abort? <==> old(existsPrewrite) || ts < versions[|versions| - 1].begin
      ensures r.Abort? ==> existsPrewrite == old(existsPrewrite) && drop == old(drop) && data == old(data)
      ensures holder == if r.Ok? then txnid else old(holder)
      ensures r.Ok? ==> existsPrewrite && r.row == Draft() && data[r.row] == versions[|versions| - 1].value
      ensures r.Ok? ==> forall row :: row in old(data) && row != r.row ==> row in data && data[row] == old(data)[row]
      ensures r.Ok? && old(Full()) && history == old(history) ==> r.row == versions[old(drop)].row
      ensures r.Ok? ==> TakesRow(r.row, old(drop), minTs, old(Full()) && old(history.Length) >= threads)
      ensures old(!Full()) ==> drop == old(drop) && history == old(history)
      ensures data.Keys <= old(data.Keys) + {unused}
      ensures r.Ok? ==>
        Ended(old(drop), minTs) || (drop == old(drop) + 1 && old(history.Length) >= threads && old(Full()))
    {
      var latestBegin := LatestBegin();
      if existsPrewrite || ts < latestBegin { return Abort; }
      var row := Draw(txnid, minTs, threads, unused);
      r := Ok(row);
    }

    /** The rest of the prewrite: mark the two entries with the transaction and copy the latest row. */
    method Mark(id: nat, txnid: int)
      requires Valid() && !existsPrewrite && !Full() && id == Slot(|versions|) && history[id].row.Some?
      modifies `existsPrewrite, `data, `holder, history
      ensures Valid() && existsPrewrite && history[id].row.Some? && history[id].row.value == Draft() && holder == txnid
      ensures data == old(data)[Draft() := versions[|versions| - 1].value] && history[id].row == old(history[id].row)
    {
      assert EntryOk(|versions| - 1);
      Before(history.Length, shift, |versions|);
      OutsideRing(|versions| - 1);
      forall k | drop <= k < |versions| ensures history[id].row != Some(versions[k].row) { DraftApart(k); }
      existsPrewrite := true;
      holder := txnid;
      var pre := if id == 0 then history.Length - 1 else id - 1;
      history[id] := history[id].(beginTxn := true, begin := txnid);
      history[pre] := history[pre].(endTxn := true, end := txnid);
      var row := history[id].row.value;
      data := data[row := data[history[latest].row.value]];
      forall k ensures EntryOk(k) {
        assert old(EntryOk(k));
        if drop <= k < |versions| {
          OutsideRing(k);
          if k < |versions| - 1 { SlotsDiffer(history.Length, shift, k, |versions| - 1); }
        }
      }
    }

    /** The transaction changes its draft; no version changes. */
    method Write(row: Row, value: Value)
      requires Valid() && existsPrewrite && row == Draft()
      modifies `data
      ensures Valid() && data == old(data)[row := value]
    {
      forall k | drop <= k < |versions| ensures versions[k].row != row { DraftApart(k); }
      data := data[row := value];
      forall k ensures EntryOk(k) { assert old(EntryOk(k)); }
    }

    /** The slot of the draft. */
    method DraftSlot() returns (id: nat)
      requires Valid() && existsPrewrite
      ensures id < history.Length && id == Slot(|versions|) && id != latest && id != oldest
      ensures history[id].beginTxn && history[id].begin == holder
    {
      FullTest();
      OutsideRing(|versions| - 1);
      id := (latest + 1) % history.Length;
    }

    /** `post_process` with a commit: the draft becomes the latest version, and the one before ends there. */
    method Commit(txnid: int, commitTs: int)
      requires Valid() && existsPrewrite && txnid == holder && versions[|versions| - 1].begin < commitTs < INF
      modifies `existsPrewrite, `latest, `versions, history
      ensures Valid() && !existsPrewrite
      ensures versions == old(versions) + [Version(commitTs, old(Draft()), data[old(Draft())])]
    {
      var id := DraftSlot();
      assert history[id].beginTxn && history[id].begin == txnid;
      ghost var n := |versions|;
      assert EntryOk(n - 1);
      history[latest] := history[latest].(endTxn := false, end := commitTs);
      history[id] := history[id].(begin := commitTs, end := INF);
      existsPrewrite := false;
      latest := id;
      assert latest != oldest;
      SameRows(old(history[..]), history[..]);
      ghost var v := Version(commitTs, history[id].row.value, data[history[id].row.value]);
      RisesOn(versions, v);
      versions := versions + [v];
      forall k ensures EntryOk(k) {
        assert old(EntryOk(k));
        RingSlotsDiffer(k, n);
      }
    }

    lemma RingSlotsDiffer(k: int, n: int)
      requires history.Length > 0
      ensures n - history.Length < k < n ==> Slot(k) != Slot(n)
      ensures n - history.Length < k < n - 1 ==> Slot(k) != Slot(n - 1)
    {
      if n - history.Length < k < n { SlotsDiffer(history.Length, shift, k, n); }
      if n - history.Length < k < n - 1 { SlotsDiffer(history.Length, shift, k, n - 1); }
    }

    /** `post_process` with an abort: the latest version is open-ended again. */
    method Rollback(txnid: int)
      requires Valid() && existsPrewrite && txnid == holder
      modifies `existsPrewrite, history
      ensures Valid() && !existsPrewrite
    {
      var id := DraftSlot();
      assert history[id].beginTxn && history[id].begin == txnid;
      history[latest] := history[latest].(endTxn := false, end := INF);
      existsPrewrite := false;
      forall k ensures EntryOk(k) {
        assert old(EntryOk(k));
        if drop <= k < |versions| - 1 { SlotsDiffer(history.Length, shift, k, |versions| - 1); }
      }
    }
  }

  /** One step back around the ring. */
  lemma Before(cap: int, shift: int, n: int)
    requires cap > 0
    ensures SlotOf(cap, shift, n - 1) == if SlotOf(cap, shift, n) == 0 then cap - 1 else SlotOf(cap, shift, n) - 1
  {
    NextSlot(cap, shift, n);
    var s := SlotOf(cap, shift, n);
    if s == 0 { RemainderUnique(-1, cap, -1, cap - 1); } else { RemainderUnique(s - 1, cap, 0, s - 1); }
  }


  /** One committed update of a ring that is not full. */
  method Update(h: RowHistory, txnid: int, commitTs: int, threads: nat, unused: Row)
    requires h.Valid() && !h.existsPrewrite && !h.Full() && unused !in h.data
    requires h.versions[|h.versions| - 1].begin < commitTs < INF
    modifies h, h.history
    ensures h.Valid() && !h.existsPrewrite && h.history == old(h.history) && h.drop == old(h.drop)
    ensures |h.versions| == |old(h.versions)| + 1 && h.versions[..|old(h.versions)|] == old(h.versions)
    ensures h.versions[|h.versions| - 1].begin == commitTs && h.data.Keys <= old(h.data.Keys) + {unused}
  {
    var r := h.Prewrite(commitTs, txnid, 0, threads, unused);
    h.Commit(txnid, commitTs);
  }

  /** A row of at most four threads after three updates: its ring is full. */
  method FullRing(row: Row, value: Value, unused: seq<Row>, threads: nat) returns (h: RowHistory)
    requires |unused| == 4 && NoDup(unused) && row !in unused
    ensures fresh(h) && fresh(h.history) && h.Valid() && !h.existsPrewrite && h.Full() && h.drop == 0
    ensures h.history.Length == 4 && |h.versions| == 4 && unused[3] !in h.data
    ensures h.versions[0] == Version(0, row, value)
    ensures h.versions[1].begin == 10 && h.versions[2].begin == 20 && h.versions[3].begin == 30
  {
    h := new RowHistory(row, value);
    Update(h, 1, 10, threads, unused[0]);
    Update(h, 2, 20, threads, unused[1]);
    ghost var vs := h.versions;
    Update(h, 3, 30, threads, unused[2]);
    assert h.versions[..3] == vs;
  }

  /** A reader at time 5 still holds the first version of the row when another transaction's prewrite takes that row for
      its draft and writes what it likes there. */
  method ReaderLosesItsRow(row: Row, value: Value, other: Value, unused: seq<Row>, threads: nat)
    returns (h: RowHistory, r: Result)
    requires |unused| == 4 && NoDup(unused) && row !in unused && threads <= 4
    ensures r == Ok(row) && row in h.data && h.data[row] == other
    ensures h.Valid() && h.versions[0] == Version(0, row, value) && CurrentAt(h.versions, 5, 0) && h.MayBeRead(0, 5)
  {
    h := FullRing(row, value, unused, threads);
    assert CurrentAt(h.versions, 5, 0) && h.MayBeRead(0, 5);
    r := h.Read(5);
    var p := h.Prewrite(40, 4, 5, threads, unused[3]);
    h.Write(p.row, other);
  }
}
