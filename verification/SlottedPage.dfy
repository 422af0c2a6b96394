/** Slotted pages of sandbox/btree2s.c (`keycmp`, `bt_findslot`, `bt_cleanpage`, the page cutting of `bt_splitpage` and
    the in-page part of `bt_insertkey`): slots grow up from the header, key bytes grow down from the end of the page,
    and a slot holds the offset of its key.  Deleted keys stay as dead slots until the page is cleaned; the last slot,
    the fence, always stays. */
module SlottedPage {
  type Byte = b: int | 0 <= b < 256
  type Key = seq<Byte>

  /** `sizeof(BtSlot)` and `sizeof(*page)`. */
  const SLOT: nat := 16
  const HEADER: nat := 20

  // ----- the order of keys

  /** Byte order with the shorter key first. */
  ghost predicate Less(a: Key, b: Key) {
    if |b| == 0 then false
    else if |a| == 0 then true
    else a[0] < b[0] || (a[0] == b[0] && Less(a[1..], b[1..]))
  }

  lemma {:induction false} LessTransitive(a: Key, b: Key, c: Key)
    requires Less(a, b) && Less(b, c)
    ensures Less(a, c)
  {
    if |a| > 0 && a[0] == b[0] == c[0] { LessTransitive(a[1..], b[1..], c[1..]); }
  }

  lemma {:induction false} LessTotal(a: Key, b: Key)
    ensures Less(a, b) || a == b || Less(b, a)
    ensures !(Less(a, b) && Less(b, a)) && !(Less(a, b) && a == b)
  {
    if |a| > 0 && |b| > 0 && a[0] == b[0] {
      LessTotal(a[1..], b[1..]);
      assert a[1..] == b[1..] ==> a == [a[0]] + a[1..] == [b[0]] + b[1..] == b;
    }
  }

  /** Keys that agree up to `n` compare like the rest. */
  lemma {:induction false} LessFrom(a: Key, b: Key, n: nat)
    requires n <= |a| && n <= |b| && a[..n] == b[..n]
    ensures Less(a, b) <==> Less(a[n..], b[n..])
  {
    if n > 0 {
      assert a[0] == a[..n][0] == b[..n][0] == b[0];
      assert a[1..][..n - 1] == a[..n][1..] == b[..n][1..] == b[1..][..n - 1];
      LessFrom(a[1..], b[1..], n - 1);
      assert a[1..][n - 1..] == a[n..] && b[1..][n - 1..] == b[n..];
    } else {
      assert a[n..] == a && b[n..] == b;
    }
  }

  /** `keycmp`: the sign of the comparison. */
  method KeyCmp(a: Key, b: Key) returns (r: int)
    ensures (r < 0 <==> Less(a, b)) && (r == 0 <==> a == b) && (r > 0 <==> Less(b, a))
  {
    LessTotal(a, b);
    var n := if |a| > |b| then |b| else |a|;
    var i := 0;
    while i < n
      invariant 0 <= i <= n && a[..i] == b[..i]
    {
      if a[i] != b[i] {
        LessFrom(a, b, i);
        LessFrom(b, a, i);
        var x: int, y: int := a[i], b[i];
        return x - y;
      }
      i := i + 1;
    }
    LessFrom(a, b, n);
    LessFrom(b, a, n);
    assert |a| == |b| ==> a == a[..n] == b[..n] == b;
    return if |a| > |b| then 1 else if |a| < |b| then -1 else 0;
  }

  // ----- entries

  /** What a slot stands for: key, deletion mark, id and time stamp. */
  datatype Entry = Entry(key: Key, dead: bool, id: nat, tod: nat)

  datatype Slot = Slot(off: nat, dead: bool, id: nat, tod: nat)

  ghost predicate InOrder(es: seq<Entry>, i: int, j: int) {
    0 <= i < j < |es| ==> Less(es[i].key, es[j].key)
  }

  ghost predicate Sorted(es: seq<Entry>) { forall i, j :: InOrder(es, i, j) }

  /** The bytes the keys of `es` take, a length byte each. */
  ghost function Used(es: seq<Entry>): nat {
    if es == [] then 0 else Used(es[..|es| - 1]) + |es[|es| - 1].key| + 1
  }

  ghost function LiveCount(es: seq<Entry>): nat {
    if es == [] then 0 else LiveCount(es[..|es| - 1]) + if es[|es| - 1].dead then 0 else 1
  }

  /** The key at an offset: a length byte and that many bytes. */
  function KeyAt(m: seq<Byte>, off: nat): Key {
    if off < |m| && off + 1 + m[off] <= |m| then m[off + 1..off + 1 + m[off]] else []
  }

  function EntryAt(m: seq<Byte>, s: Slot): Entry { Entry(KeyAt(m, s.off), s.dead, s.id, s.tod) }

  function EntriesOf(m: seq<Byte>, slots: seq<Slot>): (es: seq<Entry>)
    ensures |es| == |slots| && forall i :: 0 <= i < |es| ==> es[i] == EntryAt(m, slots[i])
  {
    seq(|slots|, i requires 0 <= i < |slots| => EntryAt(m, slots[i]))
  }

  /** The slot's key lies within the key area. */
  ghost predicate InArea(m: seq<Byte>, min: nat, s: Slot) {
    min <= s.off < |m| && s.off + 1 + m[s.off] <= |m|
  }

  /** Keys above the place of a change are read as before. */
  lemma EntrySame(m: seq<Byte>, m': seq<Byte>, min: nat, s: Slot)
    requires |m'| == |m| && InArea(m, min, s) && forall j :: min <= j < |m| ==> m'[j] == m[j]
    ensures InArea(m', min, s) && EntryAt(m', s) == EntryAt(m, s)
  {
  }

  // ----- pages

  class Page {
    /** The page's memory, of which the class looks at the key bytes only; `slots`, `act`, `min`, `dirty` and `right`
        are the header fields and slot array that lie below them. */
    const mem: array<Byte>
    var slots: seq<Slot>
    var act: nat
    var min: nat
    var dirty: bool
    var right: nat

    /** What the slots stand for. */
    ghost var entries: seq<Entry>

    /** Slot `i` has its key within the key area and stands for entry `i`. */
    ghost predicate SlotOk(i: int)
      reads `slots, `min, `entries, mem
    {
      0 <= i < |slots| && i < |entries| ==> InArea(mem[..], min, slots[i]) && EntryAt(mem[..], slots[i]) == entries[i]
    }

    ghost predicate Shows()
      reads `slots, `min, `entries, mem
    {
      |entries| == |slots| && forall i :: SlotOk(i)
    }

    /** The slot array ends below the key bytes, and the keys take no more than the key area. */
    ghost predicate Fits()
      reads `slots, `min, `entries
    {
      && 0 < |slots| == |entries| && HEADER + SLOT * |slots| <= min <= mem.Length
      && Used(entries) <= mem.Length - min
    }

    ghost predicate Valid()
      reads this, mem
    {
      && Shows() && Fits() && Sorted(entries) && act == LiveCount(entries)
      && (!dirty ==> LiveButFence(entries) && min == mem.Length - Used(entries))
    }

    /** Put a length byte and the key's bytes below the key area. */
    method WriteKey(key: Key)
      requires |key| < 256 && |key| + 1 <= min <= mem.Length
      modifies `min, mem
      ensures min == old(min) - |key| - 1
      ensures mem[min] == |key| && mem[min + 1..old(min)] == key
      ensures forall j :: old(min) <= j < mem.Length ==> mem[j] == old(mem[j])
    {
      var top := min;
      min := min - (|key| + 1);
      mem[min] := |key|;
      var i := 0;
      while i < |key|
        invariant 0 <= i <= |key| && min == top - |key| - 1 && mem[min] == |key|
        invariant forall j :: 0 <= j < i ==> mem[min + 1 + j] == key[j]
        invariant forall j :: top <= j < mem.Length ==> mem[j] == old(mem[j])
      {
        mem[min + 1 + i] := key[i];
        i := i + 1;
      }
    }

    /** Store a key; the slots stand for what they stood for. */
    method StoreKey(e: Entry)
      requires Shows() && |e.key| < 256 && |e.key| + 1 <= min <= mem.Length
      modifies `min, mem
      ensures Shows() && min == old(min) - |e.key| - 1
      ensures InArea(mem[..], min, Slot(min, e.dead, e.id, e.tod))
        && EntryAt(mem[..], Slot(min, e.dead, e.id, e.tod)) == e
    {
      WriteKey(e.key);
      assert KeyAt(mem[..], min) == e.key;
      forall i ensures SlotOk(i) {
        if 0 <= i < |slots| {
          assert old(SlotOk(i));
          EntrySame(old(mem[..]), mem[..], old(min), slots[i]);
        }
      }
    }

    /** Add a slot for a stored key at the end. */
    method AddSlot(x: Slot, ghost e: Entry)
      requires Shows() && InArea(mem[..], min, x) && EntryAt(mem[..], x) == e
      modifies `slots, `entries
      ensures Shows() && entries == old(entries) + [e]
    {
      slots := slots + [x];
      entries := entries + [e];
      forall i ensures SlotOk(i) { assert old(SlotOk(i)); }
    }

    /** The page holds `es`, packed at its end. */
    ghost predicate Packed(es: seq<Entry>)
      reads `slots, `min, `entries, `act, mem
    {
      Shows() && entries == es && Used(es) <= mem.Length && min == mem.Length - Used(es) && act == LiveCount(es)
    }

    /** Copy one entry onto a packed page. */
    method Pack(e: Entry, ghost es: seq<Entry>)
      requires Packed(es) && |e.key| < 256 && Used(es) + |e.key| + 1 <= mem.Length
      modifies `min, `slots, `act, `entries, mem
      ensures Packed(es + [e])
    {
      UsedConcat(es, [e]);
      UsedOne(e);
      StoreKey(e);
      AddSlot(Slot(min, e.dead, e.id, e.tod), e);
      if !e.dead { act := act + 1; }
    }

    /** One turn of the copy loop of `bt_cleanpage`: dead keys are passed over, but the last key is always kept. */
    method KeepOne(fs: seq<Entry>, cnt: nat)
      requires cnt < |fs| && Packed(Kept(fs, cnt)) && |fs[cnt].key| < 256 && Used(fs) <= mem.Length
      modifies `min, `slots, `act, `entries, mem
      ensures Packed(Kept(fs, cnt + 1))
    {
      KeptSnoc(fs, cnt);
      RoomFor(fs, cnt, mem.Length);
      if cnt + 1 == |fs| || !fs[cnt].dead { Pack(fs[cnt], Kept(fs, cnt)); }
    }

    /** The copy loop of `bt_cleanpage`, onto an emptied page: what is kept of the frame's entries, and where the slot
        the caller has in mind has moved. */
    method CopyKept(fs: seq<Entry>, slot: nat) returns (newslot: nat)
      requires Packed([]) && 1 <= slot <= |fs| && KeysFit(fs) && Used(fs) <= mem.Length
      modifies `min, `slots, `act, `entries, mem
      ensures Packed(Kept(fs, |fs|)) && newslot == |Kept(fs, slot - 1)| + 1
    {
      newslot := slot;
      var cnt := 0;
      while cnt < |fs|
        invariant 0 <= cnt <= |fs| && Packed(Kept(fs, cnt))
        invariant cnt >= slot ==> newslot == |Kept(fs, slot - 1)| + 1
      {
        if cnt + 1 == slot { newslot := |slots| + 1; }
        KeepOne(fs, cnt);
        cnt := cnt + 1;
      }
    }

    /** The entries as a value: what a copy of the page's memory shows. */
    method Frame() returns (fs: seq<Entry>)
      requires Shows()
      ensures fs == entries && KeysFit(fs)
    {
      fs := EntriesOf(mem[..], slots);
      forall i | 0 <= i < |fs| ensures fs[i] == entries[i] && |fs[i].key| < 256 { assert SlotOk(i); }
    }

    /** Empty the page. */
    method Wipe()
      modifies `min, `slots, `act, `entries, mem
      ensures Packed([])
    {
      forall j | 0 <= j < mem.Length { mem[j] := 0; }
      slots, act, min, entries := [], 0, mem.Length, [];
    }

    /** There is room for one more slot and a key of `amt` bytes, counting `max` slots. */
    predicate HasRoom(max: nat, amt: nat)
      reads `min
    {
      min >= (max + 1) * SLOT + HEADER + amt + 1
    }

    /** There is no room for a key of `amt` bytes, and cleaning would not make any. */
    ghost predicate MustSplit(amt: nat)
      reads `min, `slots, `dirty, `entries
    {
      !HasRoom(|slots|, amt) && (dirty ==> StaysFull(entries, mem.Length, amt))
    }

    /** `bt_cleanpage`: the slot at which a key of `amt` bytes can go in, after removing dead keys if that is needed;
        0 if the page must be split, and then no key but the fence is dead. */
    method Clean(amt: nat, slot: nat) returns (r: nat)
      requires Valid() && 1 <= slot <= |slots|
      modifies `min, `slots, `act, `entries, mem
      ensures Valid()
      ensures r > 0 ==> HasRoom(|slots|, amt)
      ensures r == 0 <==> old(MustSplit(amt))
      ensures r == 0 ==> LiveButFence(entries)
      ensures r == 0 && amt < 256 && mem.Length >= 4096 ==> |slots| >= 2
      ensures SameContent(old(entries), entries)
      ensures r > 0 ==> Follows(old(entries), slot, entries, r)
    {
      assert SameContent(entries, entries);
      var max := |slots|;
      if HasRoom(max, amt) { return slot; }
      var frame := Frame();
      if !dirty {
        KeptAll(frame, max);
        NeedsTwo(frame, mem.Length, amt);
        return 0;
      }
      var newslot := Rebuild(frame, slot);
      if HasRoom(max, amt) { return newslot; }
      NeedsTwo(frame, mem.Length, amt);
      return 0;
    }

    /** Empty the page and copy back what is kept of it. */
    method Rebuild(frame: seq<Entry>, slot: nat) returns (newslot: nat)
      requires Valid() && dirty && frame == entries && KeysFit(frame) && 1 <= slot <= |slots|
      modifies `min, `slots, `act, `entries, mem
      ensures Valid() && min == mem.Length - Used(entries) && |slots| <= |frame| && LiveButFence(entries)
      ensures entries == Kept(frame, |frame|) && SameContent(frame, entries) && Follows(frame, slot, entries, newslot)
    {
      KeptValid(frame);
      assert HEADER + SLOT * |frame| <= mem.Length - Used(frame);
      Wipe();
      newslot := CopyKept(frame, slot);
      PackedFits(Kept(frame, |frame|), |frame|, Used(frame));
    }

    /** Give a stored key a slot before slot `slot`. */
    method PutSlot(x: Slot, slot: nat, ghost e: Entry) returns (ghost d: nat)
      requires Shows() && 1 <= slot <= |slots| && InArea(mem[..], min, x) && EntryAt(mem[..], x) == e
      modifies `slots, `entries
      ensures Gap(old(entries), slot - 1, d) && Shows() && entries == Inserted(old(entries), slot - 1, d, e)
    {
      var r, at := ShiftIn(slots, slot - 1, x);
      d := at;
      forall i ensures old(SlotOk(i)) {}
      assert d < |slots| ==> old(SlotOk(d));
      entries := Inserted(entries, slot - 1, d, e);
      slots := r;
      forall i ensures SlotOk(i) {
        assert old(SlotOk(if i <= slot - 1 || i > d then i else i - 1));
      }
    }

    /** The end of `bt_insertkey`: a new key goes in before slot `slot`, in the room `bt_cleanpage` made sure of. */
    method InsertSlot(e: Entry, slot: nat) returns (ghost d: nat)
      requires Valid() && 1 <= slot <= |slots| && |e.key| < 256 && !e.dead && HasRoom(|slots|, |e.key|)
      requires Less(e.key, entries[slot - 1].key) && (slot > 1 ==> Less(entries[slot - 2].key, e.key))
      modifies `min, `slots, `act, `entries, mem
      ensures Valid() && Gap(old(entries), slot - 1, d) && entries == Inserted(old(entries), slot - 1, d, e)
    {
      ghost var es := entries;
      d := StoreAt(e, slot);
      act := act + 1;
      InsertedValid(es, slot - 1, d, e, entries);
    }

    /** Store a key and give it a slot before slot `slot`. */
    method StoreAt(e: Entry, slot: nat) returns (ghost d: nat)
      requires Shows() && 1 <= slot <= |slots| && |e.key| < 256 && |e.key| + 1 <= min <= mem.Length
      modifies `min, `slots, `entries, mem
      ensures Shows() && min == old(min) - |e.key| - 1
      ensures Gap(old(entries), slot - 1, d) && entries == Inserted(old(entries), slot - 1, d, e)
    {
      StoreKey(e);
      d := PutSlot(Slot(min, e.dead, e.id, e.tod), slot, e);
    }

    /** An empty page of the given size, for a split to fill. */
    constructor (size: nat)
      ensures Packed([]) && mem.Length == size && fresh(mem) && !dirty && right == 0
    {
      mem := new Byte[size](_ => 0);
      slots, act, min, entries := [], 0, size, [];
      dirty, right := false, 0;
    }

    /** Bring the slot of a key that is there up to date. */
    method Update(slot: nat, id: nat, tod: nat)
      requires Valid() && 1 <= slot <= |slots|
      modifies `slots, `act, `entries
      ensures Valid() && entries == old(entries)[slot - 1 := Entry(old(entries)[slot - 1].key, false, id, tod)]
    {
      ghost var es, s := entries, slot - 1;
      ghost var e := Entry(es[s].key, false, id, tod);
      assert SlotOk(s);
      UpdatedRebinds(es, s, e);
      UpdatedCounts(es, s, e);
      if slots[slot - 1].dead { act := act + 1; }
      slots := slots[slot - 1 := Slot(slots[slot - 1].off, false, id, tod)];
      entries := entries[s := e];
      forall i ensures SlotOk(i) { assert old(SlotOk(i)); }
    }

    /** A key that is not there: clean if need be, and put it in. */
    method AddKey(e: Entry, slot: nat) returns (done: bool)
      requires Valid() && |e.key| < 256 && !e.dead && GoesBefore(entries, slot, e.key)
      modifies `min, `slots, `act, `entries, mem
      ensures Valid() && SameFence(old(entries), entries)
      ensures !done <==> old(MustSplit(|e.key|))
      ensures done ==> Rebinds(old(entries), entries, e.key, e.id) && e in entries
      ensures !done ==> SameBindings(old(entries), entries) && LiveButFence(entries)
      ensures !done && mem.Length >= 4096 ==> |slots| >= 2
    {
      ghost var es := entries;
      var r := Clean(|e.key|, slot);
      if r == 0 { return false; }
      FollowsOrder(es, slot, entries, r, e.key);
      AddClean(e, r, es);
      return true;
    }

    /** The key goes into a page with room, which has the same content as `was`. */
    method AddClean(e: Entry, r: nat, ghost was: seq<Entry>)
      requires Valid() && |e.key| < 256 && !e.dead && GoesBefore(entries, r, e.key) && HasRoom(|slots|, |e.key|)
      requires SameContent(was, entries)
      modifies `min, `slots, `act, `entries, mem
      ensures Valid() && SameFence(was, entries) && Rebinds(was, entries, e.key, e.id) && e in entries
    {
      ghost var es := entries;
      ghost var d := InsertSlot(e, r);
      InsertedRebinds(es, r, d, e);
      InsertedLive(es, r - 1, d, e);
      assert entries[r - 1] == e;
    }

    /** `bt_insertkey` on the page that covers the key: the key is bound to the id and nothing else changes, unless the
        page is full and must be split first. */
    method Insert(key: Key, id: nat, tod: nat) returns (done: bool)
      requires Valid() && |key| < 256 && !Less(entries[|entries| - 1].key, key)
      modifies `min, `slots, `act, `entries, mem
      ensures Valid() && SameFence(old(entries), entries)
      ensures !done <==> old(MustSplit(|key|)) && !IsThere(old(entries), key)
      ensures done ==> Rebinds(old(entries), entries, key, id) && Entry(key, false, id, tod) in entries
      ensures !done ==> SameBindings(old(entries), entries) && LiveButFence(entries)
      ensures !done && mem.Length >= 4096 ==> |slots| >= 2
    {
      var slot := Locate(key);
      var frame := Frame();
      var c := KeyCmp(frame[slot - 1].key, key);
      if c == 0 {
        UpdatedRebinds(entries, slot - 1, Entry(key, false, id, tod));
        Update(slot, id, tod);
        assert old(entries)[slot - 1].key == key && entries[slot - 1] == Entry(key, false, id, tod);
        return true;
      }
      NotThere(entries, slot, key);
      done := AddKey(Entry(key, false, id, tod), slot);
    }

    /** The slot for a key that is not above the fence. */
    method Locate(key: Key) returns (slot: nat)
      requires Valid() && !Less(entries[|entries| - 1].key, key)
      ensures 1 <= slot <= |slots| && !Less(entries[slot - 1].key, key)
        && (slot > 1 ==> Less(entries[slot - 2].key, key))
    {
      var frame := Frame();
      slot := FindSlot(frame, right, key);
      NotBelowLast(entries, key);
      assert slot > 1 ==> IsLess(entries, slot - 2, key);
    }

    /** The copy loops of `bt_splitpage`, onto an emptied page: entries `from..to`; the loop for the left page does not
        copy deletion marks. */
    method CopyRange(fs: seq<Entry>, from: nat, to: nat, marks: bool)
      requires Packed([]) && from <= to <= |fs| && KeysFit(fs) && Used(fs) <= mem.Length
      requires !marks ==> forall i :: from <= i < to ==> !fs[i].dead
      modifies `min, `slots, `act, `entries, mem
      ensures Packed(fs[from..to])
    {
      var cnt := from;
      while cnt < to
        invariant from <= cnt <= to && Packed(fs[from..cnt])
      {
        RangeRoom(fs, from, cnt);
        var e := if marks then fs[cnt] else fs[cnt].(dead := false);
        Pack(e, fs[from..cnt]);
        assert fs[from..cnt] + [e] == fs[from..cnt + 1];
        cnt := cnt + 1;
      }
    }

    /** The page half of `bt_splitpage`, for a page on which no key but the fence is dead: the lower half stays and the
        upper half goes to a new page, without loss, copy or disorder. */
    method Split(rightNo: nat) returns (r: Page)
      requires Valid() && LiveButFence(entries) && |slots| >= 2
      modifies this, mem
      ensures Valid() && r.Valid() && fresh(r) && fresh(r.mem) && r.mem.Length == mem.Length
      ensures entries + r.entries == old(entries) && |entries| == old(|entries|) / 2
      ensures right == rightNo && r.right == old(right)
    {
      var frame := Frame();
      var max := |slots|;
      HalvesOk(frame, max / 2);
      r := UpperHalf(frame, max / 2, mem.Length, right);
      LowerHalf(frame, max / 2);
      right := rightNo;
    }

    /** The new right page. */
    static method UpperHalf(fs: seq<Entry>, m: nat, size: nat, rightNo: nat) returns (r: Page)
      requires m < |fs| && KeysFit(fs) && HEADER + SLOT * |fs| <= size - Used(fs) && HalfOk(fs, m, |fs|)
      ensures fresh(r) && fresh(r.mem) && r.Valid() && r.entries == fs[m..|fs|] && r.right == rightNo
        && r.mem.Length == size
    {
      r := new Page(size);
      r.Fill(fs, m, |fs|, true);
      r.right := rightNo;
    }

    /** What stays on the left page. */
    method LowerHalf(fs: seq<Entry>, m: nat)
      requires 0 < m <= |fs| && KeysFit(fs) && HEADER + SLOT * |fs| <= mem.Length - Used(fs) && HalfOk(fs, 0, m)
      requires forall i :: 0 <= i < m ==> !fs[i].dead
      modifies `min, `slots, `act, `entries, `dirty, mem
      ensures Valid() && entries == fs[0..m]
    {
      Wipe();
      Fill(fs, 0, m, false);
      dirty := false;
    }

    /** Half of a page's entries make a page. */
    method Fill(fs: seq<Entry>, from: nat, to: nat, marks: bool)
      requires Packed([]) && from < to <= |fs| && KeysFit(fs) && HEADER + SLOT * |fs| <= mem.Length - Used(fs)
      requires !marks ==> forall i :: from <= i < to ==> !fs[i].dead
      requires HalfOk(fs, from, to)
      modifies `min, `slots, `act, `entries, mem
      ensures Valid() && entries == fs[from..to] && min == mem.Length - Used(entries)
    {
      CopyRange(fs, from, to, marks);
      PackedFits(fs[from..to], |fs|, Used(fs));
    }

    lemma PackedFits(es: seq<Entry>, max: nat, used: nat)
      requires Packed(es) && 0 < |es| <= max && Used(es) <= used && HEADER + SLOT * max <= mem.Length - used
      ensures Fits()
    {
    }
  }

  /** All entries but the last are live. */
  ghost predicate LiveButFence(es: seq<Entry>) { forall i :: 0 <= i < |es| - 1 ==> !es[i].dead }

  /** Position `d`, from `s` on, is that of a dead entry short of the last, or just behind the last. */
  ghost predicate Gap(es: seq<Entry>, s: nat, d: nat) {
    s <= d <= |es| && d != |es| - 1 && (d < |es| ==> es[d].dead)
  }

  /** Slot `r` of `es'` is where slot `slot` of `es` has gone: nothing changed, or the dead entries were left out. */
  ghost predicate Follows(es: seq<Entry>, slot: nat, es': seq<Entry>, r: nat) {
    && 1 <= slot <= |es| && 1 <= r <= |es'|
    && (|| (es' == es && r == slot)
        || (es' == Kept(es, |es|) && r - 1 == |Kept(es, slot - 1)|))
  }

  /** Keys have at most 255 bytes. */
  ghost predicate KeysFit(es: seq<Entry>) { forall i :: 0 <= i < |es| ==> |es[i].key| < 256 }

  ghost predicate NotBelow(es: seq<Entry>, i: int, key: Key) { 0 <= i < |es| && !IsLess(es, i, key) }

  /** The first `n` keys are smaller than `key`. */
  ghost predicate AllBelow(es: seq<Entry>, n: int, key: Key) {
    forall i :: 0 <= i < n && i < |es| ==> IsLess(es, i, key)
  }

  ghost predicate IsLess(es: seq<Entry>, i: int, key: Key) { 0 <= i < |es| && Less(es[i].key, key) }

  lemma BelowUpTo(es: seq<Entry>, i: nat, key: Key)
    requires Sorted(es) && i < |es| && Less(es[i].key, key)
    ensures AllBelow(es, i + 1, key)
  {
    forall j | 0 <= j < i + 1 ensures IsLess(es, j, key) {
      assert InOrder(es, j, i);
      if j < i { LessTransitive(es[j].key, es[i].key, key); }
    }
  }

  lemma NotAllBelow(es: seq<Entry>, i: nat, key: Key)
    requires NotBelow(es, i, key)
    ensures !AllBelow(es, |es|, key)
  {
  }

  /** `bt_findslot` on a page with these entries: the first slot whose key is not smaller, the last key of a page
      without right neighbour counting as infinite; 0 if the key belongs further right. */
  method FindSlot(es: seq<Entry>, right: nat, key: Key) returns (r: nat)
    requires Sorted(es) && |es| > 0
    ensures r <= |es| && (r == 0 <==> right != 0 && AllBelow(es, |es|, key))
    ensures r > 0 ==> AllBelow(es, r - 1, key)
    ensures r > 0 && !(r == |es| && right == 0) ==> NotBelow(es, r - 1, key)
  {
    var higher, low, good := |es|, 1, 0;
    if right != 0 { higher := higher + 1; } else { good := good + 1; }
    ghost var last := higher;
    while higher != low
      invariant 1 <= low <= higher <= last && AllBelow(es, low - 1, key)
      invariant higher < last ==> good > 0 && NotBelow(es, higher - 1, key)
      invariant higher == last ==> (good > 0 <==> right == 0)
    {
      var slot := low + (higher - low) / 2;
      var c := KeyCmp(es[slot - 1].key, key);
      if c < 0 {
        BelowUpTo(es, slot - 1, key);
        low := slot + 1;
      } else {
        higher, good := slot, good + 1;
      }
    }
    r := if good > 0 then higher else 0;
    if 0 < r < last { NotAllBelow(es, r - 1, key); }
  }

  // ----- sequences of entries

  lemma {:induction false} UsedConcat(a: seq<Entry>, b: seq<Entry>)
    ensures Used(a + b) == Used(a) + Used(b) && LiveCount(a + b) == LiveCount(a) + LiveCount(b)
  {
    if b == [] {
      assert a + b == a;
    } else {
      UsedConcat(a, b[..|b| - 1]);
      assert (a + b)[..|a + b| - 1] == a + b[..|b| - 1];
    }
  }

  /** A live entry binds the key to the id. */
  ghost predicate Binds(es: seq<Entry>, key: Key, id: nat) {
    exists i :: 0 <= i < |es| && es[i].key == key && es[i].id == id && !es[i].dead
  }

  ghost predicate SameBindings(es: seq<Entry>, es': seq<Entry>) {
    forall key, id :: Binds(es', key, id) <==> Binds(es, key, id)
  }

  ghost predicate SameFence(es: seq<Entry>, es': seq<Entry>) {
    |es| > 0 && |es'| > 0 && es'[|es'| - 1].key == es[|es| - 1].key
  }

  /** The same live keys with the same ids, and the same fence. */
  ghost predicate SameContent(es: seq<Entry>, es': seq<Entry>) { SameBindings(es, es') && SameFence(es, es') }

  /** What cleaning keeps of the first `n` entries: the live ones, and the fence whether live or not. */
  ghost function Kept(es: seq<Entry>, n: nat): seq<Entry>
    requires n <= |es|
  {
    if n == 0 then []
    else Kept(es, n - 1) + if n == |es| || !es[n - 1].dead then [es[n - 1]] else []
  }

  lemma KeptSnoc(es: seq<Entry>, n: nat)
    requires n < |es|
    ensures Kept(es, n + 1) == Kept(es, n) + if n + 1 == |es| || !es[n].dead then [es[n]] else []
  {
  }

  lemma {:induction false} KeptSize(es: seq<Entry>, n: nat)
    requires n <= |es|
    ensures |Kept(es, n)| <= n && Used(Kept(es, n)) <= Used(es[..n]) && LiveCount(Kept(es, n)) == LiveCount(es[..n])
    ensures n == |es| > 0 ==> |Kept(es, n)| > 0 && Kept(es, n)[|Kept(es, n)| - 1] == es[n - 1]
  {
    if n > 0 {
      KeptSize(es, n - 1);
      assert es[..n][..n - 1] == es[..n - 1] && es[..n][n - 1] == es[n - 1];
      var last := if n == |es| || !es[n - 1].dead then [es[n - 1]] else [];
      UsedConcat(Kept(es, n - 1), last);
      if last != [] { assert last[..0] == []; }
    }
  }

  /** Kept entries stay in order and below the entries still to come. */
  lemma {:induction false} KeptSorted(es: seq<Entry>, n: nat)
    requires Sorted(es) && n <= |es|
    ensures Sorted(Kept(es, n))
    ensures forall j, m :: 0 <= j < |Kept(es, n)| && n <= m < |es| ==> Less(Kept(es, n)[j].key, es[m].key)
    ensures forall j :: 0 <= j < |Kept(es, n)| && (n < |es| || j < |Kept(es, n)| - 1) ==> !Kept(es, n)[j].dead
  {
    if n > 0 {
      KeptSorted(es, n - 1);
      var k, k0 := Kept(es, n), Kept(es, n - 1);
      forall i, j ensures InOrder(k, i, j) { assert InOrder(k0, i, j); }
      forall j, m | 0 <= j < |k| && n <= m < |es| ensures Less(k[j].key, es[m].key) {
        assert InOrder(es, n - 1, m);
      }
    }
  }

  lemma {:induction false} KeptBinds(es: seq<Entry>, n: nat, key: Key, id: nat)
    requires n <= |es|
    ensures Binds(Kept(es, n), key, id) <==> Binds(es[..n], key, id)
  {
    if n > 0 {
      KeptBinds(es, n - 1, key, id);
      var k, k0 := Kept(es, n), Kept(es, n - 1);
      BindsSnoc(es[..n - 1], es[n - 1], key, id);
      assert es[..n] == es[..n - 1] + [es[n - 1]];
      if n == |es| || !es[n - 1].dead { BindsSnoc(k0, es[n - 1], key, id); } else { assert k == k0; }
    }
  }

  lemma BindsSnoc(es: seq<Entry>, e: Entry, key: Key, id: nat)
    ensures Binds(es + [e], key, id) <==> Binds(es, key, id) || (e.key == key && e.id == id && !e.dead)
  {
    var es' := es + [e];
    if Binds(es, key, id) {
      var i :| 0 <= i < |es| && es[i].key == key && es[i].id == id && !es[i].dead;
      assert es'[i] == es[i];
    }
    if e.key == key && e.id == id && !e.dead { assert es'[|es|] == e; }
    if Binds(es', key, id) {
      var i :| 0 <= i < |es'| && es'[i].key == key && es'[i].id == id && !es'[i].dead;
      if i < |es| { assert es[i] == es'[i]; }
    }
  }

  lemma UsedOne(e: Entry)
    ensures Used([e]) == |e.key| + 1 && LiveCount([e]) == if e.dead then 0 else 1
  {
    assert [e][..0] == [];
  }

  lemma {:induction false} UsedPrefix(es: seq<Entry>, n: nat)
    requires n < |es|
    ensures Used(es[..n]) + |es[n].key| + 1 <= Used(es)
    decreases |es|
  {
    var front := es[..|es| - 1];
    if n < |es| - 1 {
      UsedPrefix(front, n);
      assert front[..n] == es[..n];
    }
  }

  /** The kept entries and the next one fit where all entries fitted. */
  lemma RoomFor(es: seq<Entry>, n: nat, size: nat)
    requires n < |es| && Used(es) <= size
    ensures Used(Kept(es, n)) + |es[n].key| + 1 <= size
  {
    KeptSize(es, n);
    UsedPrefix(es, n);
  }

  lemma {:induction false} KeptGrows(es: seq<Entry>, n: nat)
    requires n < |es|
    ensures |Kept(es, n)| < |Kept(es, |es|)|
    decreases |es| - n
  {
    KeptSnoc(es, n);
    if n + 1 < |es| { KeptGrows(es, n + 1); }
  }

  lemma KeptValid(es: seq<Entry>)
    requires Sorted(es) && |es| > 0
    ensures var k := Kept(es, |es|);
      && 0 < |k| <= |es| && Sorted(k) && Used(k) <= Used(es) && LiveCount(k) == LiveCount(es)
      && SameContent(es, k) && LiveButFence(k)
      && (forall n :: 0 <= n < |es| ==> |Kept(es, n)| < |k|)
  {
    KeptSize(es, |es|);
    KeptSorted(es, |es|);
    assert es[..|es|] == es;
    forall n | 0 <= n < |es| ensures |Kept(es, n)| < |Kept(es, |es|)| { KeptGrows(es, n); }
    forall key, id ensures Binds(Kept(es, |es|), key, id) <==> Binds(es, key, id) { KeptBinds(es, |es|, key, id); }
  }

  // ----- inserting an entry

  /** `e` at position `s`; the entries from `s` on move up, over the dead one at `d` if there is one (`d < |l|`). */
  ghost function Inserted<T>(l: seq<T>, s: nat, d: nat, e: T): (r: seq<T>)
    requires s <= d <= |l|
    ensures |r| == if d < |l| then |l| else |l| + 1
    ensures forall i :: 0 <= i < |r| ==>
      r[i] == if i < s then l[i] else if i == s then e else if i <= d then l[i - 1] else l[i]
  {
    l[..s] + [e] + l[s..d] + if d < |l| then l[d + 1..] else []
  }

  /** The place of an old entry after the insertion. */
  function NewPlace(s: nat, d: nat, i: nat): nat { if i < s || i > d then i else i + 1 }

  lemma InsertedSorted(es: seq<Entry>, s: nat, d: nat, e: Entry)
    requires Sorted(es) && s <= d <= |es| && s < |es| && Less(e.key, es[s].key)
      && (s > 0 ==> Less(es[s - 1].key, e.key))
    ensures Sorted(Inserted(es, s, d, e))
  {
    var r := Inserted(es, s, d, e);
    forall i, j ensures InOrder(r, i, j) {
      if 0 <= i < j < |r| {
        var a, b := if i <= s || i > d then i else i - 1, if j <= s || j > d then j else j - 1;
        if i != s && j != s {
          assert InOrder(es, a, b);
        } else if i == s {
          assert InOrder(es, s, b);
          if s < b { LessTransitive(e.key, es[s].key, es[b].key); }
        } else {
          assert InOrder(es, i, s - 1);
          if i < s - 1 { LessTransitive(es[i].key, es[s - 1].key, e.key); }
        }
      }
    }
  }

  lemma UsedParts(a: seq<Entry>, b: seq<Entry>, c: seq<Entry>, d: seq<Entry>)
    ensures Used(a + b + c + d) == Used(a) + Used(b) + Used(c) + Used(d)
    ensures LiveCount(a + b + c + d) == LiveCount(a) + LiveCount(b) + LiveCount(c) + LiveCount(d)
  {
    UsedConcat(a, b);
    UsedConcat(a + b, c);
    UsedConcat(a + b + c, d);
  }

  lemma Apart<T>(l: seq<T>, s: nat, d: nat)
    requires s <= d <= |l|
    ensures l == l[..s] + l[s..d] + l[d..]
    ensures d < |l| ==> l == l[..s] + l[s..d] + [l[d]] + l[d + 1..]
  {
    if d < |l| { assert l[d..] == [l[d]] + l[d + 1..]; }
  }

  lemma InsertedCounts(es: seq<Entry>, s: nat, d: nat, e: Entry)
    requires s <= d <= |es| && !e.dead && (d < |es| ==> es[d].dead)
    ensures Used(Inserted(es, s, d, e)) <= Used(es) + |e.key| + 1
    ensures d == |es| ==> Used(Inserted(es, s, d, e)) == Used(es) + |e.key| + 1
    ensures LiveCount(Inserted(es, s, d, e)) == LiveCount(es) + 1
  {
    Apart(es, s, d);
    UsedOne(e);
    if d < |es| {
      UsedParts(es[..s], [e], es[s..d], es[d + 1..]);
      UsedParts(es[..s], es[s..d], [es[d]], es[d + 1..]);
      UsedOne(es[d]);
    } else {
      UsedParts(es[..s], [e], es[s..d], []);
      UsedConcat(es[..s], es[s..d]);
      assert es[..s] + es[s..d] + es[d..] == es[..s] + es[s..d];
    }
  }

  /** The insertion adds one binding and changes no other. */
  lemma InsertedBinds(es: seq<Entry>, s: nat, d: nat, e: Entry, key: Key, id: nat)
    requires s <= d <= |es| && !e.dead && (d < |es| ==> es[d].dead)
    ensures Binds(Inserted(es, s, d, e), key, id) <==> Binds(es, key, id) || (key == e.key && id == e.id)
  {
    var r := Inserted(es, s, d, e);
    if Binds(es, key, id) {
      var i :| 0 <= i < |es| && es[i].key == key && es[i].id == id && !es[i].dead;
      assert r[NewPlace(s, d, i)] == es[i];
    }
    if key == e.key && id == e.id { assert r[s] == e; }
    if Binds(r, key, id) {
      var i :| 0 <= i < |r| && r[i].key == key && r[i].id == id && !r[i].dead;
      if i < s || i > d { assert es[i] == r[i]; } else if i > s { assert es[i - 1] == r[i]; }
    }
  }

  /** The slot loops of `bt_insertkey`: find a dead slot short of the fence, or add one; move the slots between up by
      one; fill the gap. */
  method ShiftIn(slots: seq<Slot>, s: nat, x: Slot) returns (r: seq<Slot>, d: nat)
    requires s < |slots|
    ensures s <= d <= |slots| && d != |slots| - 1 && (d < |slots| ==> slots[d].dead)
    ensures r == Inserted(slots, s, d, x)
  {
    var idx := s;
    while idx < |slots| - 1 && !slots[idx].dead
      invariant s <= idx <= |slots| - 1
    {
      idx := idx + 1;
    }
    r := slots;
    if idx == |slots| - 1 {
      r := r + [x];
      idx := idx + 1;
    }
    d := idx;
    while idx > s
      invariant s <= idx <= d && |r| == (if d < |slots| then |slots| else |slots| + 1)
      invariant forall i :: 0 <= i < |r| && (i < idx || i > d) ==> r[i] == if i < |slots| then slots[i] else x
      invariant forall i :: idx < i <= d && i < |r| ==> r[i] == slots[i - 1]
    {
      r := r[idx := r[idx - 1]];
      idx := idx - 1;
    }
    r := r[s := x];
  }

  lemma InsertedLive(es: seq<Entry>, s: nat, d: nat, e: Entry)
    requires Gap(es, s, d) && s < |es| && !e.dead
    ensures LiveButFence(es) ==> LiveButFence(Inserted(es, s, d, e))
    ensures var r := Inserted(es, s, d, e); |r| > 0 && r[|r| - 1] == es[|es| - 1]
  {
  }

  lemma InsertedValid(es: seq<Entry>, s: nat, d: nat, e: Entry, es': seq<Entry>)
    requires Sorted(es) && Gap(es, s, d) && s < |es| && !e.dead && es' == Inserted(es, s, d, e)
    requires Less(e.key, es[s].key) && (s > 0 ==> Less(es[s - 1].key, e.key))
    ensures Sorted(es') && Used(es') <= Used(es) + |e.key| + 1 && LiveCount(es') == LiveCount(es) + 1
    ensures LiveButFence(es) ==> LiveButFence(es') && Used(es') == Used(es) + |e.key| + 1
    ensures 0 < |es'| <= |es| + 1
  {
    InsertedSorted(es, s, d, e);
    InsertedCounts(es, s, d, e);
    InsertedLive(es, s, d, e);
  }

  // ----- where a key goes after cleaning

  lemma {:induction false} KeptFrom(es: seq<Entry>, n: nat, j: nat)
    requires n <= |es| && j < |Kept(es, n)|
    ensures exists i :: 0 <= i < n && Kept(es, n)[j] == es[i]
  {
    KeptSnoc(es, n - 1);
    if j < |Kept(es, n - 1)| {
      KeptFrom(es, n - 1, j);
      var i :| 0 <= i < n - 1 && Kept(es, n - 1)[j] == es[i];
    } else {
      assert Kept(es, n)[j] == es[n - 1];
    }
  }

  /** What is kept of the first entries comes first, and then something from later on. */
  lemma {:induction false} KeptThen(es: seq<Entry>, n: nat)
    requires n < |es|
    ensures Kept(es, n) <= Kept(es, |es|) && |Kept(es, n)| < |Kept(es, |es|)|
    ensures exists i :: n <= i < |es| && Kept(es, |es|)[|Kept(es, n)|] == es[i]
    decreases |es| - n
  {
    KeptSnoc(es, n);
    if n + 1 == |es| {
      assert Kept(es, |es|)[|Kept(es, n)|] == es[n];
    } else {
      KeptThen(es, n + 1);
      if es[n].dead {
        var i :| n + 1 <= i < |es| && Kept(es, |es|)[|Kept(es, n + 1)|] == es[i];
      } else {
        assert Kept(es, |es|)[|Kept(es, n)|] == es[n];
      }
    }
  }

  /** `key` belongs just before slot `slot`. */
  ghost predicate GoesBefore(es: seq<Entry>, slot: nat, key: Key) {
    1 <= slot <= |es| && Less(key, es[slot - 1].key) && (slot > 1 ==> Less(es[slot - 2].key, key))
  }

  lemma FollowsOrder(es: seq<Entry>, slot: nat, es': seq<Entry>, r: nat, key: Key)
    requires Sorted(es) && Follows(es, slot, es', r) && GoesBefore(es, slot, key)
    ensures GoesBefore(es', r, key)
  {
    if !(es' == es && r == slot) {
      var n := slot - 1;
      KeptThen(es, n);
      var i :| n <= i < |es| && es'[r - 1] == es[i];
      assert InOrder(es, n, i);
      if n < i { LessTransitive(key, es[n].key, es[i].key); }
      if r > 1 {
        KeptFrom(es, n, r - 2);
        var j :| 0 <= j < n && Kept(es, n)[r - 2] == es[j];
        assert InOrder(es, j, n - 1);
        if j < n - 1 { LessTransitive(es[j].key, es[n - 1].key, key); }
      }
    }
  }

  /** A key that belongs between two keys is not there yet. */
  lemma KeyAbsent(es: seq<Entry>, slot: nat, key: Key, i: nat)
    requires Sorted(es) && GoesBefore(es, slot, key) && i < |es|
    ensures es[i].key != key
  {
    assert InOrder(es, slot - 1, i) && InOrder(es, i, slot - 2);
    LessTotal(key, es[i].key);
    if i > slot - 1 { LessTransitive(key, es[slot - 1].key, es[i].key); }
    if i < slot - 2 { LessTransitive(es[i].key, es[slot - 2].key, key); }
  }

  // ----- bindings

  /** `es'` binds `key` to `id` and every other key as `es` does. */
  /** Some slot, live or dead, has the key. */
  ghost predicate IsThere(es: seq<Entry>, key: Key) { exists i :: 0 <= i < |es| && es[i].key == key }

  /** A key that differs from that of the first slot not below it is nowhere on the page. */
  lemma NotThere(es: seq<Entry>, slot: nat, key: Key)
    requires Sorted(es) && 1 <= slot <= |es| && !Less(es[slot - 1].key, key) && es[slot - 1].key != key
    requires slot > 1 ==> Less(es[slot - 2].key, key)
    ensures !IsThere(es, key)
  {
    LessTotal(es[slot - 1].key, key);
    LessTotal(key, key);
    forall i | 0 <= i < |es| ensures es[i].key != key {
      assert InOrder(es, i, slot - 2) && InOrder(es, slot - 1, i);
      if i < slot - 2 { LessTransitive(es[i].key, es[slot - 2].key, key); }
    }
  }

  ghost predicate Rebinds(es: seq<Entry>, es': seq<Entry>, key: Key, id: nat) {
    forall k, i :: Binds(es', k, i) <==> if k == key then i == id else Binds(es, k, i)
  }

  lemma InsertedRebinds(es: seq<Entry>, slot: nat, d: nat, e: Entry)
    requires Sorted(es) && GoesBefore(es, slot, e.key) && Gap(es, slot - 1, d) && !e.dead
    ensures Rebinds(es, Inserted(es, slot - 1, d, e), e.key, e.id)
  {
    var es' := Inserted(es, slot - 1, d, e);
    forall k, i ensures Binds(es', k, i) <==> if k == e.key then i == e.id else Binds(es, k, i) {
      InsertedBinds(es, slot - 1, d, e, k, i);
      if k == e.key && Binds(es, k, i) {
        var j :| 0 <= j < |es| && es[j].key == k && es[j].id == i && !es[j].dead;
        KeyAbsent(es, slot, e.key, j);
      }
    }
  }

  /** On the last page of a level `bt_findslot` sends a key above the stopper key to the last slot, so that inserting
      a new key keeps the page sorted exactly when the key is below the stopper. */
  lemma SortedIffBelowStopper(es: seq<Entry>, slot: nat, d: nat, e: Entry)
    requires Sorted(es) && 1 <= slot <= |es| && Gap(es, slot - 1, d) && es[slot - 1].key != e.key
    requires AllBelow(es, slot - 1, e.key) && (slot < |es| ==> NotBelow(es, slot - 1, e.key))
    ensures Sorted(Inserted(es, slot - 1, d, e)) <==> Less(e.key, es[|es| - 1].key)
  {
    var r := Inserted(es, slot - 1, d, e);
    assert InOrder(r, slot - 1, |r| - 1) ==> Less(e.key, es[|es| - 1].key);
    LessTotal(e.key, es[slot - 1].key);
    if Less(e.key, es[|es| - 1].key) {
      assert slot > 1 ==> IsLess(es, slot - 2, e.key);
      InsertedSorted(es, slot - 1, d, e);
    }
  }

  /** Three bytes 0xff are above the stopper key of two: inserting them on a page with the stopper alone breaks the
      order. */
  lemma AboveStopper(id: nat, tod: nat)
    ensures var stopper, e := Entry([255, 255], false, 0, 0), Entry([255, 255, 255], false, id, tod);
      && Sorted([stopper]) && AllBelow([stopper], 0, e.key) && Gap([stopper], 0, 1)
      && !Sorted(Inserted([stopper], 0, 1, e))
  {
    var stopper, e := Entry([255, 255], false, 0, 0), Entry([255, 255, 255], false, id, tod);
    forall i, j ensures InOrder([stopper], i, j) {}
    LongerIsAbove();
    LessTotal(stopper.key, e.key);
    SortedIffBelowStopper([stopper], 1, 1, e);
  }

  lemma LongerIsAbove()
    ensures Less([255, 255], [255, 255, 255])
  {
    var a: Key, b: Key := [255, 255], [255, 255, 255];
    assert a[1..] == [255] && b[1..] == [255, 255] && a[1..][1..] == [] && b[1..][1..] == [255];
    assert Less(a[1..][1..], b[1..][1..]) && Less(a[1..], b[1..]);
  }

  /** Bringing a present key up to date. */
  lemma UpdatedRebinds(es: seq<Entry>, s: nat, e: Entry)
    requires Sorted(es) && s < |es| && es[s].key == e.key && !e.dead
    ensures Sorted(es[s := e]) && Rebinds(es, es[s := e], e.key, e.id)
  {
    var es' := es[s := e];
    forall i, j ensures InOrder(es', i, j) { assert InOrder(es, i, j); }
    forall k, i ensures Binds(es', k, i) <==> if k == e.key then i == e.id else Binds(es, k, i) {
      if k == e.key {
        assert es'[s].key == k && !es'[s].dead;
        if Binds(es', k, i) {
          var j :| 0 <= j < |es'| && es'[j].key == k && es'[j].id == i && !es'[j].dead;
          assert InOrder(es', j, s) && InOrder(es', s, j);
          LessTotal(k, k);
        }
      } else {
        if Binds(es, k, i) {
          var j :| 0 <= j < |es| && es[j].key == k && es[j].id == i && !es[j].dead;
          assert es'[j] == es[j];
        }
        if Binds(es', k, i) {
          var j :| 0 <= j < |es'| && es'[j].key == k && es'[j].id == i && !es'[j].dead;
          assert es[j] == es'[j];
        }
      }
    }
  }

  lemma UpdatedCounts(es: seq<Entry>, s: nat, e: Entry)
    requires s < |es| && es[s].key == e.key && !e.dead
    ensures Used(es[s := e]) == Used(es)
    ensures LiveCount(es[s := e]) == LiveCount(es) + if es[s].dead then 1 else 0
    ensures LiveButFence(es) ==> LiveButFence(es[s := e])
  {
    Apart(es, s, s);
    Apart(es[s := e], s, s);
    assert es[s := e][..s] == es[..s] && es[s := e][s + 1..] == es[s + 1..];
    UsedParts(es[..s], es[s..s], [es[s]], es[s + 1..]);
    UsedParts(es[..s], es[s..s], [e], es[s + 1..]);
    UsedOne(e);
    UsedOne(es[s]);
  }

  lemma NotBelowLast(es: seq<Entry>, key: Key)
    requires |es| > 0 && !Less(es[|es| - 1].key, key)
    ensures !AllBelow(es, |es|, key)
  {
    assert !IsLess(es, |es| - 1, key);
  }

  // ----- halves of a page

  lemma RangeRoom(es: seq<Entry>, from: nat, n: nat)
    requires from <= n < |es|
    ensures Used(es[from..n]) + |es[n].key| + 1 <= Used(es)
  {
    UsedPrefix(es, n);
    UsedConcat(es[..from], es[from..n]);
    assert es[..n] == es[..from] + es[from..n];
  }

  lemma SplitSorted(es: seq<Entry>, m: nat)
    requires Sorted(es) && m <= |es|
    ensures Sorted(es[..m]) && Sorted(es[m..])
  {
    var a, b := es[..m], es[m..];
    forall i, j ensures InOrder(a, i, j) { assert InOrder(es, i, j); }
    forall i, j ensures InOrder(b, i, j) { assert InOrder(es, i + m, j + m); }
  }

  lemma SplitCounts(es: seq<Entry>, m: nat)
    requires m <= |es|
    ensures es[..m] + es[m..] == es && Used(es[..m]) + Used(es[m..]) == Used(es)
  {
    UsedConcat(es[..m], es[m..]);
    assert es[..m] + es[m..] == es;
  }

  /** A stretch of entries that can make a page of its own. */
  ghost predicate HalfOk(es: seq<Entry>, from: nat, to: nat) {
    && from <= to <= |es| && Sorted(es[from..to]) && LiveButFence(es[from..to]) && Used(es[from..to]) <= Used(es)
  }

  lemma HalvesOk(es: seq<Entry>, m: nat)
    requires Sorted(es) && m < |es| && LiveButFence(es)
    ensures HalfOk(es, 0, m) && HalfOk(es, m, |es|) && es[0..m] + es[m..|es|] == es
    ensures forall i :: 0 <= i < m ==> !es[i].dead
  {
    assert es[0..m] == es[..m] && es[m..|es|] == es[m..];
    SplitSorted(es, m);
    SplitCounts(es, m);
  }

  // ----- a page to be split has two keys, if pages are large enough

  /** Cleaning a page of `size` bytes with entries `es` finds no room for a key of `amt` bytes; the slots are still
      counted as before the cleaning. */
  ghost predicate StaysFull(es: seq<Entry>, size: nat, amt: nat) {
    |es| > 0 && size < Used(Kept(es, |es|)) + (|es| + 1) * SLOT + HEADER + amt + 1
  }

  ghost predicate FitsIn(es: seq<Entry>, size: nat) { HEADER + SLOT * |es| + Used(es) <= size }

  /** Only the first of several keys can be empty. */
  lemma {:induction false} UsedAtLeast(es: seq<Entry>)
    requires Sorted(es) && |es| > 0
    ensures Used(es) >= 2 * |es| - 2 + |es[|es| - 1].key| && Used(es) >= 2 * |es| - 1
  {
    var n := |es| - 1;
    if n > 0 {
      var front := es[..n];
      forall i, j ensures InOrder(front, i, j) { assert InOrder(es, i, j); }
      UsedAtLeast(front);
      assert InOrder(es, 0, n);
    }
  }

  lemma UsedSingle(es: seq<Entry>)
    ensures |es| == 1 ==> Used(es) == |es[0].key| + 1
  {
    if |es| == 1 { UsedOne(es[0]); assert es == [es[0]]; }
  }

  /** From 4096 bytes on, a page that stays full after cleaning keeps at least two keys. */
  lemma NeedsTwo(es: seq<Entry>, size: nat, amt: nat)
    requires Sorted(es) && KeysFit(es) && FitsIn(es, size)
    ensures size >= 4096 && amt < 256 && StaysFull(es, size, amt) ==> |Kept(es, |es|)| >= 2
  {
    if |es| > 0 {
      KeptValid(es);
      UsedAtLeast(es);
      UsedSingle(Kept(es, |es|));
    }
  }

  lemma {:induction false} KeptAll(es: seq<Entry>, n: nat)
    requires LiveButFence(es) && n <= |es|
    ensures Kept(es, n) == es[..n]
  {
    if n > 0 {
      KeptAll(es, n - 1);
      assert es[..n] == es[..n - 1] + [es[n - 1]];
    }
  }

  // ----- and only then

  /** `n` one-byte keys, all dead but the fence. */
  ghost function DeadKeys(n: nat): (es: seq<Entry>)
    requires n <= 256
    ensures |es| == n && forall i :: 0 <= i < n ==> es[i] == Entry([i], i < n - 1, 0, 0)
  {
    seq(n, i requires 0 <= i < n => Entry([i], i < n - 1, 0, 0))
  }

  lemma {:induction false} DeadKeysUsed(es: seq<Entry>)
    requires forall i :: 0 <= i < |es| ==> |es[i].key| == 1
    ensures Used(es) == 2 * |es|
  {
    if es != [] { DeadKeysUsed(es[..|es| - 1]); }
  }

  lemma {:induction false} NoneKept(es: seq<Entry>, n: nat)
    requires n < |es| && forall i :: 0 <= i < n ==> es[i].dead
    ensures Kept(es, n) == []
  {
    if n > 0 { NoneKept(es, n - 1); }
  }

  /** Up to 2048 bytes a page of deleted short keys can stay full and keep the fence alone, for the slots of the deleted
      keys are still counted: there is nothing to split. */
  lemma MayKeepOne(size: nat) returns (es: seq<Entry>)
    requires 512 <= size <= 2048
    ensures Sorted(es) && KeysFit(es) && FitsIn(es, size) && StaysFull(es, size, 255) && |Kept(es, |es|)| == 1
  {
    var n := (size - 20) / 18;
    es := DeadKeys(n);
    forall i, j ensures InOrder(es, i, j) {}
    DeadKeysUsed(es);
    NoneKept(es, n - 1);
    KeptSnoc(es, n - 1);
    UsedSingle(Kept(es, n));
  }

  /** Every page of `size` bytes that must be split after cleaning has two keys to split. */
  ghost predicate AlwaysSplittable(size: nat) {
    forall es, amt :: Sorted(es) && KeysFit(es) && FitsIn(es, size) && amt < 256 && StaysFull(es, size, amt) ==>
      |Kept(es, |es|)| >= 2
  }

  /** Page sizes are powers of two from 512 on: 4096 is the least that is safe. */
  lemma SplittableIffLarge(size: nat)
    requires 512 <= size <= 2048 || size >= 4096
    ensures AlwaysSplittable(size) <==> size >= 4096
  {
    if size >= 4096 {
      forall es, amt | Sorted(es) && KeysFit(es) && FitsIn(es, size) && amt < 256 && StaysFull(es, size, amt)
        ensures |Kept(es, |es|)| >= 2
      {
        NeedsTwo(es, size, amt);
      }
    } else {
      var es := MayKeepOne(size);
    }
  }
}
