/** The block index of an implicit producer in moody/concurrentqueue.h: a ring of (base, block) entries that maps
    an element index to its block (`insert_block_index_entry`, `rewind_block_index_tail`,
    `get_block_index_index_for_index`, `new_block_index`).

    Element indices are 64-bit words that wrap; block number `n` starts at element `32 * n`.  Rings have a
    power-of-two capacity, so masking with `capacity - 1` is the remainder by `capacity`. */
module ImplicitBlockIndex {
  import opened Prelude
  import opened RingSlots

  type Block = nat

  const BLOCK_SIZE: int := 32
  const INITIAL: int := 32
  const WORD: int := 0x1_0000_0000_0000_0000
  /** The number of block bases in one turn of the 64-bit index. */
  const BASES: int := 0x800_0000_0000_0000
  const INVALID_BLOCK_BASE: int := 1

  /** The wrapped index of the first element of block `n` (see `BaseWraps`). */
  function Base(n: int): (b: int)
    ensures 0 <= b < WORD && b != INVALID_BLOCK_BASE
  {
    BLOCK_SIZE * (n % BASES)
  }

  /** A ring capacity: a power of two, at least the initial size and at most the number of bases. */
  ghost predicate Capacity(cap: int) {
    exists e: nat :: e <= 54 && cap == INITIAL * Pow2(e)
  }

  // ----- wrapped division

  lemma ModOfMultiple(x: int, m: int, k: int)
    requires m > 0 && k > 0
    ensures x % (m * k) % m == x % m
  {
    var q, r := x / (m * k), x % (m * k);
    assert x == q * (m * k) + r;
    assert x == m * (q * k) + r by { assert q * (m * k) == m * (q * k); }
    AddMultiple(r, m, q * k);
  }

  lemma CapacityDivides(cap: int) returns (k: int)
    requires Capacity(cap)
    ensures cap > 0 && k > 0 && cap * k == BASES
  {
    var e: nat :| e <= 54 && cap == INITIAL * Pow2(e);
    FiftyFourMore(0);
    PowSplits(e, 54);
    k := Pow2(54 - e);
    Associate(INITIAL, Pow2(e), k);
  }

  lemma Associate(a: int, b: int, c: int)
    ensures a * b * c == a * (b * c)
  {
  }

  lemma TenMore(e: nat)
    ensures Pow2(e + 10) == 1024 * Pow2(e)
  {
    assert Pow2(e + 10) == 4 * Pow2(e + 8) && Pow2(e + 8) == 4 * Pow2(e + 6);
    assert Pow2(e + 6) == 4 * Pow2(e + 4) && Pow2(e + 4) == 4 * Pow2(e + 2) && Pow2(e + 2) == 4 * Pow2(e);
  }

  lemma FiftyMore(e: nat)
    ensures Pow2(e + 50) == 0x4_0000_0000_0000 * Pow2(e)
  {
    TenMore(e);
    TenMore(e + 10);
    TenMore(e + 20);
    TenMore(e + 30);
    TenMore(e + 40);
  }

  lemma FiftyFourMore(e: nat)
    ensures INITIAL * Pow2(e + 54) == BASES * Pow2(e)
  {
    FiftyMore(e + 4);
    assert Pow2(e + 4) == 4 * Pow2(e + 2) && Pow2(e + 2) == 4 * Pow2(e);
  }

  /** Subtracting wrapped bases and dividing without sign gives the block distance, modulo the number of bases. */
  lemma WrappedDistance(m: int, n: int)
    ensures (Base(n) - Base(m)) % WORD / BLOCK_SIZE == (n - m) % BASES
  {
    var x, y := n % BASES, m % BASES;
    assert n - m == BASES * (n / BASES - m / BASES) + (x - y);
    AddMultiple(x - y, BASES, n / BASES - m / BASES);
  }

  lemma BaseWraps(n: int)
    ensures Base(n) == BLOCK_SIZE * n % WORD
  {
    assert BLOCK_SIZE * n == WORD * (n / BASES) + Base(n);
  }

  lemma NextBase(n: int)
    ensures (Base(n) + BLOCK_SIZE) % WORD == Base(n + 1) && Base(n + 1) % BLOCK_SIZE == 0
  {
  }

  /** The slot arithmetic of a lookup: `(index - tailBase) / BLOCK_SIZE` with unsigned operands, added to the tail. */
  function Find(cap: int, tail: int, tailBase: int, base: int): (slot: int)
    requires cap > 0
    ensures 0 <= slot < cap
  {
    var offset := (base - tailBase) % WORD / BLOCK_SIZE;
    (tail + offset) % cap
  }

  /** Starting from any slot and the base found there, the unsigned offset leads to the slot of block `n`,
      forwards or backwards, across the wrap of the ring and of the index word. */
  lemma OffsetLeadsToSlot(cap: int, shift: int, m: int, n: int)
    requires Capacity(cap)
    ensures cap > 0 && Find(cap, SlotOf(cap, shift, m), Base(m), Base(n)) == SlotOf(cap, shift, n)
  {
    var k := CapacityDivides(cap);
    WrappedDistance(m, n);
    ModOfMultiple(n - m, cap, k);
    AddMod((n - m) % BASES, m + shift, cap);
    AddMod(n - m, m + shift, cap);
  }

  // ----- the ring

  lemma DoubleCapacity(cap: int)
    requires Capacity(cap) && 2 * cap <= BASES
    ensures Capacity(2 * cap)
  {
    var e: nat :| e <= 54 && cap == INITIAL * Pow2(e);
    if e == 54 { FiftyFourMore(e - 54); }
    assert 2 * cap == INITIAL * Pow2(e + 1);
  }

  /** The block numbers from `lo` on, `n` of them. */
  ghost function Blocks(lo: int, n: nat): (r: set<int>)
    ensures forall x :: x in r <==> lo <= x < lo + n
  {
    if n == 0 then {} else Blocks(lo, n - 1) + {lo + n - 1}
  }

  lemma WithoutNext(live: map<int, Block>, lo: int, n: nat)
    ensures live - Blocks(lo, n) - {lo + n} == live - Blocks(lo, n + 1)
  {
  }

  /** `currentTailIndex += BLOCK_SIZE` on wrapped indices. */
  method BaseAfter(base: int, ghost n: int) returns (r: int)
    requires base == Base(n)
    ensures r == Base(n + 1) && r % BLOCK_SIZE == 0
  {
    NextBase(n);
    r := (base + BLOCK_SIZE) % WORD;
  }

  class Entry {
    var key: int
    var value: Option<Block>

    /** The default constructor leaves `value` as it finds it. */
    constructor (junk: Option<Block>)
      ensures key == INVALID_BLOCK_BASE
    {
      key := INVALID_BLOCK_BASE;
      value := junk;
    }
  }

  class BlockIndex {
    /** `blockIndex`: the current header's table, empty when the first allocation failed. */
    var index: array<Entry>
    var tail: nat
    var nextCapacity: int

    /** Block `next` will be inserted next; blocks `lo..hi` have their base in the ring; `live` blocks have been
        published and not released; `pending` says block `next - 1` has been inserted and not yet published. */
    ghost var shift: int
    ghost var lo: int
    ghost var next: int
    ghost var hi: int
    ghost var live: map<int, Block>
    ghost var pending: bool

    ghost function Slot(n: int): int
      requires index.Length > 0
      reads this
    {
      SlotOf(index.Length, shift, n)
    }

    ghost predicate Shape()
      reads this, index
    {
      && Capacity(index.Length) && nextCapacity == 2 * index.Length
      && (forall i, j :: 0 <= i < j < index.Length ==> index[i] != index[j])
      && tail == Slot(next - 1)
      && lo <= next <= hi <= lo + index.Length
      && (pending ==> lo < next)
      && (forall n :: n in live ==> lo <= n < hi && !(pending && n == next - 1))
    }

    ghost predicate EntryOk(n: int)
      requires index.Length > 0
      reads this, index, index[..]
    {
      var e := index[Slot(n)];
      && (lo <= n < hi ==> e.key == Base(n))
      && (n in live ==> e.value == Some(live[n]))
      && (lo <= n < hi && n !in live && !(pending && n == next - 1) ==> e.value == None)
      && (hi - index.Length <= n < lo ==> e.key == INVALID_BLOCK_BASE)
    }

    ghost predicate Valid()
      reads this, index, index[..]
    {
      if index.Length == 0 then live == map[] && lo == next == hi == 0 && !pending
      else Shape() && forall n :: hi - index.Length <= n < hi ==> EntryOk(n)
    }

    /** No block from `next` on is live. */
    ghost predicate Settled()
      reads this
    {
      !pending && forall n :: n in live ==> n < next
    }

    /** `get_block_index_index_for_index`, for an element of block `n`. */
    method Lookup(i: int, ghost n: int) returns (slot: nat)
      requires Valid() && lo <= n < hi && lo < next && i - i % BLOCK_SIZE == Base(n)
      ensures index.Length > 0 && slot < index.Length && slot == Slot(n)
      ensures index[slot].key == Base(n)
      ensures n in live ==> index[slot].value == Some(live[n])
    {
      var base := i - i % BLOCK_SIZE;
      assert EntryOk(next - 1) && EntryOk(n);
      var tailBase := index[tail].key;
      assert tailBase != INVALID_BLOCK_BASE;
      OffsetLeadsToSlot(index.Length, shift, next - 1, n);
      slot := Find(index.Length, tail, tailBase, base);
    }

    /** `new_block_index` for the first header. */
    constructor (mallocOk: bool)
      ensures Valid() && Settled() && next == 0 && live == map[]
      ensures index.Length == if mallocOk then INITIAL else 0
    {
      var count := if mallocOk then INITIAL else 0;
      var fill := new Entry(None);
      var table := new Entry[count](_ => fill);
      index := table;
      tail := INITIAL - 1;
      nextCapacity := if mallocOk then 2 * INITIAL else INITIAL;
      shift, lo, next, hi, live, pending := 0, 0, 0, 0, map[], false;
      new;
      Fill(table, 0);
      assert Pow2(0) == 1;
    }

    /** The new entries of a header, from position `from` on. */
    static method Fill(table: array<Entry>, from: nat)
      requires from <= table.Length
      modifies table
      ensures forall i :: 0 <= i < from ==> table[i] == old(table[i])
      ensures forall i :: from <= i < table.Length ==> fresh(table[i]) && table[i].key == INVALID_BLOCK_BASE
      ensures forall i, j :: from <= i < j < table.Length ==> table[i] != table[j]
    {
      var i := from;
      while i != table.Length
        invariant from <= i <= table.Length
        invariant forall k :: 0 <= k < from ==> table[k] == old(table[k])
        invariant forall k :: from <= k < i ==> fresh(table[k]) && table[k].key == INVALID_BLOCK_BASE
        invariant forall j, k :: from <= j < k < i ==> table[j] != table[k]
      {
        var junk: Option<Block> := *;
        var e := new Entry(junk);
        table[i] := e;
        i := i + 1;
      }
    }

    /** The copy loop of `new_block_index`: the ring is unrolled from the entry after `prevTail` to `prevTail`. */
    static method Unroll(prev: array<Entry>, prevTail: nat, table: array<Entry>, ghost shift: int, ghost next: int)
      requires 0 < prev.Length <= table.Length && prev != table && prevTail == SlotOf(prev.Length, shift, next - 1)
      modifies table
      ensures forall j :: 0 <= j < prev.Length ==> table[j] == prev[SlotOf(prev.Length, shift, next + j)]
    {
      var cap := prev.Length;
      var prevPos, i := prevTail, 0;
      while true
        invariant 0 <= i < cap && prevPos == SlotOf(cap, shift, next - 1 + i)
        invariant forall j :: 0 <= j < i ==> table[j] == prev[SlotOf(cap, shift, next + j)]
        decreases cap - i
      {
        prevPos := Advance(cap, prevPos, shift, next - 1 + i);
        table[i] := prev[prevPos];
        i := i + 1;
        if prevPos == prevTail { break; }
        SlotAgain(cap, shift, next - 1 + cap);
      }
      if i < cap { SlotsDiffer(cap, shift, next - 1, next - 1 + i); }
    }

    /** The table of the new header: the old entries, oldest first, then fresh ones. */
    static method Doubled(prev: array<Entry>, prevTail: nat, size: nat, ghost shift: int, ghost next: int)
      returns (table: array<Entry>)
      requires 0 < prev.Length <= size && prevTail == SlotOf(prev.Length, shift, next - 1)
      requires forall i, j :: 0 <= i < j < prev.Length ==> prev[i] != prev[j]
      ensures fresh(table) && table.Length == size
      ensures forall j :: 0 <= j < prev.Length ==> table[j] == prev[SlotOf(prev.Length, shift, next + j)]
      ensures forall j :: prev.Length <= j < size ==> fresh(table[j]) && table[j].key == INVALID_BLOCK_BASE
      ensures forall i, j :: 0 <= i < j < size ==> table[i] != table[j]
    {
      var cap, any := prev.Length, prev[0];
      table := new Entry[size](_ => any);
      Unroll(prev, prevTail, table, shift, next);
      Fill(table, cap);
      forall i, j | 0 <= i < j < cap ensures table[i] != table[j] {
        SlotsDiffer(cap, shift, next + i, next + j);
      }
    }

    /** `new_block_index` with a previous header: a table twice as large, the old entries first and oldest first. */
    method Grow()
      requires Valid() && Settled() && index.Length > 0 && next == hi && nextCapacity <= BASES
      modifies this
      ensures Valid() && Settled() && index.Length == 2 * old(index.Length) && fresh(index)
      ensures next == old(next) && hi == old(hi) && lo == old(lo) && live == old(live)
      ensures forall i :: 0 <= i < index.Length ==> fresh(index[i]) || index[i] in old(index[..])
    {
      var prev, cap := index, index.Length;
      ghost var was := shift;
      index := Doubled(prev, tail, nextCapacity, shift, next);
      tail := (cap - 1) % nextCapacity;
      nextCapacity := 2 * nextCapacity;
      shift := cap - next;
      DoubleCapacity(cap);
      UnrolledSlot(cap, next, next - 1);
      forall n | hi - 2 * cap <= n < hi ensures EntryOk(n) {
        UnrolledSlot(cap, next, n);
        if n >= hi - cap {
          SlotAgain(cap, was, n + cap);
          assert index[n + cap - next] == prev[SlotOf(cap, was, n)];
          assert old(EntryOk(n));
        }
      }
    }

    /** The entry behind the tail is free to take, unless the ring is full and its oldest block is still live. */
    ghost predicate Full()
      requires index.Length > 0
      reads this
    {
      next == hi && hi - index.Length == lo && lo in live
    }

    /** Store the key and move the tail: the common end of both paths through `insert_block_index_entry`. */
    method Claim(start: int) returns (entry: Entry)
      requires Valid() && Settled() && index.Length > 0 && start == Base(next) && !Full()
      modifies this, index[..]
      ensures Valid() && pending && index == old(index) && index[..] == old(index[..]) && entry == index[tail]
      ensures next == old(next) + 1 && live == old(live)
      ensures lo >= old(lo) && hi >= old(hi)
    {
      ghost var cap := index.Length;
      var newTail := (tail + 1) % index.Length;
      NextSlot(cap, shift, next - 1);
      SlotAgain(cap, shift, next);
      entry := index[newTail];
      entry.key := start;
      tail := newTail;
      ghost var n0 := next;
      pending, next := true, next + 1;
      if n0 == hi {
        hi := hi + 1;
        if hi - cap > lo { lo := lo + 1; }
      }
      Claimed(n0);
    }

    /** The entries after the key of block `n0` has been stored. */
    twostate lemma Claimed(n0: int)
      requires index == old(index) && index[..] == old(index[..]) && shift == old(shift) && live == old(live)
      requires old(Valid()) && old(Settled()) && index.Length > 0 && !old(Full()) && n0 == old(next)
      requires pending && next == n0 + 1 && hi == old(hi) + (if n0 == old(hi) then 1 else 0)
      requires lo == old(lo) + (if n0 == old(hi) && hi - index.Length > old(lo) then 1 else 0)
      requires index[Slot(n0)].key == Base(n0)
      requires forall i :: 0 <= i < index.Length && i != Slot(n0) ==> index[i].key == old(index[i].key)
      requires forall i :: 0 <= i < index.Length ==> index[i].value == old(index[i].value)
      ensures forall n :: hi - index.Length <= n < hi ==> EntryOk(n)
    {
      forall n | hi - index.Length <= n < hi ensures EntryOk(n) {
        if n != n0 {
          assert old(EntryOk(n));
          if n < n0 { SlotsDiffer(index.Length, shift, n, n0); } else { SlotsDiffer(index.Length, shift, n0, n); }
        }
      }
    }

    /** What the test on the entry after the tail finds out. */
    lemma FreeIffNotFull()
      requires Valid() && Settled() && index.Length > 0
      ensures (tail + 1) % index.Length == Slot(next)
      ensures var e := index[Slot(next)]; (e.key == INVALID_BLOCK_BASE || e.value == None) <==> !Full()
    {
      var cap := index.Length;
      NextSlot(cap, shift, next - 1);
      if next < hi {
        assert EntryOk(next);
      } else {
        SlotAgain(cap, shift, next);
        assert EntryOk(hi - cap);
      }
    }

    /** `insert_block_index_entry`: fails exactly when there is no table, or when the ring is full of blocks of
        which the oldest is live and no larger table can be had.  No allocator has room for a table of more
        than 2^59 pointers. */
    method Insert(start: int, mayAlloc: bool, mallocOk: bool) returns (ok: bool, entry: Entry?)
      requires Valid() && Settled() && start == Base(next) && (mallocOk ==> nextCapacity <= BASES)
      modifies this, index[..]
      ensures Valid() && live == old(live)
      ensures ok <==> old(index.Length > 0 && (!Full() || (mayAlloc && mallocOk)))
      ensures ok ==> index.Length > 0 && pending && next == old(next) + 1 && entry == index[tail]
      ensures !ok ==> Settled() && next == old(next) && index == old(index) && tail == old(tail) && entry == null
      ensures index.Length == old(index.Length)
        || (old(index.Length > 0 && Full()) && index.Length == 2 * old(index.Length))
    {
      if index.Length == 0 { return false, null; }
      var newTail := (tail + 1) % index.Length;
      FreeIffNotFull();
      if index[newTail].key == INVALID_BLOCK_BASE || index[newTail].value == None {
        entry := Claim(start);
        return true, entry;
      }
      if !mayAlloc || !mallocOk { return false, null; }
      Grow();
      FreeIffNotFull();
      assert EntryOk(hi - index.Length) && index[(tail + 1) % index.Length].key == INVALID_BLOCK_BASE by {
        SlotAgain(index.Length, shift, next);
      }
      entry := Claim(start);
      return true, entry;
    }

    /** The block of the entry just inserted is published. */
    method Publish(entry: Entry, block: Block)
      requires Valid() && pending && index.Length > 0 && entry == index[tail]
      requires forall n :: n in live ==> n < next
      modifies this`live, this`pending, entry`value
      ensures Valid() && Settled() && next == old(next) && live == old(live)[old(next) - 1 := block]
    {
      assert EntryOk(next - 1);
      entry.value := Some(block);
      live, pending := live[next - 1 := block], false;
      KeepOthers(next - 1);
    }

    /** `rewind_block_index_tail`. */
    method Rewind()
      requires index.Length > 0 && tail == Slot(next - 1)
      modifies this`tail, this`next
      ensures tail == Slot(next - 1) && next == old(next) - 1
    {
      NextSlot(index.Length, shift, next - 1);
      tail := (tail - 1) % index.Length;
      next := next - 1;
    }

    /** No block could be had: `rewind_block_index_tail`, and the entry's block pointer is cleared. */
    method Cancel(entry: Entry)
      requires Valid() && pending && index.Length > 0 && entry == index[tail]
      requires forall n :: n in live ==> n < next
      modifies this`tail, this`next, this`pending, entry`value
      ensures Valid() && Settled() && next == old(next) - 1
    {
      assert EntryOk(next - 1);
      Rewind();
      entry.value := None;
      pending := false;
      KeepOthers(next);
    }

    /** A dequeuer has emptied the block: its entry is cleared and may be reused. */
    method Release(i: int, ghost n: int)
      requires Valid() && n in live && lo < next && i - i % BLOCK_SIZE == Base(n)
      modifies this`live, index[..]
      ensures Valid() && live == old(live) - {n} && index[..] == old(index[..])
    {
      var slot := Lookup(i, n);
      index[slot].value := None;
      live := live - {n};
      KeepOthers(n);
    }

    /** Changing the entry of block `m` alone leaves the entries of all other blocks of the window as they were. */
    twostate lemma KeepOthers(m: int)
      requires old(Valid()) && index.Length > 0 && index == old(index) && index[..] == old(index[..])
      requires shift == old(shift) && hi == old(hi) && lo == old(lo) && lo <= m < hi
      requires forall n :: n != m ==> (n in live <==> n in old(live)) && (n in live ==> live[n] == old(live[n]))
      requires (pending == old(pending) && next == old(next)) || (!pending && (old(pending) ==> m == old(next) - 1))
      requires forall i :: 0 <= i < index.Length && i != Slot(m) ==>
        index[i].key == old(index[i].key) && index[i].value == old(index[i].value)
      requires EntryOk(m)
      ensures forall n :: hi - index.Length <= n < hi ==> EntryOk(n)
    {
      forall n | hi - index.Length <= n < hi && n != m ensures EntryOk(n) {
        assert old(EntryOk(n));
        if n < m { SlotsDiffer(index.Length, shift, n, m); } else { SlotsDiffer(index.Length, shift, m, n); }
      }
    }

    /** The rollback of `enqueue_bulk`: the last `k` blocks are withdrawn, first one first, each looked up by its
        index while the tail already moves back over the later ones.  `before` is the base of the block before. */
    method RollBack(before: int, k: nat)
      requires before == Base(next - k - 1)
      requires Valid() && Settled() && index.Length > 0 && lo <= next - k
      requires forall n :: next - k <= n < next ==> n in live
      modifies this`tail, this`next, this`live, index[..]
      ensures Valid() && Settled() && next == old(next) - k && index[..] == old(index[..])
      ensures live == old(live) - Blocks(next, k)
    {
      ghost var first := next - k;
      var i, base := 0, before;
      while i < k
        invariant 0 <= i <= k && Valid() && !pending && next == old(next) - i && base == Base(first + i - 1)
        invariant index[..] == old(index[..])
        invariant live == old(live) - Blocks(first, i)
      {
        base := BaseAfter(base, first + i - 1);
        WithoutNext(old(live), first, i);
        Withdraw(base, first + i);
        i := i + 1;
      }
    }

    /** One turn of the rollback loop. */
    method Withdraw(base: int, ghost n: int)
      requires Valid() && !pending && index.Length > 0 && n in live && lo < next && base == Base(n)
      requires base % BLOCK_SIZE == 0
      modifies this`tail, this`next, this`live, index[..]
      ensures Valid() && !pending && next == old(next) - 1 && live == old(live) - {n} && index[..] == old(index[..])
    {
      Release(base, n);
      label Released:
      Rewind();
      forall m | hi - index.Length <= m < hi ensures EntryOk(m) {
        assert old@Released(EntryOk(m));
      }
    }
  }
}
