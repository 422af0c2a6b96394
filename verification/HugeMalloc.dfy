/** Huge objects (memory/huge_malloc.cpp): blocks of 2^b chunks, aligned to their size, kept on one free list per
    size.  A new mapping of twice the size is cut into one block of the right size and aligned pieces
    (`get_power_of_two_n_chunks`); `huge_malloc` notes the bin in the chunk table and `huge_free` reads it back.

    List operations are single steps; the mapping comes from the operating system. */
module HugeMalloc {
  import opened Prelude

  const CHUNK: nat := 0x20_0000
  const LG_CHUNK: nat := 21
  /** `log_max_chunknumber`. */
  const LISTS: nat := 27
  const FIRST_HUGE: nat := 47

  // ----- powers of two

  lemma {:induction false} PowMonotone(e: nat, f: nat)
    ensures e <= f ==> Pow2(e) <= Pow2(f)
    ensures e < f ==> 2 * Pow2(e) <= Pow2(f)
    decreases f
  {
    if e < f { PowMonotone(e, f - 1); }
  }

  /** `c` is a multiple of 2^k. */
  ghost predicate Aligned(c: int, k: nat) { exists m :: c == Times(m, Pow2(k)) }

  function Times(m: int, p: int): int { m * p }

  lemma AlignedIffMod(c: int, k: nat)
    ensures Aligned(c, k) <==> c % Pow2(k) == 0
  {
    var p := Pow2(k);
    if c % p == 0 { assert c == Times(c / p, p); }
    if Aligned(c, k) {
      var m :| c == Times(m, p);
      Remainder(c, p, m);
    }
  }

  lemma Remainder(c: int, p: int, m: int)
    requires p > 0 && c == m * p
    ensures c % p == 0
  {
    var q, r := c / p, c % p;
    assert (m - q) * p == r by { assert c == q * p + r; assert (m - q) * p == m * p - q * p; }
    assert (q - m) * p == -((m - q) * p);
    if m - q >= 1 { AtLeast(m - q, p); }
    if q - m >= 1 { AtLeast(q - m, p); }
  }

  lemma AtLeast(d: int, p: int)
    requires d >= 1 && p > 0
    ensures d * p >= p
  {
  }

  lemma AlignedLess(c: int, k: nat, j: nat)
    requires Aligned(c, k) && j <= k
    ensures Aligned(c, j)
  {
    var m :| c == Times(m, Pow2(k));
    PowSplits(j, k);
    assert m * (Pow2(k - j) * Pow2(j)) == (m * Pow2(k - j)) * Pow2(j);
    assert c == Times(m * Pow2(k - j), Pow2(j));
  }

  lemma AlignedSum(c: int, d: int, k: nat)
    requires Aligned(c, k) && Aligned(d, k)
    ensures Aligned(c + d, k) && Aligned(d - c, k)
  {
    var m :| c == Times(m, Pow2(k));
    var n :| d == Times(n, Pow2(k));
    assert c + d == Times(m + n, Pow2(k)) && d - c == Times(n - m, Pow2(k));
  }

  /** Positive multiples of 2^k are at least 2^k. */
  lemma AlignedGap(d: int, k: nat)
    requires Aligned(d, k) && d > 0
    ensures d >= Pow2(k)
  {
    var m :| d == Times(m, Pow2(k));
    if m <= 0 { NonPositive(m, Pow2(k)); } else { AtLeast(m, Pow2(k)); }
  }

  lemma NonPositive(m: int, p: int)
    requires m <= 0 && p > 0
    ensures m * p <= 0
  {
  }

  /** `__builtin_ffs(c) - 1`: the number of trailing zero bits. */
  function TrailingZeros(c: nat): (b: nat)
    requires c > 0
  {
    if c % 2 == 1 then 0 else 1 + TrailingZeros(c / 2)
  }

  lemma {:induction false} TrailingAligned(c: nat)
    requires c > 0
    ensures Aligned(c, TrailingZeros(c))
  {
    if c % 2 == 1 {
      assert c == Times(c, Pow2(0));
    } else {
      TrailingAligned(c / 2);
      var b := TrailingZeros(c / 2);
      var m :| c / 2 == Times(m, Pow2(b));
      assert c == Times(m, Pow2(b + 1));
    }
  }

  // ----- free lists through the chunk table

  function Elem(l: seq<nat>, j: int): nat { if 0 <= j < |l| then l[j] else 0 }

  function Get(info: map<nat, nat>, c: nat): nat { if c in info then info[c] else 0 }

  ghost predicate LinkAt(info: map<nat, nat>, l: seq<nat>, j: nat)
    requires j < |l|
  {
    l[j] > 0 && Get(info, l[j]) == Elem(l, j + 1)
  }

  /** The list that starts at `head` and is linked through the table is `l`. */
  ghost predicate Chain(head: nat, info: map<nat, nat>, l: seq<nat>) {
    && head == Elem(l, 0) && (forall j :: 0 <= j < |l| ==> LinkAt(info, l, j))
    && (forall i, j :: 0 <= i < j < |l| ==> l[i] != l[j])
  }

  ghost predicate Chains(free: seq<nat>, info: map<nat, nat>, lists: seq<seq<nat>>) {
    |free| == |lists| && forall i :: 0 <= i < |lists| ==> Chain(free[i], info, lists[i])
  }

  lemma ChainSame(head: nat, info: map<nat, nat>, l: seq<nat>, c: nat, v: nat)
    requires Chain(head, info, l) && c !in l
    ensures Chain(head, info[c := v], l)
  {
    var info' := info[c := v];
    forall j | 0 <= j < |l| ensures LinkAt(info', l, j) { assert LinkAt(info, l, j); }
  }

  lemma ChainPush(head: nat, info: map<nat, nat>, l: seq<nat>, c: nat)
    requires Chain(head, info, l) && c !in l && c > 0
    ensures Chain(c, info[c := head], [c] + l)
  {
    var info', l' := info[c := head], [c] + l;
    forall j | 0 <= j < |l'| ensures LinkAt(info', l', j) {
      if j > 0 { assert LinkAt(info, l, j - 1); }
    }
  }

  lemma ChainPop(head: nat, info: map<nat, nat>, l: seq<nat>)
    requires Chain(head, info, l) && head != 0
    ensures |l| > 0 && head == l[0] && Chain(Get(info, head), info, l[1..])
  {
    assert LinkAt(info, l, 0);
    var l' := l[1..];
    forall j | 0 <= j < |l'| ensures LinkAt(info, l', j) { assert LinkAt(info, l, j + 1); }
  }

  // ----- blocks

  datatype Block = Block(start: nat, lg: nat)

  ghost predicate Covers(b: Block, x: int) { b.start <= x < b.start + Pow2(b.lg) }

  /** The block is aligned to its size and every chunk in it belongs to it alone. */
  ghost predicate BlockOk(own: map<nat, Block>, b: Block) {
    b.start > 0 && Aligned(b.start, b.lg) && forall x: nat :: Covers(b, x) ==> x in own && own[x] == b
  }

  ghost function Region(c: nat, n: nat, b: Block): (m: map<nat, Block>)
    ensures forall x: nat :: x in m <==> c <= x < c + n
    ensures forall x: nat :: x in m ==> m[x] == b
  {
    if n == 0 then map[] else Region(c, n - 1, b)[c + n - 1 := b]
  }

  /** The word `bin_and_size_to_bin_and_size` stores: the bin plus one in the low seven bits. */
  function BinAndSize(bin: nat, size: nat): nat {
    var pages := (size + 4095) / 4096 % 0x1_0000_0000;
    if pages < 0x100_0000 then 1 + bin + 128 + pages * 256
    else (1 + bin + (size + CHUNK - 1) / CHUNK * 256) % 0x1_0000_0000
  }

  /** `bin_from_bin_and_size`. */
  function BinOf(word: nat): int { word % 128 - 1 }

  lemma LowBits(y: nat)
    ensures y % 0x1_0000_0000 % 128 == y % 128
  {
    var k := y / 0x1_0000_0000;
    assert y == 0x1_0000_0000 * k + y % 0x1_0000_0000;
  }

  lemma BinRoundTrip(bin: nat, size: nat)
    requires bin < 127
    ensures BinOf(BinAndSize(bin, size)) == bin
  {
    var n := (size + CHUNK - 1) / CHUNK;
    LowBits(1 + bin + n * 256);
    LowSeven(bin, n);
    LowSeven(bin, (size + 4095) / 4096 % 0x1_0000_0000);
  }

  lemma LowSeven(bin: nat, n: nat)
    requires bin < 127
    ensures (1 + bin + n * 256) % 128 == 1 + bin && (1 + bin + 128 + n * 256) % 128 == 1 + bin
  {
  }

  // ----- sizes, bins and lists

  /** `63 - __builtin_clzl(x)`. */
  function Lg(x: nat): nat
    requires x > 0
  {
    if x == 1 then 0 else 1 + Lg(x / 2)
  }

  lemma {:induction false} LgBounds(x: nat)
    requires x > 0
    ensures Pow2(Lg(x)) <= x < 2 * Pow2(Lg(x))
  {
    if x > 1 { LgBounds(x / 2); }
  }

  function Hyperceil(a: nat): nat {
    if a <= 1 then 1 else Pow2(Lg(a - 1) + 1)
  }

  /** `hyperceil` is the smallest power of two that is large enough. */
  lemma HyperceilIsLeast(a: nat) returns (m: nat)
    ensures Hyperceil(a) == Pow2(m) && a <= Pow2(m) && forall j: nat :: a <= Pow2(j) ==> m <= j
  {
    if a <= 1 {
      m := 0;
    } else {
      m := Lg(a - 1) + 1;
      LgBounds(a - 1);
      forall j: nat | a <= Pow2(j) ensures m <= j {
        if j < m { PowMonotone(j, m - 1); }
      }
    }
  }

  lemma HyperceilOfPower(k: nat)
    ensures Hyperceil(Pow2(k)) == Pow2(k)
  {
    var m := HyperceilIsLeast(Pow2(k));
    if m < k { PowMonotone(m, k); }
  }

  lemma {:induction false} TrailingOfPower(k: nat)
    ensures TrailingZeros(Pow2(k)) == k
  {
    if k > 0 { TrailingOfPower(k - 1); }
  }

  /** The number of chunks `huge_malloc` asks for. */
  function ChunksFor(size: nat): nat {
    var n := Hyperceil(size) / CHUNK;
    if n > 1 then n else 1
  }

  /** `size_2_bin` from the chunk size on. */
  function HugeBin(size: nat): int {
    if size <= CHUNK then FIRST_HUGE else FIRST_HUGE + TrailingZeros(Positive(Hyperceil(size))) - LG_CHUNK
  }

  function Positive(x: nat): (y: nat)
    ensures y >= 1
  {
    if x == 0 then 1 else x
  }

  /** `bin_2_size` for the huge bins: 2^21 at bin 47, doubling from bin to bin. */
  function HugeSize(bin: nat): nat
    requires bin >= FIRST_HUGE
  {
    Pow2(bin - FIRST_HUGE + LG_CHUNK)
  }

  /** The list `huge_free` puts a block of bin `bin` on. */
  function FreeListOf(bin: nat): nat
    requires bin >= FIRST_HUGE
  {
    TrailingZeros(Positive(Hyperceil((HugeSize(bin) + CHUNK - 1) / CHUNK)))
  }

  lemma PowChunk(k: nat)
    ensures Pow2(k + LG_CHUNK) == Pow2(k) * CHUNK
    ensures Pow2(k) * CHUNK / CHUNK == Pow2(k) && (Pow2(k) * CHUNK + CHUNK - 1) / CHUNK == Pow2(k)
  {
    PowSplits(LG_CHUNK, k + LG_CHUNK);
    assert Pow2(10) == 1024;
    PowSplits(10, LG_CHUNK);
    assert Pow2(11) == 2048;
  }

  /** A power of two is asked for, and it is large enough. */
  lemma ChunksArePower(size: nat) returns (k: nat)
    ensures ChunksFor(size) == Pow2(k) && size <= Pow2(k) * CHUNK
    ensures k == 0 || (forall j: nat :: size <= Pow2(j) ==> k + LG_CHUNK <= j)
  {
    var m := HyperceilIsLeast(size);
    k := ChunksOfPower(m);
  }

  lemma ChunksOfPower(m: nat) returns (k: nat)
    ensures Pow2(k) == (if Pow2(m) / CHUNK > 1 then Pow2(m) / CHUNK else 1) && Pow2(m) <= Pow2(k) * CHUNK
    ensures k == if m >= LG_CHUNK then m - LG_CHUNK else 0
  {
    if m >= LG_CHUNK {
      k := m - LG_CHUNK;
      PowChunk(k);
    } else {
      k := 0;
      PowChunk(0);
      PowMonotone(m, LG_CHUNK);
    }
  }

  /** There is a free list for blocks of the size asked for. */
  ghost predicate FitsList(size: nat) { exists k: nat :: k < LISTS && ChunksFor(size) == Pow2(k) }

  /** A size below the limit asks for a block that has a list. */
  lemma HasList(size: nat, k: nat)
    requires FitsList(size) && ChunksFor(size) == Pow2(k)
    ensures k < LISTS
  {
    var j: nat :| j < LISTS && ChunksFor(size) == Pow2(j);
    PowMonotone(j, k);
  }

  lemma BinOfPower(k: nat)
    ensures HugeBin(Pow2(k) * CHUNK) == FIRST_HUGE + k
  {
    PowChunk(k);
    if k > 0 {
      PowMonotone(1, k);
      HyperceilOfPower(k + LG_CHUNK);
      TrailingOfPower(k + LG_CHUNK);
    }
  }

  lemma ListOfBin(k: nat)
    ensures FreeListOf(FIRST_HUGE + k) == k
  {
    PowChunk(k);
    HyperceilOfPower(k);
    TrailingOfPower(k);
  }

  /** `huge_free` returns a block to the list `huge_malloc` took it from, for every size. */
  lemma SameList(size: nat, k: nat)
    requires ChunksFor(size) == Pow2(k) && k < LISTS
    ensures HugeBin(ChunksFor(size) * CHUNK) == FIRST_HUGE + k
    ensures BinOf(BinAndSize(FIRST_HUGE + k, size)) == FIRST_HUGE + k && FreeListOf(FIRST_HUGE + k) == k
  {
    BinOfPower(k);
    ListOfBin(k);
    BinRoundTrip(FIRST_HUGE + k, size);
  }

  /** The first chunk from `lo` on that is aligned to 2^k. */
  ghost function NextAligned(lo: nat, k: nat): (a: nat)
    ensures lo <= a < lo + Pow2(k) && Aligned(a, k)
  {
    var p := Pow2(k);
    AlignedIffMod(lo, k);
    if lo % p == 0 then lo else
      assert lo - lo % p == Times(lo / p, p) && lo - lo % p + p == Times(lo / p + 1, p);
      lo - lo % p + p
  }

  class HugeHeap {
    /** `free_chunks` and `chunk_infos` (a union of a list link and a bin word). */
    var free: seq<nat>
    var info: map<nat, nat>

    /** The lists as sequences, all blocks, the blocks on no list, those handed out, and each chunk's block. */
    ghost var lists: seq<seq<nat>>
    ghost var blocks: set<Block>
    ghost var out: set<Block>
    ghost var used: set<Block>
    ghost var own: map<nat, Block>

    ghost predicate Listed(b: Block)
      reads `lists
    {
      b.lg < |lists| && b.start in lists[b.lg]
    }

    ghost predicate Linked()
      reads `free, `info, `lists
    {
      |lists| == LISTS && Chains(free, info, lists)
    }

    ghost predicate Covered()
      reads `blocks, `own
    {
      forall b :: b in blocks ==> BlockOk(own, b)
    }

    ghost predicate Sorted()
      reads `lists, `blocks, `out
    {
      out <= blocks && forall b: Block :: Listed(b) <==> b in blocks && b !in out
    }

    ghost predicate Tagged()
      reads `info, `out, `used
    {
      used <= out && forall b :: b in used ==> BinOf(Get(info, b.start)) == FIRST_HUGE + b.lg && b.lg < LISTS
    }

    ghost predicate Valid()
      reads this
    {
      Linked() && Covered() && Sorted() && Tagged()
    }

    /** Two blocks of which one is outside the lists do not start at the same chunk. */
    lemma StartsDiffer(b: Block, i: nat)
      requires Linked() && Covered() && Sorted() && b in out && i < |lists|
      ensures b.start !in lists[i]
    {
      if b.start in lists[i] {
        var b' := Block(b.start, i);
        assert Listed(b');
        assert Covers(b, b.start) && Covers(b', b.start);
      }
    }

    /** `put_cached_power_of_two_chunks`. */
    method Put(c: nat, i: nat)
      requires Valid() && i < LISTS && Block(c, i) in out && Block(c, i) !in used
      modifies `free, `info, `lists, `out
      ensures Valid() && out == old(out) - {Block(c, i)}
      ensures lists == old(lists)[i := [c] + old(lists[i])]
    {
      ghost var b := Block(c, i);
      assert BlockOk(own, b);
      forall j | 0 <= j < |lists| ensures c !in lists[j] { StartsDiffer(b, j); }
      forall j | 0 <= j < |lists| ensures Chain(free[j], info[c := free[i]], lists[j]) {
        ChainSame(free[j], info, lists[j], c, free[i]);
      }
      ChainPush(free[i], info, lists[i], c);
      forall b' | b' in used ensures b'.start != c { assert Covers(b', b'.start) && Covers(b, c) && BlockOk(own, b'); }
      info := info[c := free[i]];
      free := free[i := c];
      lists, out := lists[i := [c] + lists[i]], out - {b};
    }

    /** `get_cached_power_of_two_chunks`: the first block of list `i`, or none. */
    method TakeCached(i: nat) returns (c: nat)
      requires Valid() && i < LISTS
      modifies `free, `lists, `out
      ensures Valid() && c == old(free[i])
      ensures c == 0 ==> out == old(out) && lists == old(lists)
      ensures c != 0 ==> Block(c, i) in blocks && Block(c, i) !in old(out) && out == old(out) + {Block(c, i)}
      ensures c != 0 ==> |old(lists[i])| > 0 && c == old(lists[i])[0] && lists == old(lists)[i := old(lists[i])[1..]]
    {
      c := free[i];
      if c == 0 { return; }
      ChainPop(c, info, lists[i]);
      ghost var l := lists[i];
      free := free[i := Get(info, c)];
      lists, out := lists[i := l[1..]], out + {Block(c, i)};
      assert old(Listed(Block(c, i)));
      forall b: Block ensures Listed(b) <==> b in blocks && b !in out {
        assert old(Listed(b)) <==> b in blocks && b !in old(out);
        if b.lg == i { assert b.start in l <==> b.start == c || b.start in l[1..]; }
      }
    }

    /** The chunks from `lo` to `hi` belong to no block. */
    ghost predicate Vacant(lo: nat, hi: nat)
      reads `own
    {
      forall x: nat :: lo <= x < hi ==> x !in own
    }

    /** The first part of a vacant range becomes a block. */
    ghost method Cut(c: nat, i: nat)
      requires Valid() && c > 0 && Aligned(c, i) && Vacant(c, c + Pow2(i))
      modifies `blocks, `out, `own
      ensures Valid() && blocks == old(blocks) + {Block(c, i)} && out == old(out) + {Block(c, i)}
      ensures Block(c, i) !in old(blocks)
      ensures forall x: nat :: x in own <==> x in old(own) || c <= x < c + Pow2(i)
      ensures forall x: nat :: x in old(own) ==> own[x] == old(own[x])
    {
      var b := Block(c, i);
      if b in blocks { assert BlockOk(own, b) && Covers(b, c); }
      own := own + Region(c, Pow2(i), b);
      blocks, out := blocks + {b}, out + {b};
      forall b' | b' in blocks ensures BlockOk(own, b') {
        if b' != b { assert old(BlockOk(own, b')); }
      }
    }

    /** A piece of a new mapping goes to the list for its size. */
    method PutPiece(c: nat, i: nat)
      requires Valid() && c > 0 && Aligned(c, i) && Vacant(c, c + Pow2(i)) && i < LISTS
      modifies `free, `info, `lists, `blocks, `out, `own
      ensures Valid() && blocks == old(blocks) + {Block(c, i)} && out == old(out) && Block(c, i) !in old(blocks)
      ensures forall x: nat :: x in own <==> x in old(own) || c <= x < c + Pow2(i)
    {
      Cut(c, i);
      assert Block(c, i) !in used;
      Put(c, i);
    }

    /** The size of the piece to cut at `c`: the largest power of two that divides `c` and does not pass `end`. */
    static method PieceAt(c: nat, end: nat) returns (bit: nat)
      requires 0 < c < end
      ensures Aligned(c, bit) && c + Pow2(bit) <= end && bit <= TrailingZeros(c)
      ensures c + Pow2(TrailingZeros(c)) <= end ==> bit == TrailingZeros(c)
      ensures bit < TrailingZeros(c) ==> c + Pow2(bit + 1) > end
    {
      bit := TrailingZeros(c);
      TrailingAligned(c);
      while c + Pow2(bit) > end
        invariant bit <= TrailingZeros(c) && Aligned(c, bit)
        invariant bit < TrailingZeros(c) ==> c + Pow2(bit + 1) > end
      {
        AlignedLess(c, bit, bit - 1);
        bit := bit - 1;
      }
      if bit < TrailingZeros(c) { PowMonotone(bit + 1, TrailingZeros(c)); }
    }

    /** The pieces cut since `was`: all blocks that are new lie between `lo` and `c` and fill that range. */
    ghost predicate CutFrom(was: set<Block>, wasOwn: map<nat, Block>, lo: nat, c: nat)
      reads `blocks, `own
    {
      && was <= blocks
      && (forall x: nat :: x in own <==> x in wasOwn || lo <= x < c)
      && (forall b :: b in blocks && b !in was ==> lo <= b.start && b.start + Pow2(b.lg) <= c)
    }

    /** Lines 74-88: pieces up to the first chunk aligned to 2^k. */
    method CutHead(lo: nat, end: nat, k: nat, ghost a: nat) returns (c: nat)
      requires Valid() && 0 < lo <= a && Aligned(a, k) && a < lo + Pow2(k) && a < end && k < LISTS && Vacant(lo, end)
      modifies `free, `info, `lists, `blocks, `out, `own
      ensures Valid() && c == a && out == old(out) && CutFrom(old(blocks), old(own), lo, c)
    {
      c := lo;
      while c % Pow2(k) != 0
        invariant lo <= c <= a && Valid() && out == old(out) && CutFrom(old(blocks), old(own), lo, c)
        decreases a - c
      {
        AlignedIffMod(c, k);
        var bit := HeadPiece(c, end, k, a);
        PutPiece(c, bit);
        c := c + Pow2(bit);
      }
      AlignedIffMod(c, k);
      if c < a {
        AlignedSum(c, a, k);
        AlignedGap(a - c, k);
      }
    }

    /** Before the aligned chunk `a`, the piece at `c` ends at `a` or earlier. */
    static method HeadPiece(c: nat, end: nat, k: nat, ghost a: nat) returns (bit: nat)
      requires 0 < c <= a && Aligned(a, k) && !Aligned(c, k) && a < end
      ensures Aligned(c, bit) && bit < k && c + Pow2(bit) <= a
    {
      ghost var z := TrailingZeros(c);
      TrailingAligned(c);
      if z >= k { AlignedLess(c, z, k); }
      AlignedLess(a, k, z);
      AlignedSum(c, a, z);
      AlignedGap(a - c, z);
      bit := PieceAt(c, end);
    }

    /** Lines 90-95: the rest of the mapping. */
    method CutTail(from: nat, end: nat, k: nat)
      requires Valid() && 0 < from <= end <= from + Pow2(k) && k < LISTS && Vacant(from, end)
      modifies `free, `info, `lists, `blocks, `out, `own
      ensures Valid() && out == old(out) && CutFrom(old(blocks), old(own), from, end)
    {
      var c := from;
      while c < end
        invariant from <= c <= end && Valid() && out == old(out) && CutFrom(old(blocks), old(own), from, c)
      {
        var bit := PieceAt(c, end);
        PowMonotone(k, bit);
        PutPiece(c, bit);
        c := c + Pow2(bit);
      }
    }

    /** What cutting the mapping from `p` on leaves: its chunks, and no others, have become blocks inside it, all of
        them on lists but the one of 2^k chunks at `r`. */
    ghost predicate Partitioned(was: set<Block>, wasOwn: map<nat, Block>, p: nat, n: nat, r: nat, k: nat)
      reads `blocks, `own
    {
      CutFrom(was, wasOwn, p, p + 2 * n) && Block(r, k) in blocks && Block(r, k) !in was
    }

    /** The cutting of a fresh mapping of 2n chunks from `p` on. */
    method CutMapping(p: nat, n: nat, k: nat) returns (r: nat)
      requires Valid() && n == Pow2(k) && k < LISTS && p > 0 && Vacant(p, p + 2 * n)
      modifies `free, `info, `lists, `blocks, `out, `own
      ensures Valid() && r != 0 && out == old(out) + {Block(r, k)}
      ensures Partitioned(old(blocks), old(own), p, n, r, k)
    {
      ghost var a := NextAligned(p, k);
      r := CutHead(p, p + 2 * n, k, a);
      Cut(r, k);
      CutTail(r + n, p + 2 * n, k);
    }

    /** Block `r` was the first of list `k`, and nothing has been mapped. */
    ghost predicate Reused(r: nat, k: nat, wasLists: seq<seq<nat>>, was: set<Block>)
      requires k < |wasLists|
      reads `lists, `blocks
    {
      && |wasLists[k]| > 0 && r == wasLists[k][0] && lists == wasLists[k := wasLists[k][1..]] && blocks == was
    }

    /** `get_power_of_two_n_chunks`; `p` is the chunk number of the mapping, 0 if there is none to be had. */
    method GetChunks(n: nat, k: nat, p: nat) returns (r: nat)
      requires Valid() && n == Pow2(k) && k < LISTS && (p > 0 ==> Vacant(p, p + 2 * n))
      modifies `free, `info, `lists, `blocks, `out, `own
      ensures Valid() && (r == 0 <==> old(free[k]) == 0 && p == 0)
      ensures r == 0 ==> out == old(out) && blocks == old(blocks)
      ensures r != 0 ==> Block(r, k) in blocks && Block(r, k) !in old(out) && out == old(out) + {Block(r, k)}
      ensures if old(free[k]) == 0 && p > 0 then Partitioned(old(blocks), old(own), p, n, r, k) else own == old(own)
      ensures old(free[k]) != 0 ==> Reused(r, k, old(lists), old(blocks))
    {
      TrailingOfPower(k);
      r := TakeCached(TrailingZeros(n));
      if r != 0 || p == 0 { return; }
      r := CutMapping(p, n, k);
    }

    /** `huge_malloc`: a block that is aligned to its size, large enough, in nobody else's hands and disjoint from
        every other block. */
    method Malloc(size: nat, p: nat) returns (r: nat, ghost b: Block)
      requires Valid() && used == out && FitsList(size)
      requires p > 0 ==> Vacant(p, p + 2 * ChunksFor(size))
      modifies this
      ensures Valid() && used == out
      ensures b.lg < LISTS && ChunksFor(size) == Pow2(b.lg) && (r == 0 <==> old(free[b.lg]) == 0 && p == 0)
      ensures r == 0 ==> used == old(used)
      ensures r != 0 ==> b !in old(used) && used == old(used) + {b}
      ensures r != 0 ==> b.start == r && Aligned(r, b.lg) && size <= Pow2(b.lg) * CHUNK
      ensures r != 0 ==> Get(info, r) == BinAndSize(HugeBin(ChunksFor(size) * CHUNK), size)
      ensures old(free[b.lg]) != 0 ==> Reused(r, b.lg, old(lists), old(blocks))
    {
      var n := ChunksFor(size);
      ghost var k := ChunksArePower(size);
      HasList(size, k);
      TrailingOfPower(k);
      r := GetChunks(n, TrailingZeros(n), p);
      b := Block(r, k);
      if r == 0 { return; }
      SameList(size, k);
      assert BlockOk(own, b);
      var word := BinAndSize(HugeBin(n * CHUNK), size);
      Tag(r, word, b);
    }

    /** Store the bin word of a block that has just been handed out. */
    method Tag(c: nat, word: nat, ghost b: Block)
      requires Valid() && b in out && b !in used && b.start == c && b.lg < LISTS && BinOf(word) == FIRST_HUGE + b.lg
      modifies `info, `used
      ensures Valid() && used == old(used) + {b} && Get(info, c) == word
    {
      forall j | 0 <= j < |lists| ensures Chain(free[j], info[c := word], lists[j]) {
        StartsDiffer(b, j);
        ChainSame(free[j], info, lists[j], c, word);
      }
      assert BlockOk(own, b);
      forall b' | b' in used ensures b'.start != c { assert Covers(b', b'.start) && Covers(b, c) && BlockOk(own, b'); }
      info := info[c := word];
      used := used + {b};
    }

    /** `huge_free` of the block that starts at chunk `c`: it goes back to the list for its size. */
    method Free(c: nat, ghost b: Block)
      requires Valid() && used == out && b in used && b.start == c
      modifies this
      ensures Valid() && used == out == old(used) - {b} && blocks == old(blocks)
      ensures lists == old(lists)[b.lg := [c] + old(lists[b.lg])]
    {
      var bin := BinOf(Get(info, c));
      ListOfBin(b.lg);
      var list := FreeListOf(bin);
      used := used - {b};
      Put(c, list);
    }

    constructor ()
      ensures Valid() && used == out == {} && blocks == {} && own == map[]
    {
      free := seq(LISTS, _ => 0);
      info := map[];
      lists, blocks, out, used, own := seq(LISTS, _ => []), {}, {}, {}, map[];
    }

    /** No chunk is in two blocks, whether in use or on a list. */
    lemma BlocksDisjoint(b: Block, b': Block, x: nat)
      requires Valid() && b in blocks && b' in blocks && b != b'
      ensures !(Covers(b, x) && Covers(b', x))
    {
      assert BlockOk(own, b) && BlockOk(own, b');
    }
  }
}
