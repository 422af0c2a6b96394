/** Object addresses of the allocator: the bin table of memory/generated_constants.cpp, division by multiply and
    shift (memory/generated_constants.h `divide_offset_by_objsize`, `divide_offset_by_foliosize`), the addresses
    `do_small_malloc` hands out, and the way back in `small_free` and `object_base`. */
module SizeClasses {
  const CHUNK: int := 0x20_0000
  const PAGE: int := 4096
  /** `sizeof(per_folio)`. */
  const HEADER: int := 320
  const FIRST_LARGE: int := 40
  const FIRST_HUGE: int := 47

  /** A row of `static_bin_info`.  A shift is written as the power of two it divides by. */
  datatype Bin = Bin(
    size: nat, folioSize: nat, perFolio: nat, foliosPerChunk: nat, overhead: nat,
    sizeShift: nat, folioShift: nat, sizeMul: nat, folioMul: nat)

  /** The multiplier exceeds p / d by an error that stays below one part in p for offsets up to `max`, and the
      product fits in 64 bits. */
  predicate Exact(d: nat, mul: nat, p: nat, max: nat) {
    d > 0 && p > 0 && mul * d >= p && max * (mul * d - p) < p && max * mul < 0x1_0000_0000_0000_0000
  }

  /** A row that divides exactly over a whole chunk and whose folios fit in a chunk. */
  predicate RowOk(b: Bin) {
    && b.size > 0 && b.perFolio * b.size <= b.folioSize
    && b.overhead * PAGE + b.foliosPerChunk * b.folioSize <= CHUNK
    && Exact(b.size, b.sizeMul, b.sizeShift, b.folioSize) && Exact(b.folioSize, b.folioMul, b.folioShift, CHUNK)
  }

  /** A row of a small bin: the folio headers fit in the overhead pages. */
  predicate SmallRow(b: Bin) { RowOk(b) && b.foliosPerChunk * HEADER <= b.overhead * PAGE }

  /** `static_bin_info` below the huge bins. */
  function Row(bin: nat): (b: Bin)
    requires bin < FIRST_HUGE
    ensures RowOk(b) && (bin < FIRST_LARGE ==> SmallRow(b))
  {
    match bin
    case 0 => Bin(8, 4096, 512, 472, 40, 0x8, 0x1000, 1, 1)
    case 1 => Bin(10, 20480, 2048, 100, 8, 0x10_0000_0000, 0x8000_0000_0000, 6871947674, 6871947674)
    case 2 => Bin(12, 12288, 1024, 166, 14, 0x10_0000_0000, 0x4000_0000_0000, 5726623062, 5726623062)
    case 3 => Bin(14, 28672, 2048, 72, 6, 0x10_0000_0000, 0x8000_0000_0000, 4908534053, 4908534053)
    case 4 => Bin(16, 4096, 256, 472, 40, 0x10, 0x1000, 1, 1)
    case 5 => Bin(20, 20480, 1024, 100, 8, 0x20_0000_0000, 0x8000_0000_0000, 6871947674, 6871947674)
    case 6 => Bin(24, 12288, 512, 166, 14, 0x20_0000_0000, 0x4000_0000_0000, 5726623062, 5726623062)
    case 7 => Bin(28, 28672, 1024, 72, 6, 0x20_0000_0000, 0x8000_0000_0000, 4908534053, 4908534053)
    case 8 => Bin(32, 4096, 128, 472, 40, 0x20, 0x1000, 1, 1)
    case 9 => Bin(40, 20480, 512, 100, 8, 0x40_0000_0000, 0x8000_0000_0000, 6871947674, 6871947674)
    case 10 => Bin(48, 12288, 256, 166, 14, 0x40_0000_0000, 0x4000_0000_0000, 5726623062, 5726623062)
    case 11 => Bin(56, 28672, 512, 72, 6, 0x40_0000_0000, 0x8000_0000_0000, 4908534053, 4908534053)
    case 12 => Bin(64, 4096, 64, 472, 40, 0x40, 0x1000, 1, 1)
    case 13 => Bin(80, 20480, 256, 100, 8, 0x80_0000_0000, 0x8000_0000_0000, 6871947674, 6871947674)
    case 14 => Bin(96, 12288, 128, 166, 14, 0x80_0000_0000, 0x4000_0000_0000, 5726623062, 5726623062)
    case 15 => Bin(112, 28672, 256, 72, 6, 0x80_0000_0000, 0x8000_0000_0000, 4908534053, 4908534053)
    case 16 => Bin(128, 4096, 32, 472, 40, 0x80, 0x1000, 1, 1)
    case 17 => Bin(160, 20480, 128, 100, 8, 0x100_0000_0000, 0x8000_0000_0000, 6871947674, 6871947674)
    case 18 => Bin(192, 12288, 64, 166, 14, 0x100_0000_0000, 0x4000_0000_0000, 5726623062, 5726623062)
    case 19 => Bin(224, 28672, 128, 72, 6, 0x100_0000_0000, 0x8000_0000_0000, 4908534053, 4908534053)
    case 20 => Bin(256, 4096, 16, 472, 40, 0x100, 0x1000, 1, 1)
    case 21 => Bin(320, 20480, 64, 100, 8, 0x200_0000_0000, 0x8000_0000_0000, 6871947674, 6871947674)
    case 22 => Bin(448, 28672, 64, 72, 6, 0x200_0000_0000, 0x8000_0000_0000, 4908534053, 4908534053)
    case 23 => Bin(512, 4096, 8, 472, 40, 0x200, 0x1000, 1, 1)
    case 24 => Bin(576, 36864, 64, 56, 5, 0x400_0000_0000, 0x1_0000_0000_0000, 7635497416, 7635497416)
    case 25 => Bin(704, 45056, 64, 46, 4, 0x400_0000_0000, 0x1_0000_0000_0000, 6247225158, 6247225158)
    case 26 => Bin(960, 61440, 64, 33, 3, 0x400_0000_0000, 0x1_0000_0000_0000, 4581298450, 4581298450)
    case 27 => Bin(1024, 4096, 4, 472, 40, 0x400, 0x1000, 1, 1)
    case 28 => Bin(1216, 77824, 64, 26, 3, 0x800_0000_0000, 0x2_0000_0000_0000, 7233629131, 7233629131)
    case 29 => Bin(1472, 94208, 64, 22, 2, 0x800_0000_0000, 0x2_0000_0000_0000, 5975606673, 5975606673)
    case 30 => Bin(1984, 126976, 64, 16, 2, 0x800_0000_0000, 0x2_0000_0000_0000, 4433514629, 4433514629)
    case 31 => Bin(2048, 4096, 2, 472, 40, 0x800, 0x1000, 1, 1)
    case 32 => Bin(2752, 176128, 64, 11, 1, 0x1000_0000_0000, 0x4_0000_0000_0000, 6392509464, 6392509464)
    case 33 => Bin(3904, 249856, 64, 8, 1, 0x1000_0000_0000, 0x4_0000_0000_0000, 4506195196, 4506195196)
    case 34 => Bin(4096, 4096, 1, 472, 40, 0x1000, 0x1000, 1, 1)
    case 35 => Bin(5312, 339968, 64, 6, 1, 0x2000_0000_0000, 0x8_0000_0000_0000, 6623564023, 6623564023)
    case 36 => Bin(7232, 462848, 64, 4, 1, 0x2000_0000_0000, 0x8_0000_0000_0000, 4865095699, 4865095699)
    case 37 => Bin(8192, 8192, 1, 246, 20, 0x2000, 0x2000, 1, 1)
    case 38 => Bin(10048, 643072, 64, 3, 1, 0x4000_0000_0000, 0x10_0000_0000_0000, 7003258776, 7003258776)
    case 39 => Bin(14272, 913408, 64, 2, 1, 0x4000_0000_0000, 0x10_0000_0000_0000, 4930545417, 4930545417)
    case 40 => Bin(16384, 16384, 1, 127, 1, 0x4000, 0x4000, 1, 1)
    case 41 => Bin(32768, 32768, 1, 63, 1, 0x8000, 0x8000, 1, 1)
    case 42 => Bin(65536, 65536, 1, 31, 1, 0x1_0000, 0x1_0000, 1, 1)
    case 43 => Bin(131072, 131072, 1, 15, 1, 0x2_0000, 0x2_0000, 1, 1)
    case 44 => Bin(258048, 258048, 1, 8, 1, 0x4_0000_0000_0000, 0x4_0000_0000_0000, 4363141381, 4363141381)
    case 45 => Bin(520192, 520192, 1, 4, 1, 0x8_0000_0000_0000, 0x8_0000_0000_0000, 4328785937, 4328785937)
    case _ => Bin(1044480, 1044480, 1, 2, 1, 0x10_0000_0000_0000, 0x10_0000_0000_0000, 4311810306, 4311810306)
  }

  // ----- division by multiply and shift

  /** `(offset * multiplier) >> shift`. */
  function MulShift(n: nat, mul: nat, p: nat): int
    requires p > 0
  {
    n * mul / p
  }

  lemma MulMonotone(a: nat, b: nat, c: nat)
    requires a <= b
    ensures a * c <= b * c
  {
  }

  lemma Cancel(a: int, b: int, d: int)
    requires d > 0
    ensures a * d < b * d ==> a < b
    ensures a * d <= b * d ==> a <= b
  {
  }

  lemma QuotientIs(x: int, d: int, q: int)
    requires d > 0 && q * d <= x < q * d + d
    ensures x / d == q
  {
    var y := x / d;
    assert y * d <= x < y * d + d by { assert x == y * d + x % d; }
    assert y * d < (q + 1) * d && q * d < (y + 1) * d;
    Cancel(y, q + 1, d);
    Cancel(q, y + 1, d);
  }

  lemma Distribute(q: int, d: int, r: int, p: int)
    ensures (q * d + r) * p == (q * p) * d + r * p
  {
  }

  lemma DividesBy(n: nat, d: nat, mul: nat, p: nat, e: nat)
    requires d > 0 && p > 0 && mul * d == p + e && n * e < p
    ensures n * mul / p == n / d
  {
    var q, r := n / d, n % d;
    assert (n * mul) * d == n * p + n * e by {
      assert (n * mul) * d == n * (mul * d);
      assert n * (p + e) == n * p + n * e;
    }
    assert n * p == (q * p) * d + r * p by { assert n == q * d + r; Distribute(q, d, r, p); }
    MulMonotone(0, r, p);
    MulMonotone(r + 1, d, p);
    assert (r + 1) * p == r * p + p;
    Sandwich(n * mul, d, q * p, p, r * p, n * e);
    QuotientIs(n * mul, p, q);
  }

  /** Multiply and shift is division, for every offset up to the bound. */
  lemma MulShiftDivides(n: nat, d: nat, mul: nat, p: nat, max: nat)
    requires Exact(d, mul, p, max) && n <= max
    ensures MulShift(n, mul, p) == n / d
  {
    MulMonotone(n, max, mul * d - p);
    DividesBy(n, d, mul, p, mul * d - p);
  }

  lemma Sandwich(x: int, d: int, a: int, p: int, rp: int, ne: int)
    requires d > 0 && x * d == a * d + rp + ne && 0 <= rp && rp + p <= p * d && 0 <= ne < p
    ensures a <= x < a + p
  {
    Cancel(a, x, d);
    assert (a + p) * d == a * d + p * d;
    Cancel(x, a + p, d);
  }

  // ----- addresses

  /** The address `do_small_malloc` returns for object `i` of folio `k`. */
  function ObjectAddress(chunk: nat, b: Bin, k: nat, i: nat): nat {
    chunk * CHUNK + b.overhead * PAGE + k * b.folioSize + i * b.size
  }

  /** The folio number `small_free` and `object_base` compute from a pointer. */
  function FolioOf(b: Bin, p: nat): int
    requires RowOk(b) && p % CHUNK >= b.overhead * PAGE
  {
    MulShift(p % CHUNK - b.overhead * PAGE, b.folioMul, b.folioShift)
  }

  /** The offset within the folio; the source's subtraction never goes below zero (see `WayBack`). */
  function OffsetInFolio(b: Bin, p: nat): int
    requires RowOk(b) && p % CHUNK >= b.overhead * PAGE
  {
    p % CHUNK - b.overhead * PAGE - FolioOf(b, p) * b.folioSize
  }

  function ObjectOf(b: Bin, p: nat): int
    requires RowOk(b) && p % CHUNK >= b.overhead * PAGE
  {
    if OffsetInFolio(b, p) < 0 then -1 else MulShift(OffsetInFolio(b, p), b.sizeMul, b.sizeShift)
  }

  /** `object_base` below the huge bins. */
  function ObjectBase(b: Bin, p: nat): int
    requires RowOk(b) && p % CHUNK >= b.overhead * PAGE
  {
    p / CHUNK * CHUNK + b.overhead * PAGE + FolioOf(b, p) * b.folioSize + ObjectOf(b, p) * b.size
  }

  /** Where object `i` of folio `k` lies inside a folio and a chunk. */
  lemma Placement(b: Bin, k: nat, i: nat, d: nat)
    requires RowOk(b) && k < b.foliosPerChunk && i < b.perFolio && d < b.size
    ensures i * b.size + d < b.folioSize
    ensures b.overhead * PAGE + k * b.folioSize + i * b.size + b.size <= CHUNK
  {
    MulMonotone(i + 1, b.perFolio, b.size);
    assert (i + 1) * b.size == i * b.size + b.size;
    MulMonotone(k + 1, b.foliosPerChunk, b.folioSize);
    assert (k + 1) * b.folioSize == k * b.folioSize + b.folioSize;
  }

  lemma FolioBack(b: Bin, k: nat, off: nat)
    requires RowOk(b) && off < b.folioSize && k * b.folioSize + off <= CHUNK
    ensures MulShift(k * b.folioSize + off, b.folioMul, b.folioShift) == k
  {
    MulShiftDivides(k * b.folioSize + off, b.folioSize, b.folioMul, b.folioShift, CHUNK);
    QuotientIs(k * b.folioSize + off, b.folioSize, k);
  }

  lemma ObjectBack(b: Bin, i: nat, d: nat)
    requires RowOk(b) && d < b.size && i * b.size + d <= b.folioSize
    ensures MulShift(i * b.size + d, b.sizeMul, b.sizeShift) == i
  {
    MulShiftDivides(i * b.size + d, b.size, b.sizeMul, b.sizeShift, b.folioSize);
    QuotientIs(i * b.size + d, b.size, i);
  }

  lemma InChunk(chunk: nat, off: nat)
    requires off < CHUNK
    ensures (chunk * CHUNK + off) / CHUNK == chunk && (chunk * CHUNK + off) % CHUNK == off
  {
  }

  /** Any pointer into an object leads back to the object: `small_free` finds the folio and bit that
      `do_small_malloc` set, and `object_base` finds the address it returned. */
  lemma WayBack(chunk: nat, b: Bin, k: nat, i: nat, d: nat)
    requires RowOk(b) && k < b.foliosPerChunk && i < b.perFolio && d < b.size
    ensures var p := ObjectAddress(chunk, b, k, i) + d;
      && p % CHUNK >= b.overhead * PAGE && p / CHUNK == chunk
      && FolioOf(b, p) == k && ObjectOf(b, p) == i && ObjectBase(b, p) == ObjectAddress(chunk, b, k, i)
  {
    Placement(b, k, i, d);
    Back(chunk, b, k, i, d, k * b.folioSize, i * b.size, b.overhead * PAGE);
  }

  lemma Back(chunk: nat, b: Bin, k: nat, i: nat, d: nat, kf: nat, iz: nat, head: nat)
    requires RowOk(b) && d < b.size && kf == k * b.folioSize && iz == i * b.size && head == b.overhead * PAGE
    requires iz + d < b.folioSize && head + kf + iz + d < CHUNK
    ensures var p := ObjectAddress(chunk, b, k, i) + d;
      && p % CHUNK >= b.overhead * PAGE && p / CHUNK == chunk
      && FolioOf(b, p) == k && ObjectOf(b, p) == i && ObjectBase(b, p) == ObjectAddress(chunk, b, k, i)
  {
    InChunk(chunk, head + kf + iz + d);
    FolioBack(b, k, iz + d);
    ObjectBack(b, i, d);
  }

  /** Distinct objects of a chunk do not overlap each other, the chunk's header or the next chunk. */
  lemma ObjectsDisjoint(chunk: nat, b: Bin, k: nat, i: nat, k': nat, i': nat)
    requires SmallRow(b) && k < b.foliosPerChunk && i < b.perFolio && k' < b.foliosPerChunk && i' < b.perFolio
    requires (k, i) != (k', i')
    ensures var p, p' := ObjectAddress(chunk, b, k, i), ObjectAddress(chunk, b, k', i');
      && (p + b.size <= p' || p' + b.size <= p)
      && chunk * CHUNK + b.foliosPerChunk * HEADER <= p && p + b.size <= (chunk + 1) * CHUNK
  {
    Placement(b, k, i, 0);
    MulMonotone(0, k, b.folioSize);
    MulMonotone(0, i, b.size);
    if k < k' || (k == k' && i < i') {
      Ordered(b, k, i, k', i');
    } else {
      Ordered(b, k', i', k, i);
    }
  }

  lemma Ordered(b: Bin, k: nat, i: nat, k': nat, i': nat)
    requires RowOk(b) && i < b.perFolio && (k < k' || (k == k' && i < i'))
    ensures k * b.folioSize + i * b.size + b.size <= k' * b.folioSize + i' * b.size
  {
    if k < k' {
      MulMonotone(i + 1, b.perFolio, b.size);
      assert (i + 1) * b.size == i * b.size + b.size;
      MulMonotone(k + 1, k', b.folioSize);
      assert (k + 1) * b.folioSize == k * b.folioSize + b.folioSize;
      MulMonotone(0, i', b.size);
    } else {
      MulMonotone(i + 1, i', b.size);
      assert (i + 1) * b.size == i * b.size + b.size;
    }
  }
}
