/** Slots of a ring: numbered items laid out around a buffer of `cap` places. */
module RingSlots {
  lemma {:induction false} AddMultiple(r: int, m: int, k: int)
    requires m > 0
    ensures (m * k + r) % m == r % m
  {
    var q, rem := r / m, r % m;
    assert m * k + r == m * (k + q) + rem;
    RemainderUnique(m * k + r, m, k + q, rem);
  }

  lemma AtLeastOne(m: int, d: int)
    requires m > 0 && d >= 1
    ensures m * d >= m
  {
  }

  lemma RemainderUnique(x: int, m: int, q: int, r: int)
    requires m > 0 && x == m * q + r && 0 <= r < m
    ensures x % m == r
  {
    var q', r' := x / m, x % m;
    assert m * (q - q') == r' - r by { assert x == m * q' + r'; assert m * (q - q') == m * q - m * q'; }
    assert m * (q' - q) == -(m * (q - q'));
    if q > q' { AtLeastOne(m, q - q'); }
    if q < q' { AtLeastOne(m, q' - q); }
  }

  /** The slot of item `n` in a ring of capacity `cap` whose slot 0 stands for item `-shift`. */
  function SlotOf(cap: int, shift: int, n: int): (i: int)
    requires cap > 0
    ensures 0 <= i < cap
  {
    (n + shift) % cap
  }

  lemma AddMod(a: int, b: int, m: int)
    requires m > 0
    ensures (b % m + a) % m == (a % m + b % m) % m == (a + b) % m
  {
    var x, y := a / m, b / m;
    assert b % m + a == m * x + (a % m + b % m);
    AddMultiple(a % m + b % m, m, x);
    assert a + b == m * (x + y) + (a % m + b % m);
    AddMultiple(a % m + b % m, m, x + y);
  }

  /** Fewer than a full turn apart, different items have different slots. */
  lemma SlotsDiffer(cap: int, shift: int, m: int, n: int)
    requires cap > 0 && m < n < m + cap
    ensures SlotOf(cap, shift, m) != SlotOf(cap, shift, n)
  {
    if SlotOf(cap, shift, m) == SlotOf(cap, shift, n) {
      var q, q' := (m + shift) / cap, (n + shift) / cap;
      assert n - m == cap * (q' - q) by { assert cap * (q' - q) == cap * q' - cap * q; }
      if q' - q >= 1 { AtLeastOne(cap, q' - q); }
      if q - q' >= 0 { assert cap * (q' - q) == -(cap * (q - q')); NotNegative(cap, q - q'); }
    }
  }

  lemma NotNegative(m: int, d: int)
    requires m > 0 && d >= 0
    ensures m * d >= 0
  {
  }

  lemma NextSlot(cap: int, shift: int, n: int)
    requires cap > 0
    ensures (SlotOf(cap, shift, n) + 1) % cap == SlotOf(cap, shift, n + 1)
    ensures (SlotOf(cap, shift, n) - 1) % cap == SlotOf(cap, shift, n - 1)
  {
    AddMod(1, n + shift, cap);
    AddMod(-1, n + shift, cap);
  }

  lemma SlotAgain(cap: int, shift: int, n: int)
    requires cap > 0
    ensures SlotOf(cap, shift, n - cap) == SlotOf(cap, shift, n)
  {
    AddMultiple(n + shift, cap, -1);
  }

  /** Slots after growing: the items of the old ring in order, then the unused slots. */
  lemma UnrolledSlot(cap: int, next: int, n: int)
    requires cap > 0 && next - 2 * cap <= n < next
    ensures SlotOf(2 * cap, cap - next, n) == n + cap - next + if n < next - cap then 2 * cap else 0
  {
    var x := n + cap - next;
    if x >= 0 { RemainderUnique(x, 2 * cap, 0, x); } else { RemainderUnique(x, 2 * cap, -1, x + 2 * cap); }
  }

  /** One step around the ring. */
  method Advance(cap: nat, idx: nat, ghost shift: int, ghost k: int) returns (next: nat)
    requires cap > 0 && idx == SlotOf(cap, shift, k)
    ensures next == SlotOf(cap, shift, k + 1)
  {
    NextSlot(cap, shift, k);
    next := (idx + 1) % cap;
  }
}
