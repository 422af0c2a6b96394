/** What several modules share: optional values, sequences without repetition, sizes of sets, powers of two. */
module Prelude {
  datatype Option<T> = None | Some(value: T)

  ghost predicate NoDup(l: seq<nat>) {
    forall i, j :: 0 <= i < j < |l| ==> l[i] != l[j]
  }

  lemma SubsetSize(a: set<nat>, b: set<nat>)
    requires a <= b
    ensures |a| <= |b|
    ensures |a| == |b| ==> a == b
  {
    assert b == a + (b - a);
    assert |b| == |a| + |b - a|;
  }

  function Pow2(k: nat): (p: nat)
    ensures p >= 1
  {
    if k == 0 then 1 else 2 * Pow2(k - 1)
  }

  lemma {:induction false} PowSplits(e: nat, f: nat)
    requires e <= f
    ensures Pow2(f) == Pow2(e) * Pow2(f - e)
  {
    if e > 0 { PowSplits(e - 1, f - 1); }
  }
}
