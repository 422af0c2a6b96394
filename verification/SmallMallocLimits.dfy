/** Runs of a small bin that break what the comments on `fullest_offset` promise (memory/small_malloc.cpp), for every
    number of objects per folio that allows it. */
module SmallMallocLimits {
  import opened LinkedLists
  import opened Prelude
  import opened SmallMalloc

  /** The lists when the folio at hand has been taken from list `from` and has come down to list `to`. */
  ghost function Moved(s: seq<seq<Folio>>, from: nat, to: nat): seq<seq<Folio>>
    requires from < |s| && to < |s| && from != to && s[from] != []
  {
    s[from := s[from][1..]][to := [s[from][0]] + s[to]]
  }

  /** Committed folios are full, or empty and at most one. */
  ghost predicate Fresh(s: seq<seq<Folio>>, opf: nat)
    requires |s| == opf + 2
  {
    0 < opf && EmptyBelow(s, opf) && |s[opf]| <= 1 && Points(s, opf)
  }

  /** One more object out of the folio at hand. */
  lemma MovesOn(s: seq<seq<Folio>>, opf: nat, n: nat)
    requires |s| == opf + 2 && Fresh(s, opf) && 0 < n < opf
    ensures var t := Moved(s, Source(s, opf), opf - n);
      && Points(t, opf - n) && Next(t, opf - n) == Next(s, opf)
      && Lowered(t, opf - n) == Moved(s, Source(s, opf), opf - n - 1)
  {
    var from := Source(s, opf);
    var t := Moved(s, from, opf - n);
    assert s[opf - n] == [];
    assert t[opf - n] == [s[from][0]];
    assert t[opf - n][1..] == s[opf - n];
    assert Lowered(t, opf - n) == Moved(s, from, opf - n - 1);
  }

  lemma MovedOut(s: seq<seq<Folio>>, opf: nat, n: nat)
    requires |s| == opf + 2 && Fresh(s, opf) && Points(Moved(s, Source(s, opf), 0), n)
    requires EmptyBelow(Moved(s, Source(s, opf), 0), n)
    requires n == 0 ==> Moved(s, Source(s, opf), 0)[opf + 1] == []
    ensures n == if Moved(s, Source(s, opf), 0)[opf + 1] == [] then 0 else opf
  {
    var t := Moved(s, Source(s, opf), 0);
    assert EmptyBelow(t, opf) && t[opf] == [] by {
      forall i | 1 <= i < opf ensures t[i] == [] { assert s[i] == []; }
    }
  }

  /** Of folio `f` the first `n` objects are in use. */
  ghost predicate InUse(b: SmallBin, f: Folio, n: nat)
    reads b`inuse
  {
    forall i: nat :: b.Allocated(f, i) <==> i < n
  }

  /** One object out of the folio at hand, of which the first `n` are in use. */
  method Take(b: SmallBin, ghost f: Folio, ghost n: nat)
    requires b.Valid() && b.fullest > 0 && f == Next(b.slots, b.fullest) && InUse(b, f, n)
    modifies b
    ensures b.Valid() && b.out == old(b.out) && b.inuse.Keys == old(b.inuse.Keys) && InUse(b, f, n + 1)
    ensures b.slots == Lowered(old(b.slots), old(b.fullest)) && b.Prompt()
    ensures if old(b.fullest) > 1 then b.fullest == old(b.fullest) - 1 else b.Least()
    ensures forall g, i: nat :: g != f ==> (b.Allocated(g, i) <==> old(b.Allocated(g, i)))
  {
    var r := b.Malloc();
    assert !old(b.Allocated(f, n));
  }

  /** Allocate all objects of the folio at hand, which has none in use. */
  method Fill(b: SmallBin) returns (ghost f: Folio)
    requires b.Valid() && b.fullest == b.opf && Fresh(b.slots, b.opf) && InUse(b, Next(b.slots, b.opf), 0)
    modifies b
    ensures b.Valid() && b.out == old(b.out) && b.inuse.Keys == old(b.inuse.Keys)
    ensures f == Next(old(b.slots), b.opf) && b.slots == Moved(old(b.slots), Source(old(b.slots), b.opf), 0)
    ensures b.fullest == if b.slots[b.opf + 1] == [] then 0 else b.opf
    ensures InUse(b, f, b.opf) && forall g, i: nat :: g != f ==> (b.Allocated(g, i) <==> old(b.Allocated(g, i)))
  {
    ghost var s, opf := b.slots, b.opf;
    f := Next(s, opf);
    Take(b, f, 0);
    var n := 1;
    while n < b.opf
      invariant 1 <= n <= opf && b.Valid() && b.out == old(b.out) && b.inuse.Keys == old(b.inuse.Keys)
      invariant b.slots == Moved(s, Source(s, opf), opf - n) && InUse(b, f, n)
      invariant if n < opf then b.fullest == opf - n else b.Least() && b.Prompt()
      invariant forall g, i: nat :: g != f ==> (b.Allocated(g, i) <==> old(b.Allocated(g, i)))
    {
      MovesOn(s, opf, n);
      Take(b, f, n);
      n := n + 1;
    }
    MovedOut(s, opf, b.fullest);
  }

  // ----- freeing

  lemma Placed(b: SmallBin, f: Folio, i: nat)
    requires b.Valid() && i < |b.slots| && f in b.slots[i]
    ensures f in b.place && b.place[f] == i
  {
    assert SlotAt(b.Pointers(), b.slots, b.place, i, b.Loose());
  }

  /** Free the last of the `n + 1` objects in use of folio `f`, which is in list `i`. */
  method Give(b: SmallBin, f: Folio, n: nat, ghost i: nat)
    requires b.Valid() && i < b.opf && f in b.slots[i] && InUse(b, f, n + 1)
    modifies b
    ensures b.Valid() && b.inuse.Keys == old(b.inuse.Keys) && InUse(b, f, n)
    ensures b.slots == Raised(old(b.slots), f, i, i + 1 < b.opf || old(b.slots[b.opf]) == [])
    ensures b.fullest == Repointed(old(b.slots), old(b.fullest), f, i)
    ensures b.out == if i + 1 < b.opf || old(b.slots[b.opf]) == [] then old(b.out) else old(b.out) + {f}
    ensures forall g, x: nat :: g != f ==> (b.Allocated(g, x) <==> old(b.Allocated(g, x)))
  {
    Placed(b, f, i);
    assert b.Allocated(f, n);
    var madvise := b.Free(f, n);
  }

  /** The lists when folio `f` has come up from list 0 to list `i`. */
  ghost function Up(s: seq<seq<Folio>>, f: Folio, i: nat): seq<seq<Folio>>
    requires 0 < i < |s|
  {
    s[0 := Minus(s[0], f)][i := [f]]
  }

  lemma GoesUp(s: seq<seq<Folio>>, opf: nat, f: Folio, i: nat)
    requires |s| == opf + 2 && EmptyBelow(s, opf) && f in s[0] && 0 < i < opf
    ensures Repointed(Up(s, f, i), i, f, i) == i + 1
    ensures Raised(Up(s, f, i), f, i, false) == s[0 := Minus(s[0], f)]
    ensures i + 1 < opf || s[opf] == [] ==> Raised(Up(s, f, i), f, i, true) == Up(s, f, i + 1)
  {
    assert s[i] == [] && Up(s, f, i)[i] == [f];
    assert Minus([f], f) == [];
    assert i + 1 < opf || s[opf] == [] ==> [f] + s[i + 1] == [f];
  }

  /** Free all objects of a full folio, while no other has room unless it is empty. */
  method Drain(b: SmallBin, f: Folio)
    requires b.Valid() && EmptyBelow(b.slots, b.opf) && f in b.slots[0] && InUse(b, f, b.opf)
    modifies b
    ensures b.Valid() && b.inuse.Keys == old(b.inuse.Keys) && InUse(b, f, 0) && b.fullest == b.opf
    ensures b.slots == if old(b.slots)[b.opf] == [] then Up(old(b.slots), f, b.opf)
                       else old(b.slots)[0 := Minus(old(b.slots)[0], f)]
    ensures b.out == if old(b.slots)[b.opf] == [] then old(b.out) else old(b.out) + {f}
    ensures forall g, x: nat :: g != f ==> (b.Allocated(g, x) <==> old(b.Allocated(g, x)))
  {
    ghost var s, opf := b.slots, b.opf;
    assert opf > 1 || s[opf] == [] ==> [f] + s[1] == [f];
    Give(b, f, b.opf - 1, 0);
    var i := 1;
    while i < b.opf
      invariant 1 <= i <= opf && b.Valid() && b.inuse.Keys == old(b.inuse.Keys) && InUse(b, f, opf - i)
        && b.fullest == i
      invariant b.slots == if i < opf || s[opf] == [] then Up(s, f, i) else s[0 := Minus(s[0], f)]
      invariant b.out == if i < opf || s[opf] == [] then old(b.out) else old(b.out) + {f}
      invariant forall g, x: nat :: g != f ==> (b.Allocated(g, x) <==> old(b.Allocated(g, x)))
    {
      GoesUp(s, opf, f, i);
      Give(b, f, b.opf - i - 1, i);
      i := i + 1;
    }
  }

  // ----- the runs

  /** A bin with one chunk: `fullest` names an empty list. */
  method NewBin(n: nat, c: seq<Folio>) returns (b: SmallBin)
    requires n > 0 && |c| > 0 && NoDup(c)
    ensures fresh(b) && b.Valid() && b.opf == n && b.out == {} && b.fullest == n
    ensures b.slots[0] == [] && b.slots[n + 1] == c && EmptyBelow(b.slots, n + 1) && !b.Named()
    ensures forall f :: InUse(b, f, 0)
  {
    b := new SmallBin(n);
    b.AddChunk(c);
    assert c + [] == c;
  }

  /** The next folio of the chunk is filled. */
  method FillNext(b: SmallBin, ghost c: seq<Folio>, ghost full: seq<Folio>)
    requires b.Valid() && b.fullest == b.opf && |c| > 0 && b.slots[0] == full && b.slots[b.opf + 1] == c
    requires EmptyBelow(b.slots, b.opf + 1) && InUse(b, c[0], 0)
    modifies b
    ensures b.Valid() && b.out == old(b.out) && b.fullest == if |c| == 1 then 0 else b.opf
    ensures b.slots[0] == [c[0]] + full && b.slots[b.opf + 1] == c[1..] && EmptyBelow(b.slots, b.opf + 1)
    ensures InUse(b, c[0], b.opf) && forall g, x: nat :: g != c[0] ==> (b.Allocated(g, x) <==> old(b.Allocated(g, x)))
  {
    assert Fresh(b.slots, b.opf);
    ghost var s := b.slots;
    ghost var f := Fill(b);
    forall i | 1 <= i < b.opf + 1 ensures b.slots[i] == [] { assert s[i] == []; }
  }

  /** A bin with one chunk of at least two folios, of which the first two are full. */
  method TwoFull(n: nat, c: seq<Folio>) returns (b: SmallBin)
    requires n > 0 && |c| > 1 && NoDup(c)
    ensures fresh(b) && b.Valid() && b.opf == n && b.out == {} && b.fullest == if |c| == 2 then 0 else n
    ensures b.slots[0] == [c[1], c[0]] && b.slots[n + 1] == c[2..] && EmptyBelow(b.slots, n + 1)
    ensures InUse(b, c[0], n) && InUse(b, c[1], n)
  {
    b := NewBin(n, c);
    assert c[1..][1..] == c[2..] && c[0] != c[1] && InUse(b, c[1], 0);
    FillNext(b, c, []);
    FillNext(b, c[1..], [c[0]]);
  }

  lemma MinusPair(x: Folio, y: Folio)
    requires x != y
    ensures Minus([x, y], y) == [x] && Minus([x], x) == []
  {
    assert [x, y][1..] == [y] && Minus([y], y) == [];
  }

  /** What three frees do to the lists. */
  lemma ThreeFrees(s: seq<seq<Folio>>, n: nat, x: Folio, y: Folio) returns (s1: seq<seq<Folio>>, s2: seq<seq<Folio>>)
    requires |s| == n + 2 && n > 1 && x != y && s[0] == [y, x] && EmptyBelow(s, n + 1)
    ensures s1 == Raised(s, x, 0, true) && x in s[0] && s[n] == []
    ensures s2 == Raised(s1, y, 0, true) && y in s1[0] && s1[n] == []
    ensures x in s2[1] && Repointed(s2, 1, x, 1) == 2 && s2[n] == []
    ensures var s3 := Raised(s2, x, 1, true); s3[1] == [y] && s3[2] == [x]
  {
    MinusPair(y, x);
    s1 := Raised(s, x, 0, true);
    assert s[1] == [] && s1[0] == [y] && s1[1] == [x];
    s2 := Raised(s1, y, 0, true);
    assert s2[1] == [y, x] && s2[2] == [];
  }

  /** With two objects or more per folio, a folio with one free object is passed over in favour of one with two: both
      have been full, each has had an object freed, and then one of them another. */
  method FullestIsPassedOver(n: nat, c: seq<Folio>) returns (b: SmallBin)
    requires n > 1 && |c| > 1 && NoDup(c)
    ensures fresh(b) && b.Valid() && b.opf == n && !b.Least()
    ensures b.slots[1] == [c[1]] && b.slots[2] == [c[0]] && b.fullest == 2
  {
    b := TwoFull(n, c);
    ghost var s1, s2 := ThreeFrees(b.slots, n, c[0], c[1]);
    Give(b, c[0], n - 1, 0);
    Give(b, c[1], n - 1, 0);
    Give(b, c[0], n - 2, 1);
    assert b.slots[1] != [];
  }

  /** What emptying two folios and filling the first again does to the lists. */
  lemma TwoDrains(s: seq<seq<Folio>>, n: nat, x: Folio, y: Folio) returns (s1: seq<seq<Folio>>, s2: seq<seq<Folio>>)
    requires |s| == n + 2 && n > 0 && x != y && s[0] == [y, x] && s[n + 1] == [] && EmptyBelow(s, n + 1)
    ensures s1 == Up(s, x, n) && EmptyBelow(s, n) && x in s[0] && s[n] == []
    ensures s2 == s1[0 := Minus(s1[0], y)] && EmptyBelow(s1, n) && y in s1[0] && s1[n] != []
    ensures Fresh(s2, n) && Source(s2, n) == n && Next(s2, n) == x && Moved(s2, n, 0)[n + 1] == []
  {
    MinusPair(y, x);
    s1 := Up(s, x, n);
    assert EmptyBelow(s1, n) by {
      forall i | 1 <= i < n ensures s1[i] == [] { assert s[i] == []; }
    }
    s2 := s1[0 := Minus(s1[0], y)];
    SameBelow(s1, s2, n);
  }

  /** Two folios are emptied and one of them goes out for madvise; the other is filled again. */
  method OneOut(n: nat, c: seq<Folio>) returns (b: SmallBin)
    requires n > 0 && |c| == 2 && NoDup(c)
    ensures fresh(b) && b.Valid() && b.opf == n && b.out == {c[1]} && b.fullest == 0 && b.slots[n + 1] == []
  {
    b := TwoFull(n, c);
    ghost var s1, s2 := TwoDrains(b.slots, n, c[0], c[1]);
    Drain(b, c[0]);
    Drain(b, c[1]);
    ghost var f := Fill(b);
  }

  /** A folio that comes back from madvise when all others are full is listed, and still an allocation finds nothing. */
  method UncommittedIsPassedOver(n: nat, c: seq<Folio>) returns (b: SmallBin, r: Option<(Folio, nat)>)
    requires n > 0 && |c| == 2 && NoDup(c)
    ensures fresh(b) && b.Valid() && b.opf == n && b.slots[n + 1] == [c[1]] && r == None
  {
    b := OneOut(n, c);
    b.PostMadvise(c[1]);
    r := b.Malloc();
  }
}
