/** What a least-recently-used cache holds after a sequence of requests: the segments requested last, the latest first.
    The list is described by the history of requests, and `Touched` is shown to follow it request by request. */
module LeastRecentlyUsed {
  import opened Prelude

  type Segment = nat

  /** When segment `s` was last requested; -1 if never. */
  ghost function LastUse(uses: seq<Segment>, s: Segment): (i: int)
    ensures -1 <= i < |uses| && (i >= 0 ==> uses[i] == s) && forall j :: i < j < |uses| ==> uses[j] != s
  {
    if uses == [] then -1
    else if uses[|uses| - 1] == s then |uses| - 1
    else LastUse(uses[..|uses| - 1], s)
  }

  ghost predicate Requested(uses: seq<Segment>, s: Segment) { LastUse(uses, s) >= 0 }

  /** `s` was requested after the last request of `x`. */
  ghost predicate Newer(uses: seq<Segment>, s: Segment, x: Segment) { LastUse(uses, s) > LastUse(uses, x) }

  ghost predicate NewestFirst(uses: seq<Segment>, l: seq<Segment>) {
    forall i, j :: 0 <= i < j < |l| ==> Newer(uses, l[i], l[j])
  }

  ghost predicate AllNewer(uses: seq<Segment>, l: seq<Segment>, s: Segment) { forall x :: x in l ==> Newer(uses, x, s) }

  /** `l` holds requested segments, the latest first, and leaves one out only for `max` that are newer. */
  ghost predicate Recent(uses: seq<Segment>, l: seq<Segment>, max: nat) {
    && |l| <= max && (forall s :: s in l ==> Requested(uses, s)) && NewestFirst(uses, l)
    && forall s :: Requested(uses, s) && s !in l ==> |l| == max && AllNewer(uses, l, s)
  }

  function Without1(l: seq<Segment>, s: Segment): seq<Segment> {
    if l == [] then [] else if l[0] == s then l[1..] else [l[0]] + Without1(l[1..], s)
  }

  /** One request: the segment goes to the front; a new one drives out the last if there are `max` already. */
  function Touched(l: seq<Segment>, s: Segment, max: nat): seq<Segment> {
    if s in l then [s] + Without1(l, s)
    else if |l| < max || |l| == 0 then [s] + l
    else [s] + l[..|l| - 1]
  }

  lemma {:induction false} Without1At(l: seq<Segment>, j: nat)
    requires j < |l| && forall i :: 0 <= i < j ==> l[i] != l[j]
    ensures Without1(l, l[j]) == l[..j] + l[j + 1..]
  {
    if j > 0 {
      Without1At(l[1..], j - 1);
      assert l[1..][j - 1] == l[j] && l[0] != l[j];
      assert l[..j] + l[j + 1..] == [l[0]] + (l[1..][..j - 1] + l[1..][j..]);
    }
  }

  // ----- the list follows the history

  lemma NextUse(uses: seq<Segment>, s: Segment, x: Segment)
    ensures LastUse(uses + [s], x) == if x == s then |uses| else LastUse(uses, x)
  {
    assert (uses + [s])[..|uses|] == uses;
  }

  /** A request changes nothing between other segments, and puts its own in front. */
  lemma NewerAfter(uses: seq<Segment>, s: Segment, x: Segment, y: Segment)
    ensures Requested(uses + [s], x) <==> x == s || Requested(uses, x)
    ensures y != s ==> (Newer(uses + [s], x, y) <==> x == s || Newer(uses, x, y))
  {
    NextUse(uses, s, x);
    NextUse(uses, s, y);
  }

  /** The request in front of what is left of the list. */
  lemma Fronted(uses: seq<Segment>, l: seq<Segment>, rest: seq<Segment>, s: Segment, max: nat)
    requires Recent(uses, l, max) && |rest| < max && s !in rest && NewestFirst(uses, rest)
    requires forall x :: x in rest ==> x in l
    requires forall x :: Requested(uses, x) && x != s && x !in rest ==> |rest| == max - 1 && AllNewer(uses, rest, x)
    ensures Recent(uses + [s], [s] + rest, max)
  {
    var uses', l' := uses + [s], [s] + rest;
    forall x | x in l' ensures Requested(uses', x) { NewerAfter(uses, s, x, x); }
    forall i, j | 0 <= i < j < |l'| ensures Newer(uses', l'[i], l'[j]) {
      assert l'[j] == rest[j - 1] && rest[j - 1] in rest;
      NewerAfter(uses, s, l'[i], l'[j]);
      if i > 0 { assert Newer(uses, rest[i - 1], rest[j - 1]); }
    }
    forall x | Requested(uses', x) && x !in l' ensures |l'| == max && AllNewer(uses', l', x) {
      assert s in l' && forall y :: y in rest ==> y in l';
      NewerAfter(uses, s, x, x);
      forall y | y in l' ensures Newer(uses', y, x) { NewerAfter(uses, s, y, x); }
    }
  }

  lemma Shorter(uses: seq<Segment>, l: seq<Segment>, j: nat)
    requires NewestFirst(uses, l) && j < |l|
    ensures NewestFirst(uses, l[..j] + l[j + 1..]) && l[j] !in l[..j] + l[j + 1..]
    ensures forall x :: x in l <==> x == l[j] || x in l[..j] + l[j + 1..]
  {
    var rest := l[..j] + l[j + 1..];
    forall a, b | 0 <= a < b < |rest| ensures Newer(uses, rest[a], rest[b]) {
      assert Newer(uses, l[if a < j then a else a + 1], l[if b < j then b else b + 1]);
    }
    forall a | 0 <= a < |rest| ensures rest[a] != l[j] {
      if a < j { assert Newer(uses, l[a], l[j]); } else { assert Newer(uses, l[j], l[a + 1]); }
    }
    assert l == l[..j] + [l[j]] + l[j + 1..];
  }

  lemma TouchedHit(uses: seq<Segment>, l: seq<Segment>, s: Segment, max: nat)
    requires Recent(uses, l, max) && s in l
    ensures Recent(uses + [s], Touched(l, s, max), max)
  {
    var j :| 0 <= j < |l| && l[j] == s;
    forall i | 0 <= i < j ensures l[i] != l[j] { assert Newer(uses, l[i], l[j]); }
    Without1At(l, j);
    Shorter(uses, l, j);
    Fronted(uses, l, l[..j] + l[j + 1..], s, max);
  }

  lemma TouchedFull(uses: seq<Segment>, l: seq<Segment>, s: Segment, max: nat)
    requires Recent(uses, l, max) && s !in l && |l| == max > 0
    ensures Recent(uses + [s], Touched(l, s, max), max)
  {
    var n := |l| - 1;
    Shorter(uses, l, n);
    assert l[..n] + l[n + 1..] == l[..n];
    forall x | x in l[..n] ensures Newer(uses, x, l[n]) {
      var i :| 0 <= i < n && l[i] == x;
      assert Newer(uses, l[i], l[n]);
    }
    Fronted(uses, l, l[..n], s, max);
  }

  /** Request by request, `Touched` keeps the list that the history describes. */
  lemma TouchedIsRecent(uses: seq<Segment>, l: seq<Segment>, s: Segment, max: nat)
    requires Recent(uses, l, max) && max > 0
    ensures Recent(uses + [s], Touched(l, s, max), max)
  {
    if s in l {
      TouchedHit(uses, l, s, max);
    } else if |l| == max {
      TouchedFull(uses, l, s, max);
    } else {
      Fronted(uses, l, l, s, max);
    }
  }

  // ----- what the history says about one segment

  /** The segments requested after the last request of `s`. */
  ghost function Since(uses: seq<Segment>, s: Segment): (r: set<Segment>)
    ensures forall x :: x in r <==> Newer(uses, x, s)
  {
    set x | x in uses && Newer(uses, x, s)
  }

  ghost function Members(l: seq<nat>): (r: set<nat>)
    ensures forall x :: x in r <==> x in l
  {
    set x | x in l
  }

  lemma {:induction false} MembersCount(l: seq<nat>)
    ensures |Members(l)| <= |l|
    ensures NoDup(l) ==> |Members(l)| == |l|
  {
    if l != [] {
      var n := |l| - 1;
      assert l == l[..n] + [l[n]];
      MembersCount(l[..n]);
      assert Members(l) == Members(l[..n]) + {l[n]};
    }
  }

  lemma NewestFirstIsNoDup(uses: seq<Segment>, l: seq<Segment>)
    requires NewestFirst(uses, l)
    ensures NoDup(l)
  {
    forall i, j | 0 <= i < j < |l| ensures l[i] != l[j] { assert Newer(uses, l[i], l[j]); }
  }

  /** A requested segment is on the list exactly if fewer than `max` others have been requested since. */
  lemma RecentIff(uses: seq<Segment>, l: seq<Segment>, s: Segment, max: nat)
    requires Recent(uses, l, max) && Requested(uses, s)
    ensures s in l <==> |Since(uses, s)| < max
  {
    if s in l {
      forall x | x in Since(uses, s) ensures x in l { assert Requested(uses, x); }
      MembersCount(l);
      SubsetSize(Since(uses, s) + {s}, Members(l));
      assert |Since(uses, s) + {s}| == |Since(uses, s)| + 1;
    } else {
      NewestFirstIsNoDup(uses, l);
      MembersCount(l);
      SubsetSize(Members(l), Since(uses, s));
    }
  }

  /** Lists with the same members have the same first element, the newest. */
  lemma FirstSame(uses: seq<Segment>, l: seq<Segment>, l': seq<Segment>)
    requires NewestFirst(uses, l) && NewestFirst(uses, l') && l != [] && l' != [] && l[0] in l' && l'[0] in l
    ensures l[0] == l'[0]
  {
    var i :| 0 <= i < |l'| && l'[i] == l[0];
    var j :| 0 <= j < |l| && l[j] == l'[0];
    assert i > 0 ==> Newer(uses, l'[0], l'[i]);
    assert j > 0 ==> Newer(uses, l[0], l[j]);
  }

  lemma TailOf(uses: seq<Segment>, l: seq<Segment>)
    requires NewestFirst(uses, l) && l != []
    ensures NewestFirst(uses, l[1..]) && forall x :: x in l[1..] <==> x in l && x != l[0]
  {
    Shorter(uses, l, 0);
    assert l[..0] + l[1..] == l[1..];
  }

  lemma {:induction false} SortedSame(uses: seq<Segment>, l: seq<Segment>, l': seq<Segment>)
    requires NewestFirst(uses, l) && NewestFirst(uses, l') && forall s :: s in l <==> s in l'
    ensures l == l'
  {
    assert (l != [] ==> l[0] in l') && (l' != [] ==> l'[0] in l);
    if l != [] {
      FirstSame(uses, l, l');
      TailOf(uses, l);
      TailOf(uses, l');
      SortedSame(uses, l[1..], l'[1..]);
      assert l == [l[0]] + l[1..] && l' == [l'[0]] + l'[1..];
    }
  }

  /** The history determines the list. */
  lemma RecentIsUnique(uses: seq<Segment>, l: seq<Segment>, l': seq<Segment>, max: nat)
    requires Recent(uses, l, max) && Recent(uses, l', max)
    ensures l == l'
  {
    forall s ensures s in l <==> s in l' {
      if Requested(uses, s) {
        RecentIff(uses, l, s, max);
        RecentIff(uses, l', s, max);
      }
    }
    SortedSame(uses, l, l');
  }
}
