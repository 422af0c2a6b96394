/** One bin of the small-object allocator (memory/small_malloc.cpp: `do_small_malloc`, `do_small_free`,
    `small_free_post_madvise`, `do_small_malloc_add_pages_from_new_chunk`).

    Folios are kept in lists by their number of free objects; a bitmap per folio says which objects are in use;
    `fullest` says where to allocate next.  Each method is one `atomically` body. */
module SmallMalloc {
  import opened LinkedLists
  import opened Prelude

  /** The address of a `per_folio`. */
  type Folio = Node

  /** A 64-bit bitmap word, as the set of its one bits. */
  type Word = set<nat>

  const WORD_BITS: nat := 64

  function Below(n: nat): (r: set<nat>)
    ensures (forall b: nat :: b in r <==> b < n) && |r| == n
  {
    if n == 0 then {} else Below(n - 1) + {n - 1}
  }

  /** `__builtin_ctzl(~w)`: the lowest zero bit. */
  function LowestZero(w: Word, from: nat): (b: nat)
    requires exists z: nat :: from <= z && z !in w
    ensures b !in w && from <= b && forall x :: from <= x < b ==> x in w
    decreases |w - Below(from)|
  {
    if from !in w then from else
      assert w - Below(from + 1) < w - Below(from) by { assert from in w - Below(from); }
      SubsetSize(w - Below(from + 1), w - Below(from));
      LowestZero(w, from + 1)
  }

  /** `w == UINT64_MAX`. */
  predicate Full(w: Word) {
    forall b: nat :: b < WORD_BITS ==> b in w
  }

  lemma SizeIs(w: Word, n: nat)
    requires forall b: nat :: b in w <==> b < n
    ensures |w| == n
  {
    assert w == Below(n);
  }

  /** The number of one bits in a bitmap. */
  ghost function Count(ws: seq<Word>): nat {
    if ws == [] then 0 else Count(ws[..|ws| - 1]) + |ws[|ws| - 1]|
  }

  ghost predicate Has(ws: seq<Word>, i: nat) {
    i / WORD_BITS < |ws| && i % WORD_BITS in ws[i / WORD_BITS]
  }

  ghost predicate WordOk(ws: seq<Word>, w: nat)
    requires w < |ws|
  {
    forall b :: b in ws[w] ==> b < WORD_BITS
  }

  /** The words a bin with `opf` objects per folio uses hold no bit for an object it does not have. */
  ghost predicate BitsOk(ws: seq<Word>, opf: nat) {
    && |ws| == (opf + 63) / WORD_BITS
    && (forall w :: 0 <= w < |ws| ==> WordOk(ws, w))
    && (forall i: nat :: Has(ws, i) ==> i < opf)
  }

  lemma {:induction false} CountUpdate(ws: seq<Word>, w: nat, v: Word)
    requires w < |ws|
    ensures Count(ws[w := v]) == Count(ws) - |ws[w]| + |v|
  {
    var n := |ws| - 1;
    if w == n {
      assert ws[w := v][..n] == ws[..n];
    } else {
      CountUpdate(ws[..n], w, v);
      assert ws[w := v][..n] == ws[..n][w := v];
    }
  }

  /** Full words up to `w` count 64 each. */
  lemma {:induction false} CountFull(ws: seq<Word>, w: nat)
    requires w <= |ws| && forall x :: 0 <= x < w ==> Full(ws[x]) && WordOk(ws, x)
    ensures Count(ws[..w]) == WORD_BITS * w
  {
    if w > 0 {
      CountFull(ws, w - 1);
      assert ws[..w][..w - 1] == ws[..w - 1];
      SizeIs(ws[w - 1], WORD_BITS);
    }
  }

  lemma {:induction false} CountPrefix(ws: seq<Word>, w: nat)
    requires w <= |ws|
    ensures Count(ws[..w]) <= Count(ws)
    decreases |ws|
  {
    if w == |ws| {
      assert ws[..w] == ws;
    } else {
      var n := |ws| - 1;
      CountPrefix(ws[..n], w);
      assert ws[..n][..w] == ws[..w];
    }
  }

  lemma CountSnoc(ws: seq<Word>, w: nat)
    requires w < |ws|
    ensures Count(ws[..w + 1]) == Count(ws[..w]) + |ws[w]|
  {
    assert ws[..w + 1][..w] == ws[..w];
  }

  /** The first word that is not full, after full ones: its lowest zero bit is an object of the folio. */
  lemma ZeroBitFits(ws: seq<Word>, opf: nat, w: nat, b: nat)
    requires BitsOk(ws, opf) && Count(ws) < opf && w < |ws| && !Full(ws[w])
    requires forall x :: 0 <= x < w ==> Full(ws[x])
    requires b !in ws[w] && forall x :: 0 <= x < b ==> x in ws[w]
    ensures b < WORD_BITS && WORD_BITS * w + b < opf
  {
    CountFull(ws, w);
    CountSnoc(ws, w);
    CountPrefix(ws, w + 1);
    SubsetSize(Below(b), ws[w]);
  }

  /** Not every word can be full. */
  lemma SomeZeroBit(ws: seq<Word>, opf: nat)
    requires BitsOk(ws, opf) && Count(ws) < opf
    ensures exists x :: 0 <= x < |ws| && !Full(ws[x])
  {
    assert ws[..|ws|] == ws;
    if forall x :: 0 <= x < |ws| ==> Full(ws[x]) {
      CountFull(ws, |ws|);
    }
  }

  lemma BitSet(ws: seq<Word>, opf: nat, i: nat)
    requires BitsOk(ws, opf) && i < opf && !Has(ws, i) && i / WORD_BITS < |ws|
    ensures var w := i / WORD_BITS; var ws' := ws[w := ws[w] + {i % WORD_BITS}];
      && BitsOk(ws', opf) && Count(ws') == Count(ws) + 1 && forall x: nat :: Has(ws', x) <==> Has(ws, x) || x == i
  {
    var w := i / WORD_BITS;
    var ws' := ws[w := ws[w] + {i % WORD_BITS}];
    CountUpdate(ws, w, ws'[w]);
    forall x | 0 <= x < |ws'| ensures WordOk(ws', x) { assert WordOk(ws, x); }
    forall x: nat ensures Has(ws', x) <==> Has(ws, x) || x == i {}
  }

  lemma BitCleared(ws: seq<Word>, opf: nat, i: nat)
    requires BitsOk(ws, opf) && Has(ws, i)
    ensures var w := i / WORD_BITS; var ws' := ws[w := ws[w] - {i % WORD_BITS}];
      && BitsOk(ws', opf) && Count(ws') == Count(ws) - 1 && forall x: nat :: Has(ws', x) <==> Has(ws, x) && x != i
  {
    var w := i / WORD_BITS;
    var ws' := ws[w := ws[w] - {i % WORD_BITS}];
    CountUpdate(ws, w, ws'[w]);
    forall x | 0 <= x < |ws'| ensures WordOk(ws', x) { assert WordOk(ws, x); }
    forall x: nat ensures Has(ws', x) <==> Has(ws, x) && x != i {}
  }

  /** The bitmap search: the lowest object not in use.  There is one, so the search never runs out of words. */
  method FindZero(ws: seq<Word>, opf: nat) returns (w: nat, b: nat)
    requires BitsOk(ws, opf) && Count(ws) < opf
    ensures w < |ws| && b < WORD_BITS && WORD_BITS * w + b < opf && b !in ws[w]
    ensures forall i: nat :: i < WORD_BITS * w + b ==> Has(ws, i)
  {
    w := 0;
    SomeZeroBit(ws, opf);
    while Full(ws[w])
      invariant 0 <= w < |ws| && forall x :: 0 <= x < w ==> Full(ws[x])
      decreases |ws| - w
    {
      w := w + 1;
      assert w < |ws|;
    }
    b := LowestZero(ws[w], 0);
    ZeroBitFits(ws, opf, w, b);
    forall i: nat | i < WORD_BITS * w + b ensures Has(ws, i) {
      if i / WORD_BITS < w { assert Full(ws[i / WORD_BITS]); }
    }
  }

  /** The popcount loop. */
  method CountBits(ws: seq<Word>) returns (n: nat)
    ensures n == Count(ws)
  {
    n := 0;
    for i := 0 to |ws|
      invariant n == Count(ws[..i])
    {
      CountSnoc(ws, i);
      n := n + |ws[i]|;
    }
    assert ws[..|ws|] == ws;
  }

  lemma HasCounts(ws: seq<Word>, i: nat)
    requires Has(ws, i)
    ensures Count(ws) > 0
  {
    var w := i / WORD_BITS;
    CountSnoc(ws, w);
    CountPrefix(ws, w + 1);
    assert |ws[w]| > 0;
  }

  ghost predicate EmptyBits(ws: seq<Word>, opf: nat) {
    |ws| == (opf + 63) / WORD_BITS && forall w :: 0 <= w < |ws| ==> ws[w] == {}
  }

  method ZeroWords(n: nat) returns (ws: seq<Word>)
    ensures |ws| == n && forall w :: 0 <= w < n ==> ws[w] == {}
  {
    ws := [];
    for w := 0 to n
      invariant |ws| == w && forall x :: 0 <= x < w ==> ws[x] == {}
    {
      ws := ws + [{}];
    }
  }

  lemma {:induction false} NoBits(ws: seq<Word>)
    requires forall w :: 0 <= w < |ws| ==> ws[w] == {}
    ensures Count(ws) == 0
  {
    if ws != [] { NoBits(ws[..|ws| - 1]); }
  }

  lemma EmptyOk(ws: seq<Word>, opf: nat)
    requires EmptyBits(ws, opf)
    ensures BitsOk(ws, opf) && Count(ws) == 0 && forall i: nat :: !Has(ws, i)
  {
    NoBits(ws);
    forall w | 0 <= w < |ws| ensures WordOk(ws, w) {}
  }

  lemma MinusNotEmpty(l: seq<Folio>, f: Folio)
    requires |l| > 0 && l[|l| - 1] != f
    ensures Minus(l, f) != []
  {
  }

  /** A list without one of its nodes. */
  ghost function Minus(l: seq<Folio>, f: Folio): seq<Folio> {
    if l == [] then [] else if l[0] == f then l[1..] else [l[0]] + Minus(l[1..], f)
  }

  lemma {:induction false} MinusAt(l: seq<Folio>, m: nat)
    requires NoDup(l) && m < |l|
    ensures Minus(l, l[m]) == Without(l, m)
  {
    if m > 0 {
      assert l[0] != l[m];
      MinusAt(l[1..], m - 1);
      assert Without(l, m) == [l[0]] + Without(l[1..], m - 1);
    }
  }

  /** The lists from the first up to `n`, without either end, are empty. */
  ghost predicate EmptyBelow(s: seq<seq<Folio>>, n: nat)
    requires n <= |s|
  {
    forall i :: 1 <= i < n ==> s[i] == []
  }

  /** The only folios with room are uncommitted ones. */
  ghost predicate OnlyLoose(s: seq<seq<Folio>>)
    requires |s| > 1
  {
    EmptyBelow(s, |s| - 1) && s[|s| - 1] != []
  }

  /** Only what is below counts. */
  lemma SameBelow(s: seq<seq<Folio>>, s': seq<seq<Folio>>, n: nat)
    requires n <= |s| == |s'| && forall i :: 1 <= i < n ==> s[i] == s'[i]
    ensures EmptyBelow(s, n) <==> EmptyBelow(s', n)
  {
  }

  /** `fullest` is in range, and 0 only if no committed folio has room; else there is a folio to allocate from. */
  ghost predicate Points(s: seq<seq<Folio>>, fullest: nat) {
    && fullest + 2 <= |s|
    && if fullest == 0 then EmptyBelow(s, |s| - 1) else s[fullest] != [] || (fullest + 2 == |s| && s[fullest + 1] != [])
  }

  /** The list the next object comes from. */
  ghost function Source(s: seq<seq<Folio>>, fullest: nat): (i: nat)
    requires Points(s, fullest) && fullest > 0
    ensures fullest <= i < |s| && s[i] != []
  {
    if s[fullest] == [] then fullest + 1 else fullest
  }

  /** The lists after the next folio has moved down to the list below `fullest`. */
  ghost function Lowered(s: seq<seq<Folio>>, fullest: nat): seq<seq<Folio>>
    requires Points(s, fullest) && fullest > 0
  {
    var i := Source(s, fullest);
    s[i := s[i][1..]][fullest - 1 := [s[i][0]] + s[fullest - 1]]
  }

  /** The lists after folio `f` has left list `i`, for the list above if `up`. */
  ghost function Raised(s: seq<seq<Folio>>, f: Folio, i: nat, up: bool): seq<seq<Folio>>
    requires i + 1 < |s|
  {
    var s' := s[i := Minus(s[i], f)];
    if up then s'[i + 1 := [f] + s[i + 1]] else s'
  }

  /** Where `fullest` points after a free in folio `f` of list `i`. */
  ghost function Repointed(s: seq<seq<Folio>>, fullest: nat, f: Folio, i: nat): nat
    requires i < |s|
  {
    if i == 0 || (fullest == i && s[i] != [] && s[i][|s[i]| - 1] == f) then i + 1 else fullest
  }

  /** The folio at hand. */
  ghost function Next(s: seq<seq<Folio>>, fullest: nat): Folio
    requires Points(s, fullest) && fullest > 0
  {
    s[Source(s, fullest)][0]
  }

  /** A folio that moves up leaves lists below the new `fullest` empty unless it was the last of several in the old
      one. */
  lemma RaisedLists(s: seq<seq<Folio>>, fullest: nat, f: Folio, i: nat)
    requires Points(s, fullest) && i + 2 < |s| && f in s[i] && |Minus(s[i], f)| == |s[i]| - 1
    requires fullest != i ==> f !in s[fullest]
    ensures var n, top := Repointed(s, fullest, f, i), |s| - 2;
      var s' := Raised(s, f, i, i + 1 < top || s[top] == []);
      && 0 < n <= top
      && (EmptyBelow(s, fullest) ==> (EmptyBelow(s', n) <==>
            !(fullest > 0 && |s[fullest]| > 1 && s[fullest][|s[fullest]| - 1] == f)))
      && (s'[n] != [] <==> (fullest > 0 ==> s[fullest] != []) || i == 0 || i + 1 == top)
  {
    var s' := Raised(s, f, i, i + 1 < |s| - 2 || s[|s| - 2] == []);
    if i == 0 {
    } else if fullest < i {
      SameBelow(s, s', fullest);
    } else if fullest == i {
      SameBelow(s, s', i);
      assert EmptyBelow(s', i + 1) <==> EmptyBelow(s', i) && s'[i] == [];
    } else {
      assert s[i] != [] && !EmptyBelow(s, fullest);
    }
  }

  lemma LastIs(l: seq<Folio>, m: nat)
    requires NoDup(l) && m < |l|
    ensures m == |l| - 1 <==> l[m] == l[|l| - 1]
  {
  }

  // ----- the bin

  class SmallBin {
    /** `objects_per_folio`. */
    const opf: nat

    /** Heads of slots `0..opf + 1`, the slot to allocate from, and the fields of all folios. */
    var lists: seq<Option<Folio>>
    var fullest: nat
    var next: map<Folio, Option<Folio>>
    var prev: map<Folio, Option<Folio>>
    var inuse: map<Folio, seq<Word>>

    /** What the lists stand for, the slot each listed folio is in, and the folios out for madvise. */
    ghost var slots: seq<seq<Folio>>
    ghost var place: map<Folio, nat>
    ghost var out: set<Folio>

    /** The list of uncommitted folios, which is loose. */
    ghost function Loose(): int { opf + 1 }

    ghost function Pointers(): Links
      reads `lists, `next, `prev
    {
      Links(lists, next, prev)
    }

    /** The pointers form the lists. */
    ghost predicate Shape()
      reads `lists, `next, `prev, `slots, `place
    {
      0 < opf && |slots| == opf + 2 && Lists(Pointers(), slots, place, Loose())
    }

    /** Every folio is in a list or out for madvise, and not both. */
    ghost predicate Housed()
      reads `inuse, `place, `out
    {
      (forall f :: f in out ==> f !in place) && (forall f :: f in inuse <==> f in place || f in out)
    }

    /** A folio in slot `i` has `opf - i` objects in use; an uncommitted one has none. */
    ghost predicate FolioOk(f: Folio)
      requires f in inuse
      reads `inuse, `place
    {
      && BitsOk(inuse[f], opf)
      && Count(inuse[f]) == if f in place && place[f] <= opf then opf - place[f] else 0
    }

    ghost predicate Counted()
      reads `inuse, `place
    {
      forall f :: f in inuse ==> FolioOk(f)
    }

    /** `fullest` is 0 only if no folio in use has room; otherwise there is a folio to allocate from. */
    ghost predicate FullestOk()
      requires |slots| == opf + 2
      reads `slots, `fullest
    {
      Points(slots, fullest)
    }

    ghost predicate Valid()
      reads this
    {
      Shape() && Housed() && Counted() && FullestOk()
    }

    // ----- what the comment on `fullest_offset` and the checker promise

    /** No list below `fullest` has a folio. */
    ghost predicate Least()
      requires |slots| == opf + 2 && fullest <= opf
      reads `slots, `fullest
    {
      EmptyBelow(slots, fullest)
    }

    /** The list that `fullest` names has a folio. */
    ghost predicate Named()
      requires |slots| == opf + 2 && fullest <= opf
      reads `slots, `fullest
    {
      fullest > 0 ==> slots[fullest] != []
    }

    /** `fullest` is 0 only if there is no folio with room at all, committed or not. */
    ghost predicate Prompt()
      requires |slots| == opf + 2
      reads `slots, `fullest
    {
      fullest == 0 ==> slots[opf + 1] == []
    }

    /** What the checker asserts of `fullest`. */
    ghost predicate Checked()
      requires |slots| == opf + 2
      reads `slots, `fullest
    {
      if fullest == 0 then forall i :: 1 <= i <= opf ==> slots[i] == []
      else fullest <= opf && slots[fullest] != [] && forall i :: 1 <= i < fullest ==> slots[i] == []
    }

    /** Given the invariant, two of the things the checker asserts can fail. */
    lemma CheckedIff()
      requires Valid()
      ensures Checked() <==> Least() && Named()
    {
      assert fullest == 0 ==> EmptyBelow(slots, opf + 1);
    }

    /** When there is no answer, no listed folio has room, unless `Prompt` fails. */
    lemma NullIff()
      requires Valid() && fullest == 0
      ensures Prompt() <==> forall f :: f in place ==> place[f] == 0
    {
      if Prompt() {
        forall f | f in place ensures place[f] == 0 {
          assert SlotAt(Pointers(), slots, place, place[f], Loose());
          assert f in slots[place[f]];
        }
      } else {
        assert SlotAt(Pointers(), slots, place, opf + 1, Loose()) && slots[opf + 1][0] in slots[opf + 1];
      }
    }

    /** No listed folio with room has fewer free objects than `f`, which is uncommitted only if all of them are. */
    ghost predicate IsFullest(f: Folio)
      reads `place
    {
      f in place && place[f] > 0 && forall g :: g in place && place[g] > 0 ==> place[f] <= place[g]
    }

    /** The last folio of list `fullest`, and not the only one. */
    ghost predicate LastOfMany(f: Folio)
      requires |slots| == opf + 2 && fullest <= opf
      reads `slots, `fullest
    {
      fullest > 0 && |slots[fullest]| > 1 && slots[fullest][|slots[fullest]| - 1] == f
    }

    /** The next object comes from the fullest folio with room exactly if no list below `fullest` has a folio. */
    lemma SourceIsFullest()
      requires Shape() && FullestOk() && fullest > 0
      ensures IsFullest(Next(slots, fullest)) <==> Least()
    {
      var i, f := Source(slots, fullest), Next(slots, fullest);
      assert SlotAt(Pointers(), slots, place, i, Loose()) && f in slots[i];
      if Least() {
        forall g | g in place && place[g] > 0 ensures place[f] <= place[g] {
          assert SlotAt(Pointers(), slots, place, place[g], Loose());
          assert g in slots[place[g]];
        }
      } else {
        var j :| 1 <= j < fullest && slots[j] != [];
        assert SlotAt(Pointers(), slots, place, j, Loose()) && slots[j][0] in slots[j];
      }
    }

    ghost predicate Allocated(f: Folio, i: nat)
      reads `inuse
    {
      f in inuse && Has(inuse[f], i)
    }

    /** The lowest object of folio `f` that is not in use. */
    ghost predicate LowestFree(f: Folio, i: nat)
      reads `inuse
    {
      i < opf && !Allocated(f, i) && forall x: nat :: x < i ==> Allocated(f, x)
    }

    constructor (n: nat)
      requires n > 0
      ensures Valid() && opf == n && forall f, i: nat :: !Allocated(f, i)
      ensures fullest == 0 && inuse == map[] && slots == seq(n + 2, _ => []) && out == {}
    {
      opf := n;
      lists := seq(n + 2, _ => None);
      fullest := 0;
      next, prev, inuse := map[], map[], map[];
      slots, place, out := seq(n + 2, _ => []), map[], {};
      new;
      forall i | 0 <= i < |slots| ensures SlotAt(Pointers(), slots, place, i, Loose()) {}
    }

    /** Take the head off list `i`. */
    method TakeHead(i: nat) returns (f: Folio)
      requires Lists(Pointers(), slots, place, Loose()) && i < |slots| && lists[i].Some?
      modifies `lists, `prev, `slots, `place
      ensures Lists(Pointers(), slots, place, Loose()) && Get(prev, f) == None
      ensures |old(slots[i])| > 0 && f == old(slots[i])[0] && f in old(place) && old(place[f]) == i
      ensures slots == old(slots)[i := old(slots[i])[1..]] && place == old(place) - {f}
    {
      PopOk(Pointers(), slots, place, Loose(), i);
      assert SlotAt(Pointers(), slots, place, i, Loose()) && slots[i][0] in slots[i];
      f := lists[i].value;
      var after := Get(next, f);
      lists := lists[i := after];
      if after.Some? { prev := prev[after.value := None]; }
      slots, place := slots[i := slots[i][1..]], place - {f};
    }

    /** Put a folio whose `prev` is null in front of list `i`. */
    method PutFront(i: nat, f: Folio)
      requires Lists(Pointers(), slots, place, Loose()) && i < |slots| && f !in place && Get(prev, f) == None
      modifies `lists, `next, `prev, `slots, `place
      ensures Lists(Pointers(), slots, place, Loose())
      ensures slots == old(slots)[i := [f] + old(slots[i])] && place == old(place)[f := i]
    {
      PushOk(Pointers(), slots, place, Loose(), i, f);
      var head := lists[i];
      next := next[f := head];
      if head.Some? { prev := prev[head.value := Some(f)]; }
      lists := lists[i := Some(f)];
      slots, place := slots[i := [f] + slots[i]], place[f := i];
    }

    /** The slot to take a folio from; it is never empty. */
    method PickSlot() returns (fetch: nat)
      requires Shape() && FullestOk() && fullest > 0
      ensures fetch == fullest || (fullest == opf && fetch == opf + 1)
      ensures fetch == Source(slots, fullest) && lists[fetch].Some?
    {
      fetch := fullest;
      assert SlotAt(Pointers(), slots, place, fetch, Loose());
      if fullest == opf && lists[fetch] == None {
        fetch := fetch + 1;
        assert SlotAt(Pointers(), slots, place, fetch, Loose());
      }
    }

    /** Take the folio to allocate from and put it one slot lower. */
    method MoveDown() returns (f: Folio)
      requires Shape() && FullestOk() && fullest > 0
      modifies `lists, `next, `prev, `slots, `place
      ensures Shape() && f in old(place) && place == old(place)[f := fullest - 1]
      ensures old(place[f]) == fullest || (fullest == opf && old(place[f]) == opf + 1)
      ensures slots == Lowered(old(slots), old(fullest)) && f == Next(old(slots), old(fullest))
    {
      var fetch := PickSlot();
      f := TakeHead(fetch);
      PutFront(fullest - 1, f);
      assert place == old(place)[f := fullest - 1];
    }

    /** Work out the new `fullest` after a folio has moved from slot `fullest` to the slot below. */
    method LowerFullest()
      requires Shape() && 0 < fullest <= opf && slots[fullest - 1] != []
      modifies `fullest
      ensures FullestOk() && Prompt() && (Named() <==> !(old(fullest) == 1 && OnlyLoose(slots)))
      ensures if old(fullest) > 1 then fullest == old(fullest) - 1 else Least()
    {
      if fullest > 1 {
        fullest := fullest - 1;
      } else {
        var use, i := 0, 1;
        while i < opf + 2
          invariant 1 <= i <= opf + 2 && use == 0
          invariant forall j :: 1 <= j < i ==> slots[j] == []
        {
          assert SlotAt(Pointers(), slots, place, i, Loose());
          if lists[i].Some? {
            use := if i == opf + 1 then opf else i;
            break;
          }
          i := i + 1;
        }
        fullest := use;
      }
    }

    /** The next folio moves down, and `fullest` follows. */
    method Lower() returns (f: Folio)
      requires Shape() && FullestOk() && fullest > 0
      modifies `lists, `next, `prev, `slots, `place, `fullest
      ensures Shape() && FullestOk() && f in old(place) && place == old(place)[f := old(fullest) - 1]
      ensures old(place[f]) == old(fullest) || (old(fullest) == opf && old(place[f]) == opf + 1)
      ensures slots == Lowered(old(slots), old(fullest)) && f == Next(old(slots), old(fullest))
      ensures old(IsFullest(f)) <==> old(Least())
      ensures Prompt() && (old(Least()) ==> Least()) && (Named() <==> !(old(fullest) == 1 && OnlyLoose(slots)))
      ensures if old(fullest) > 1 then fullest == old(fullest) - 1 else Least()
    {
      SourceIsFullest();
      f := MoveDown();
      LowerFullest();
      if fullest + 1 == old(fullest) { SameBelow(slots, old(slots), fullest); }
    }

    /** The list half of an allocation: the folio to allocate from is one slot lower and all else is in order. */
    method Reslot() returns (f: Folio)
      requires Valid() && fullest > 0
      modifies `lists, `next, `prev, `slots, `place, `fullest
      ensures Shape() && Housed() && FullestOk() && f in inuse && f in place && place[f] < opf
      ensures BitsOk(inuse[f], opf) && Count(inuse[f]) == opf - place[f] - 1
      ensures forall g :: g in inuse && g != f ==> FolioOk(g)
      ensures slots == Lowered(old(slots), old(fullest)) && f == Next(old(slots), old(fullest))
      ensures old(IsFullest(f)) <==> old(Least())
      ensures Prompt() && (old(Least()) ==> Least()) && (Named() <==> !(old(fullest) == 1 && OnlyLoose(slots)))
      ensures if old(fullest) > 1 then fullest == old(fullest) - 1 else Least()
    {
      f := Lower();
      assert old(FolioOk(f));
      forall g | g in inuse && g != f ensures FolioOk(g) { assert old(FolioOk(g)); }
    }

    /** Claim the lowest object not in use of folio `f`, which is already one slot lower. */
    method SetBit(f: Folio) returns (i: nat)
      requires f in inuse && f in place && place[f] < opf
      requires BitsOk(inuse[f], opf) && Count(inuse[f]) == opf - place[f] - 1
      requires forall g :: g in inuse && g != f ==> FolioOk(g)
      modifies `inuse
      ensures Counted() && inuse.Keys == old(inuse.Keys) && old(LowestFree(f, i))
      ensures forall g, x: nat :: Allocated(g, x) <==> old(Allocated(g, x)) || (g == f && x == i)
    {
      var ws := inuse[f];
      var w, b := FindZero(ws, opf);
      i := WORD_BITS * w + b;
      assert i / WORD_BITS == w && i % WORD_BITS == b;
      BitSet(ws, opf, i);
      inuse := inuse[f := ws[w := ws[w] + {b}]];
      forall g | g in inuse && g != f ensures FolioOk(g) { assert old(FolioOk(g)); }
    }

    /** The lowest object not in use of the folio at hand becomes allocated. */
    method Allocate() returns (f: Folio, i: nat)
      requires Valid() && fullest > 0
      modifies this
      ensures Valid() && out == old(out) && inuse.Keys == old(inuse.Keys) && f in inuse && old(LowestFree(f, i))
      ensures forall g, x: nat :: Allocated(g, x) <==> old(Allocated(g, x)) || (g == f && x == i)
      ensures slots == Lowered(old(slots), old(fullest)) && f == Next(old(slots), old(fullest))
      ensures (old(IsFullest(f)) <==> old(Least())) && Prompt() && (old(Least()) ==> Least())
      ensures Named() <==> !(old(fullest) == 1 && OnlyLoose(slots))
      ensures if old(fullest) > 1 then fullest == old(fullest) - 1 else Least()
    {
      f := Reslot();
      i := SetBit(f);
    }

    /** `do_small_malloc`: nothing when `fullest` is 0; otherwise an object that was not in use, and no other
        object changes.  It is the lowest one of the folio at hand, and that is the fullest folio with room exactly if
        no list below `fullest` has a folio. */
    method Malloc() returns (r: Option<(Folio, nat)>)
      requires Valid()
      modifies this
      ensures Valid() && out == old(out) && inuse.Keys == old(inuse.Keys)
      ensures r.None? <==> old(fullest) == 0
      ensures r.None? ==> inuse == old(inuse) && slots == old(slots) && fullest == 0
      ensures r.Some? ==> r.value.0 in inuse && old(LowestFree(r.value.0, r.value.1))
      ensures forall f, i: nat :: Allocated(f, i) <==> old(Allocated(f, i)) || r == Some((f, i))
      ensures r.Some? ==> (old(IsFullest(r.value.0)) <==> old(Least()))
      ensures r.Some? ==> r.value.0 == Next(old(slots), old(fullest)) && slots == Lowered(old(slots), old(fullest))
      ensures if old(fullest) > 1 then fullest == old(fullest) - 1 else Least()
      ensures (old(Least()) ==> Least()) && (Prompt() <==> old(Prompt()))
      ensures Named() <==> !(old(fullest) == 1 && OnlyLoose(Lowered(old(slots), 1)))
    {
      if fullest == 0 { return None; }
      var f, i := Allocate();
      r := Some((f, i));
    }

    /** Unlink folio `f` from list `i`. */
    method TakeOut(i: nat, f: Folio, ghost m: nat)
      requires Shape() && i <= opf && m < |slots[i]| && f == slots[i][m]
      modifies `lists, `next, `prev, `slots, `place
      ensures Shape() && slots == old(slots)[i := Without(old(slots[i]), m)] && place == old(place) - {f}
    {
      UnlinkOk(Pointers(), slots, place, Loose(), i, m);
      assert SlotAt(Pointers(), slots, place, i, Loose());
      assert NextAt(Pointers(), slots[i], m) && PrevAt(Pointers(), slots[i], m);
      var after, before := Get(next, f), Get(prev, f);
      if before == None {
        assert lists[i] == Some(f);
        lists := lists[i := after];
      } else {
        next := next[before.value := after];
      }
      if after.Some? { prev := prev[after.value := before]; }
      slots, place := slots[i := Without(slots[i], m)], place - {f};
    }

    /** `pp->prev = NULL` for a folio in no list, and then to the front of list `i`. */
    method PutBack(i: nat, f: Folio)
      requires Shape() && i < |slots| && f !in place
      modifies `lists, `next, `prev, `slots, `place
      ensures Shape() && slots == old(slots)[i := [f] + old(slots[i])] && place == old(place)[f := i]
    {
      OutsideOk(Pointers(), slots, place, Loose(), f, None, None);
      prev := prev[f := None];
      PutFront(i, f);
    }

    /** Unlink the folio from its slot `i`; say whether it was not the last there. */
    method TakeFrom(f: Folio, i: nat) returns (more: bool)
      requires Shape() && f in place && place[f] == i < opf
      modifies `lists, `next, `prev, `slots, `place
      ensures Shape() && place == old(place) - {f} && slots == Raised(old(slots), f, i, false)
      ensures f in old(slots[i]) && (more <==> old(slots[i])[|old(slots[i])| - 1] != f)
    {
      assert SlotAt(Pointers(), slots, place, i, Loose());
      ghost var m :| 0 <= m < |slots[i]| && slots[i][m] == f;
      assert NextAt(Pointers(), slots[i], m);
      LastIs(slots[i], m);
      MinusAt(slots[i], m);
      more := Get(next, f) != None;
      TakeOut(i, f, m);
    }

    /** Unlink the folio from its slot `i` and correct `fullest`. */
    method Detach(f: Folio, i: nat)
      requires Shape() && FullestOk() && f in place && place[f] == i < opf
      modifies `lists, `next, `prev, `slots, `place, `fullest
      ensures Shape() && 1 <= fullest <= opf && place == old(place) - {f}
      ensures slots == Raised(old(slots), f, i, false) && fullest == Repointed(old(slots), old(fullest), f, i)
      ensures fullest != i + 1 ==> slots[fullest] != [] || (fullest == opf && slots[opf + 1] != [])
    {
      var more := TakeFrom(f, i);
      if i == 0 {
        fullest := i + 1;
      } else if !more && fullest == i {
        fullest := i + 1;
      }
      if fullest == i { MinusNotEmpty(old(slots[i]), f); }
    }

    /** The list half of a free, for a folio in slot `i` with one more free object: it goes one slot up, or out for
        madvise if it is empty and another empty folio is at hand. */
    method MoveUp(f: Folio, i: nat) returns (release: bool)
      requires Shape() && FullestOk() && f in place && place[f] == i < opf
      modifies `lists, `next, `prev, `slots, `place, `fullest
      ensures Shape() && FullestOk()
      ensures release <==> i + 1 == opf && old(slots[opf]) != []
      ensures place == if release then old(place) - {f} else old(place)[f := i + 1]
      ensures slots == Raised(old(slots), f, i, !release) && fullest == Repointed(old(slots), old(fullest), f, i)
    {
      Detach(f, i);
      assert SlotAt(Pointers(), slots, place, i + 1, Loose());
      if i + 1 != opf || lists[i + 1] == None {
        PutBack(i + 1, f);
        assert place == old(place)[f := i + 1];
        return false;
      } else {
        return true;
      }
    }

    /** `small_free_post_madvise`: a folio that was out joins the uncommitted ones. */
    method PostMadvise(f: Folio)
      requires Valid() && f in out
      modifies `lists, `next, `prev, `slots, `place, `out
      ensures Valid() && out == old(out) - {f} && place == old(place)[f := opf + 1]
      ensures slots == old(slots)[opf + 1 := [f] + old(slots[opf + 1])]
      ensures (Least() <==> old(Least())) && (Named() <==> old(Named())) && (Prompt() <==> fullest > 0)
    {
      PutBack(opf + 1, f);
      SameBelow(slots, old(slots), fullest);
      out := out - {f};
      forall g | g in inuse ensures FolioOk(g) { assert old(FolioOk(g)); }
    }

    /** The bitmap half of a free: clear the bit of object `i`; the old count tells the slot the folio is in. */
    method ClearBit(f: Folio, i: nat) returns (slot: nat)
      requires Counted() && Allocated(f, i)
      modifies `inuse
      ensures inuse.Keys == old(inuse.Keys) && BitsOk(inuse[f], opf)
      ensures f in place && slot == place[f] < opf && Count(inuse[f]) == opf - slot - 1
      ensures forall g :: g in inuse && g != f ==> inuse[g] == old(inuse[g])
      ensures forall g, x: nat :: Allocated(g, x) <==> old(Allocated(g, x)) && !(g == f && x == i)
    {
      var ws, w := inuse[f], i / WORD_BITS;
      var count := CountBits(ws);
      slot := opf - count;
      assert FolioOk(f);
      HasCounts(ws, i);
      BitCleared(ws, opf, i);
      inuse := inuse[f := ws[w := ws[w] - {i % WORD_BITS}]];
    }

    /** A folio with an allocated object is in a list below the last two. */
    lemma FreedFrom(f: Folio, i: nat)
      requires Valid() && Allocated(f, i)
      ensures f in place && place[f] < opf
    {
      assert FolioOk(f);
      HasCounts(inuse[f], i);
    }

    /** What becomes of `Least` and `Named` when folio `f` leaves its list. */
    lemma Raises(f: Folio)
      requires Shape() && FullestOk() && f in place && place[f] < opf
      ensures 0 < Repointed(slots, fullest, f, place[f]) <= opf
      ensures var i, n := place[f], Repointed(slots, fullest, f, place[f]);
        var s := Raised(slots, f, i, i + 1 < opf || slots[opf] == []);
        && (Least() ==> (EmptyBelow(s, n) <==> !LastOfMany(f)))
        && (s[n] != [] <==> Named() || i == 0 || i + 1 == opf)
    {
      var i := place[f];
      assert SlotAt(Pointers(), slots, place, i, Loose());
      var m :| 0 <= m < |slots[i]| && slots[i][m] == f;
      MinusAt(slots[i], m);
      LastIs(slots[i], m);
      assert SlotAt(Pointers(), slots, place, fullest, Loose());
      RaisedLists(slots, fullest, f, i);
    }

    /** `do_small_free`: the object is free and no other object changes; an emptied folio is handed out for madvise
        exactly when another empty one is kept. */
    method Free(f: Folio, i: nat) returns (madvise: Option<Folio>)
      requires Valid() && Allocated(f, i)
      modifies this
      ensures Valid() && inuse.Keys == old(inuse.Keys)
      ensures forall g, x: nat :: Allocated(g, x) <==> old(Allocated(g, x)) && !(g == f && x == i)
      ensures madvise == Some(f) <==> Count(inuse[f]) == 0 && old(slots[opf]) != []
      ensures madvise.Some? ==> madvise == Some(f)
      ensures out == if madvise.Some? then old(out) + {f} else old(out)
      ensures f in old(place) && old(place[f]) < opf
      ensures madvise.Some? <==> old(place[f]) + 1 == opf && old(slots[opf]) != []
      ensures slots == Raised(old(slots), f, old(place[f]), madvise.None?)
      ensures fullest == Repointed(old(slots), old(fullest), f, old(place[f])) && fullest > 0
      ensures old(Least()) ==> (Least() <==> !old(LastOfMany(f)))
      ensures Named() <==> old(Named()) || old(place[f]) == 0 || old(place[f]) + 1 == opf
    {
      FreedFrom(f, i);
      Raises(f);
      var slot := ClearBit(f, i);
      var release := Relist(f, slot);
      madvise := if release then Some(f) else None;
      forall g | g in inuse && g != f ensures FolioOk(g) { assert old(FolioOk(g)); }
    }

    /** The folio changes lists, or goes out for madvise. */
    method Relist(f: Folio, slot: nat) returns (release: bool)
      requires Shape() && FullestOk() && Housed() && f in place && place[f] == slot < opf
      modifies `lists, `next, `prev, `slots, `place, `fullest, `out
      ensures Shape() && FullestOk() && Housed()
      ensures release <==> slot + 1 == opf && old(slots[opf]) != []
      ensures place == if release then old(place) - {f} else old(place)[f := slot + 1]
      ensures slots == Raised(old(slots), f, slot, !release) && fullest == Repointed(old(slots), old(fullest), f, slot)
      ensures out == if release then old(out) + {f} else old(out)
    {
      release := MoveUp(f, slot);
      if release { out := out + {f}; }
    }

    /** The first `i` folios of chunk `c` are empty, and the others are as in `was`. */
    ghost predicate Zeroed(c: seq<Folio>, i: nat, was: map<Folio, seq<Word>>)
      requires i <= |c|
      reads `inuse
    {
      && (forall f :: f in inuse <==> f in was || f in c[..i])
      && (forall f :: f in c[..i] && f in inuse ==> EmptyBits(inuse[f], opf))
      && (forall f :: f in was && f !in c[..i] && f in inuse ==> inuse[f] == was[f])
    }

    method ZeroFolio(c: seq<Folio>, i: nat, ghost was: map<Folio, seq<Word>>)
      requires i < |c| && Zeroed(c, i, was)
      modifies `inuse
      ensures Zeroed(c, i + 1, was)
    {
      var ws := ZeroWords((opf + 63) / WORD_BITS);
      inuse := inuse[c[i] := ws];
      assert c[..i + 1] == c[..i] + [c[i]];
    }

    /** The first `i` folios of chunk `c` are chained, and the links of folios outside the chunk are as in `was`. */
    ghost predicate ChainedTo(c: seq<Folio>, i: nat, was: Links)
      requires i <= |c|
      reads `lists, `next, `prev
    {
      && (forall j :: 0 <= j < i ==> NextAt(Pointers(), c, j)) && (i > 0 ==> Get(prev, c[0]) == None)
      && (forall f :: f !in c ==> Get(next, f) == Get(was.next, f) && Get(prev, f) == Get(was.prev, f))
    }

    method ChainFolio(c: seq<Folio>, i: nat, ghost was: Links)
      requires i < |c| && NoDup(c) && ChainedTo(c, i, was)
      modifies `next, `prev
      ensures ChainedTo(c, i + 1, was)
    {
      ghost var k := Pointers();
      prev := prev[c[i] := if i == 0 then None else Some(c[i - 1])];
      next := next[c[i] := if i + 1 == |c| then None else Some(c[i + 1])];
      forall j | 0 <= j < i + 1 ensures NextAt(Pointers(), c, j) {
        if j < i { assert NextAt(k, c, j) && c[j] != c[i]; }
      }
    }

    /** The initialisation loop over the folios of a new chunk. */
    method InitChunk(c: seq<Folio>)
      requires NoDup(c)
      modifies `inuse, `next, `prev
      ensures Zeroed(c, |c|, old(inuse)) && ChainedTo(c, |c|, old(Pointers()))
    {
      ghost var k, bits := Pointers(), inuse;
      for i := 0 to |c|
        invariant Zeroed(c, i, bits) && ChainedTo(c, i, k)
      {
        ZeroFolio(c, i, bits);
        ChainFolio(c, i, k);
      }
    }

    /** `small_malloc` prepares a new chunk and `do_small_malloc_add_pages_from_new_chunk` adds its folios, all
        uncommitted, in front of the last list. */
    method AddChunk(c: seq<Folio>)
      requires Valid() && |c| > 0 && NoDup(c) && forall f :: f in c ==> f !in inuse
      modifies this
      ensures Valid() && fullest > 0 && out == old(out)
      ensures fullest == if old(fullest) == 0 then opf else old(fullest)
      ensures forall f :: f in inuse <==> f in old(inuse) || f in c
      ensures forall f, i: nat :: Allocated(f, i) <==> old(Allocated(f, i))
      ensures slots == old(slots)[opf + 1 := c + old(slots[opf + 1])]
      ensures (Least() <==> old(Least())) && (Named() <==> old(Named()) && old(fullest) > 0)
    {
      InitChunk(c);
      assert c[..|c|] == c;
      AddFolios(c, old(Pointers()));
      ChunkCounted(c);
      ChunkHoused(c);
      SameBelow(slots, old(slots), old(fullest));
    }

    /** The atomic part: the chunk joins the uncommitted folios, and `fullest` points at them if there was nothing
        else. */
    method AddFolios(c: seq<Folio>, ghost was: Links)
      requires 0 < opf && |slots| == opf + 2 && Lists(was, slots, place, Loose()) && lists == was.lists && FullestOk()
      requires |c| > 0 && NoDup(c) && ChainedTo(c, |c|, was) && forall f :: f in c ==> f !in place
      modifies `lists, `next, `slots, `place, `fullest
      ensures Shape() && FullestOk() && place == PlaceAll(old(place), c, opf + 1)
      ensures fullest == if old(fullest) == 0 then opf else old(fullest)
      ensures slots == old(slots)[opf + 1 := c + old(slots[opf + 1])]
    {
      FrontChunk(c, was);
      if fullest == 0 { fullest := opf; }
    }

    /** The new folios are empty; the others are as they were. */
    twostate lemma ChunkCounted(c: seq<Folio>)
      requires old(Counted()) && Zeroed(c, |c|, old(inuse)) && c[..|c|] == c
        && place == PlaceAll(old(place), c, opf + 1)
      requires forall f :: f in c ==> f !in old(inuse)
      ensures Counted() && forall f, i: nat :: Allocated(f, i) <==> old(Allocated(f, i))
    {
      forall f | f in inuse ensures FolioOk(f) {
        if f in c { EmptyOk(inuse[f], opf); } else { assert old(FolioOk(f)); }
      }
      forall f, i: nat ensures Allocated(f, i) <==> old(Allocated(f, i)) {
        if f in c { EmptyOk(inuse[f], opf); }
      }
    }

    twostate lemma ChunkHoused(c: seq<Folio>)
      requires old(Housed()) && Zeroed(c, |c|, old(inuse)) && c[..|c|] == c && place == PlaceAll(old(place), c, opf + 1)
      requires out == old(out) && forall f :: f in c ==> f !in old(inuse)
      ensures Housed() && forall f :: f in inuse <==> f in old(inuse) || f in c
    {
    }

    /** Put a chained chunk in front of the uncommitted folios. */
    method FrontChunk(c: seq<Folio>, ghost was: Links)
      requires 0 < opf && |slots| == opf + 2 && Lists(was, slots, place, Loose()) && lists == was.lists
      requires |c| > 0 && NoDup(c) && ChainedTo(c, |c|, was) && forall f :: f in c ==> f !in place
      modifies `lists, `next, `slots, `place
      ensures Shape() && place == PlaceAll(old(place), c, opf + 1)
      ensures slots == old(slots)[opf + 1 := c + old(slots[opf + 1])]
    {
      ghost var k := Pointers();
      forall j | 0 <= j < |slots| ensures SlotAt(k, slots, place, j, Loose()) {
        assert SlotAt(was, slots, place, j, Loose());
        SlotSame(was, k, slots[j], place, place, j, j == Loose());
      }
      PrependOk(k, slots, place, c);
      var head := lists[opf + 1];
      lists := lists[opf + 1 := Some(c[0])];
      next := next[c[|c| - 1] := head];
      slots, place := slots[opf + 1 := c + slots[opf + 1]], PlaceAll(place, c, opf + 1);
    }
  }
}
