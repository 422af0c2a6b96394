/** Doubly linked lists over one set of nodes, with an array of heads: the node lists of a small bin
    (memory/small_malloc.cpp), and the hash chains and the LRU list of a page cache (sandbox/btree2s.c).  Taking a node
    off the front, putting one on the front and unlinking one from the middle, each against the sequences the pointers
    stand for. */
module LinkedLists {
  import opened Prelude

  /** The address of a node. */
  type Node = nat

  /** The heads, and the link fields of all nodes. */
  datatype Links = Links(lists: seq<Option<Node>>, next: map<Node, Option<Node>>, prev: map<Node, Option<Node>>)

  function Elem(l: seq<Node>, j: int): Option<Node> {
    if 0 <= j < |l| then Some(l[j]) else None
  }

  function Get(m: map<Node, Option<Node>>, f: Node): Option<Node> {
    if f in m then m[f] else None
  }

  ghost predicate NextAt(k: Links, l: seq<Node>, j: nat)
    requires j < |l|
  {
    Get(k.next, l[j]) == Elem(l, j + 1)
  }

  ghost predicate PrevAt(k: Links, l: seq<Node>, j: nat)
    requires j < |l|
  {
    Get(k.prev, l[j]) == Elem(l, j - 1)
  }

  /** Following `next` from the head walks through `l`. */
  ghost predicate Forward(k: Links, l: seq<Node>, i: nat) {
    && i < |k.lists| && k.lists[i] == Elem(l, 0)
    && forall j :: 0 <= j < |l| ==> NextAt(k, l, j)
  }

  /** `prev` leads back.  In a loose list only the head's `prev` can be relied on: new nodes are put in front of it
      without touching the old head. */
  ghost predicate Backward(k: Links, l: seq<Node>, loose: bool) {
    forall j :: 0 <= j < |l| && (loose ==> j == 0) ==> PrevAt(k, l, j)
  }

  /** Slot `i` is list `l`, and holds just the nodes placed there. */
  ghost predicate SlotOk(k: Links, l: seq<Node>, place: map<Node, nat>, i: nat, loose: bool) {
    && Forward(k, l, i) && Backward(k, l, loose) && NoDup(l)
    && (forall f :: f in l <==> f in place && place[f] == i)
  }

  ghost predicate SlotAt(k: Links, slots: seq<seq<Node>>, place: map<Node, nat>, i: nat, loose: int)
    requires i < |slots|
  {
    SlotOk(k, slots[i], place, i, i == loose)
  }

  /** All lists are in order; list `loose`, if it is one, is loose. */
  ghost predicate Lists(k: Links, slots: seq<seq<Node>>, place: map<Node, nat>, loose: int) {
    && |k.lists| == |slots|
    && (forall i :: 0 <= i < |slots| ==> SlotAt(k, slots, place, i, loose))
    && (forall f :: f in place ==> place[f] < |slots|)
  }

  /** Take the head of slot `i` off. */
  function Pop(k: Links, i: nat): Links
    requires i < |k.lists| && k.lists[i].Some?
  {
    var n := Get(k.next, k.lists[i].value);
    k.(lists := k.lists[i := n], prev := if n.Some? then k.prev[n.value := None] else k.prev)
  }

  /** Put `f`, whose `prev` is null, in front of slot `i`. */
  function Push(k: Links, i: nat, f: Node): Links
    requires i < |k.lists|
  {
    var h := k.lists[i];
    Links(k.lists[i := Some(f)], k.next[f := h], if h.Some? then k.prev[h.value := Some(f)] else k.prev)
  }

  /** Unlink `f`, which is somewhere in slot `i`. */
  function Unlink(k: Links, i: nat, f: Node): Links
    requires i < |k.lists|
  {
    var n, p := Get(k.next, f), Get(k.prev, f);
    Links(
      if p.None? then k.lists[i := n] else k.lists,
      if p.Some? then k.next[p.value := n] else k.next,
      if n.Some? then k.prev[n.value := p] else k.prev)
  }

  function Without(l: seq<Node>, m: nat): (r: seq<Node>)
    requires m < |l|
    ensures |r| == |l| - 1 && forall j :: 0 <= j < |r| ==> r[j] == if j < m then l[j] else l[j + 1]
  {
    l[..m] + l[m + 1..]
  }

  /** A slot none of whose nodes' links changed is still in order. */
  lemma SlotSame(k: Links, k': Links, l: seq<Node>, place: map<Node, nat>, place': map<Node, nat>, i: nat, loose: bool)
    requires SlotOk(k, l, place, i, loose) && i < |k'.lists| && k'.lists[i] == k.lists[i]
    requires forall f :: f in l ==> Get(k'.next, f) == Get(k.next, f) && Get(k'.prev, f) == Get(k.prev, f)
    requires forall f :: (f in place && place[f] == i) <==> (f in place' && place'[f] == i)
    ensures SlotOk(k', l, place', i, loose)
  {
    forall j | 0 <= j < |l| ensures NextAt(k', l, j) { assert NextAt(k, l, j); }
    forall j | 0 <= j < |l| && (loose ==> j == 0) ensures PrevAt(k', l, j) { assert PrevAt(k, l, j); }
  }

  lemma PopOk(k: Links, slots: seq<seq<Node>>, place: map<Node, nat>, loose: int, i: nat)
    requires Lists(k, slots, place, loose) && i < |slots| && k.lists[i].Some?
    ensures |slots[i]| > 0 && k.lists[i].value == slots[i][0]
    ensures Get(Pop(k, i).prev, slots[i][0]) == None
    ensures Lists(Pop(k, i), slots[i := slots[i][1..]], place - {slots[i][0]}, loose)
  {
    assert SlotAt(k, slots, place, i, loose);
    var l, f := slots[i], slots[i][0];
    var k', slots', place' := Pop(k, i), slots[i := l[1..]], place - {f};
    assert NextAt(k, l, 0) && PrevAt(k, l, 0);
    forall j | 0 <= j < |slots'| ensures SlotAt(k', slots', place', j, loose) {
      assert SlotAt(k, slots, place, j, loose);
      if j == i { PopSlot(k, l, place, i, i == loose); } else {
        assert f !in slots[j];
        assert |l| > 1 ==> l[1] in l && l[1] !in slots[j];
        SlotSame(k, k', slots[j], place, place', j, j == loose);
      }
    }
  }

  lemma PopSlot(k: Links, l: seq<Node>, place: map<Node, nat>, i: nat, loose: bool)
    requires SlotOk(k, l, place, i, loose) && |l| > 0
    ensures SlotOk(Pop(k, i), l[1..], place - {l[0]}, i, loose)
  {
    var k', l' := Pop(k, i), l[1..];
    assert NextAt(k, l, 0);
    forall j | 0 <= j < |l'| ensures NextAt(k', l', j) { assert NextAt(k, l, j + 1); }
    forall j | 0 <= j < |l'| && (loose ==> j == 0) ensures PrevAt(k', l', j) {
      if j > 0 { assert PrevAt(k, l, j + 1); }
    }
    assert l == [l[0]] + l';
  }

  lemma PushOk(k: Links, slots: seq<seq<Node>>, place: map<Node, nat>, loose: int, i: nat, f: Node)
    requires Lists(k, slots, place, loose) && i < |slots| && f !in place && Get(k.prev, f) == None
    ensures Lists(Push(k, i, f), slots[i := [f] + slots[i]], place[f := i], loose)
  {
    var l := slots[i];
    var k', slots', place' := Push(k, i, f), slots[i := [f] + l], place[f := i];
    assert SlotAt(k, slots, place, i, loose);
    forall j | 0 <= j < |slots'| ensures SlotAt(k', slots', place', j, loose) {
      assert SlotAt(k, slots, place, j, loose);
      if j == i { PushSlot(k, l, place, i, f, i == loose); } else {
        assert |l| > 0 ==> l[0] in l && l[0] !in slots[j];
        SlotSame(k, k', slots[j], place, place', j, j == loose);
      }
    }
  }

  lemma PushSlot(k: Links, l: seq<Node>, place: map<Node, nat>, i: nat, f: Node, loose: bool)
    requires SlotOk(k, l, place, i, loose) && f !in place && Get(k.prev, f) == None
    ensures SlotOk(Push(k, i, f), [f] + l, place[f := i], i, loose)
  {
    var k', l' := Push(k, i, f), [f] + l;
    assert f !in l;
    forall j | 0 <= j < |l'| ensures NextAt(k', l', j) {
      if j > 0 { assert NextAt(k, l, j - 1); }
    }
    forall j | 0 <= j < |l'| && (loose ==> j == 0) ensures PrevAt(k', l', j) {
      if j > 0 { assert PrevAt(k, l, j - 1); }
    }
  }

  lemma UnlinkOk(k: Links, slots: seq<seq<Node>>, place: map<Node, nat>, loose: int, i: nat, m: nat)
    requires Lists(k, slots, place, loose) && i < |slots| && i != loose && m < |slots[i]|
    ensures Lists(Unlink(k, i, slots[i][m]), slots[i := Without(slots[i], m)], place - {slots[i][m]}, loose)
  {
    var l, f := slots[i], slots[i][m];
    var k', slots', place' := Unlink(k, i, f), slots[i := Without(l, m)], place - {f};
    assert SlotAt(k, slots, place, i, loose);
    assert NextAt(k, l, m) && PrevAt(k, l, m);
    forall j | 0 <= j < |slots'| ensures SlotAt(k', slots', place', j, loose) {
      assert SlotAt(k, slots, place, j, loose);
      if j == i { UnlinkSlot(k, l, place, i, m); } else {
        assert f in l && f !in slots[j];
        assert m > 0 ==> l[m - 1] in l && l[m - 1] !in slots[j];
        assert m + 1 < |l| ==> l[m + 1] in l && l[m + 1] !in slots[j];
        SlotSame(k, k', slots[j], place, place', j, j == loose);
      }
    }
  }

  lemma WithoutElems(l: seq<Node>, m: nat)
    requires m < |l| && NoDup(l)
    ensures NoDup(Without(l, m))
    ensures forall f :: f in Without(l, m) <==> f in l && f != l[m]
  {
    var l' := Without(l, m);
    forall f ensures f in l' <==> f in l && f != l[m] {
      if f in l && f != l[m] {
        var j :| 0 <= j < |l| && l[j] == f;
        assert l'[if j < m then j else j - 1] == f;
      }
    }
  }

  lemma UnlinkForward(k: Links, l: seq<Node>, i: nat, m: nat)
    requires Forward(k, l, i) && Backward(k, l, false) && NoDup(l) && m < |l|
    ensures Forward(Unlink(k, i, l[m]), Without(l, m), i)
  {
    var k', l' := Unlink(k, i, l[m]), Without(l, m);
    assert NextAt(k, l, m) && PrevAt(k, l, m);
    forall j | 0 <= j < |l'| ensures NextAt(k', l', j) {
      assert NextAt(k, l, if j < m then j else j + 1);
    }
  }

  lemma UnlinkBackward(k: Links, l: seq<Node>, i: nat, m: nat)
    requires Forward(k, l, i) && Backward(k, l, false) && NoDup(l) && m < |l|
    ensures Backward(Unlink(k, i, l[m]), Without(l, m), false)
  {
    var k', l' := Unlink(k, i, l[m]), Without(l, m);
    assert NextAt(k, l, m) && PrevAt(k, l, m);
    forall j | 0 <= j < |l'| ensures PrevAt(k', l', j) {
      assert PrevAt(k, l, if j < m then j else j + 1);
    }
  }

  lemma UnlinkSlot(k: Links, l: seq<Node>, place: map<Node, nat>, i: nat, m: nat)
    requires SlotOk(k, l, place, i, false) && m < |l|
    ensures SlotOk(Unlink(k, i, l[m]), Without(l, m), place - {l[m]}, i, false)
  {
    WithoutElems(l, m);
    UnlinkForward(k, l, i, m);
    UnlinkBackward(k, l, i, m);
  }

  /** The links of a node that is in no list do not matter. */
  lemma OutsideOk(k: Links, slots: seq<seq<Node>>, place: map<Node, nat>, loose: int, f: Node,
                  n: Option<Node>, p: Option<Node>)
    requires Lists(k, slots, place, loose) && f !in place
    ensures Lists(k.(prev := k.prev[f := p]), slots, place, loose)
    ensures Lists(k.(next := k.next[f := n], prev := k.prev[f := p]), slots, place, loose)
  {
    var k1, k2 := k.(prev := k.prev[f := p]), k.(next := k.next[f := n], prev := k.prev[f := p]);
    forall j | 0 <= j < |slots|
      ensures SlotAt(k1, slots, place, j, loose) && SlotAt(k2, slots, place, j, loose)
    {
      assert SlotAt(k, slots, place, j, loose);
      SlotSame(k, k1, slots[j], place, place, j, j == loose);
      SlotSame(k, k2, slots[j], place, place, j, j == loose);
    }
  }

  /** Put the linked nodes `c` of a new chunk in front of the last list; the old head's `prev` stays as it was. */
  function Prepend(k: Links, c: seq<Node>): Links
    requires |k.lists| > 0 && |c| > 0
  {
    var i := |k.lists| - 1;
    k.(lists := k.lists[i := Some(c[0])], next := k.next[c[|c| - 1] := k.lists[i]])
  }

  function PlaceAll(place: map<Node, nat>, c: seq<Node>, i: nat): (r: map<Node, nat>)
    ensures forall f :: f in r <==> f in place || f in c
    ensures forall f :: f in r ==> r[f] == if f in c then i else place[f]
  {
    map f | f in place.Keys + (set x | x in c) :: if f in c then i else place[f]
  }

  /** The nodes of a fresh chunk are chained by `next`, and the first has no `prev`. */
  ghost predicate Chained(k: Links, c: seq<Node>) {
    |c| > 0 && NoDup(c) && (forall j :: 0 <= j < |c| ==> NextAt(k, c, j)) && Get(k.prev, c[0]) == None
  }

  lemma PrependSlot(k: Links, l: seq<Node>, place: map<Node, nat>, c: seq<Node>)
    requires |k.lists| > 0 && SlotOk(k, l, place, |k.lists| - 1, true) && Chained(k, c)
    requires forall f :: f in c ==> f !in place
    ensures SlotOk(Prepend(k, c), c + l, PlaceAll(place, c, |k.lists| - 1), |k.lists| - 1, true)
  {
    var k', l', n := Prepend(k, c), c + l, |c|;
    assert forall f :: f in l ==> f !in c;
    forall j | 0 <= j < |l'| ensures NextAt(k', l', j) {
      if j < n { assert NextAt(k, c, j); } else { assert l'[j] in l; assert NextAt(k, l, j - n); }
    }
    assert PrevAt(k', l', 0);
    assert NoDup(l') by {
      forall i, j | 0 <= i < j < |l'| ensures l'[i] != l'[j] {
        if i < n <= j { assert l'[i] in c && l'[j] in l; }
      }
    }
  }

  lemma PrependOk(k: Links, slots: seq<seq<Node>>, place: map<Node, nat>, c: seq<Node>)
    requires Lists(k, slots, place, |slots| - 1) && |slots| > 0 && Chained(k, c)
    requires forall f :: f in c ==> f !in place
    ensures var i := |slots| - 1; Lists(Prepend(k, c), slots[i := c + slots[i]], PlaceAll(place, c, i), i)
  {
    var i := |slots| - 1;
    var k', slots', place' := Prepend(k, c), slots[i := c + slots[i]], PlaceAll(place, c, i);
    forall j | 0 <= j < |slots'| ensures SlotAt(k', slots', place', j, i) {
      assert SlotAt(k, slots, place, j, i);
      if j == i { PrependSlot(k, slots[i], place, c); } else {
        assert c[|c| - 1] in c && c[|c| - 1] !in slots[j];
        SlotSame(k, k', slots[j], place, place', j, false);
      }
    }
  }
}
