/** The page cache of sandbox/btree2s.c (`bt_findhash`, `bt_linkhash`, `bt_unlinkhash`, `bt_linklru`, `bt_hashpage`):
    cached segments of the file, found through hash chains and kept on a doubly linked list in order of use.

    Nodes are numbered from 1; a segment is a page number without the bits of the page within the segment.  Mapping a
    segment into memory is not modelled. */
module PageCache {
  import opened LeastRecentlyUsed
  import opened LinkedLists
  import opened Prelude

  function Of(seg: map<Node, Segment>, n: Node): Segment { if n in seg then seg[n] else 0 }

  ghost function Segs(seg: map<Node, Segment>, l: seq<Node>): (r: seq<Segment>)
    ensures |r| == |l| && forall i :: 0 <= i < |l| ==> r[i] == Of(seg, l[i])
  {
    seq(|l|, i requires 0 <= i < |l| => Of(seg, l[i]))
  }

  /** The nodes numbered 1 to `n`. */
  ghost predicate Nodes(n: nat, nodes: set<Node>) { forall x :: x in nodes <==> 1 <= x <= n }

  ghost predicate InBuckets(seg: map<Node, Segment>, bucket: map<Node, nat>, hashsize: nat)
    requires hashsize > 0
  {
    forall n :: n in bucket && n in seg ==> bucket[n] == seg[n] % hashsize
  }

  /** Different nodes have different segments. */
  ghost predicate Distinct(seg: map<Node, Segment>) {
    forall n, m :: n in seg && m in seg && seg[n] == seg[m] ==> n == m
  }

  /** Moving a node to the front of the list is a use of its segment. */
  lemma TouchHit(seg: map<Node, Segment>, l: seq<Node>, j: nat, max: nat)
    requires j < |l| && NoDup(l) && Distinct(seg) && forall m :: m in l ==> m in seg
    ensures Segs(seg, [l[j]] + Without(l, j)) == Touched(Segs(seg, l), seg[l[j]], max)
  {
    var r := Segs(seg, l);
    forall i | 0 <= i < |l| && i != j ensures r[i] != r[j] {
      assert l[i] in l && l[j] in l;
      if i < j { assert l[i] != l[j]; } else { assert l[j] != l[i]; }
    }
    assert l[j] in l && r[j] == seg[l[j]];
    Without1At(r, j);
    SegsMoved(seg, l, j);
  }

  lemma SegsMoved(seg: map<Node, Segment>, l: seq<Node>, j: nat)
    requires j < |l|
    ensures var r := Segs(seg, l); Segs(seg, [l[j]] + Without(l, j)) == [r[j]] + (r[..j] + r[j + 1..])
  {
    var r, l' := Segs(seg, l), [l[j]] + Without(l, j);
    forall i | 0 <= i < |l'| ensures Segs(seg, l')[i] == ([r[j]] + (r[..j] + r[j + 1..]))[i] {
      if i > 0 { assert l'[i] == Without(l, j)[i - 1]; }
    }
  }

  class Cache {
    const hashsize: nat
    const nodemax: nat

    var nodecnt: nat
    var seg: map<Node, Segment>
    var cache: seq<Option<Node>>
    var hashnext: map<Node, Option<Node>>
    var hashprev: map<Node, Option<Node>>
    var lrufirst: Option<Node>
    var lrulast: Option<Node>
    var lrunext: map<Node, Option<Node>>
    var lruprev: map<Node, Option<Node>>

    /** The chains and the list as sequences, and the chain each node is in. */
    ghost var chains: seq<seq<Node>>
    ghost var bucket: map<Node, nat>
    ghost var lru: seq<Node>
    ghost var listed: map<Node, nat>
    /** The segments requested so far. */
    ghost var uses: seq<Segment>

    ghost function HashLinks(): Links
      reads `cache, `hashnext, `hashprev
    {
      Links(cache, hashnext, hashprev)
    }

    ghost function LruLinks(): Links
      reads `lrufirst, `lrunext, `lruprev
    {
      Links([lrufirst], lrunext, lruprev)
    }

    ghost predicate Hashed()
      reads `cache, `hashnext, `hashprev, `chains, `bucket
    {
      |chains| == hashsize > 0 && Lists(HashLinks(), chains, bucket, -1)
    }

    ghost predicate Ordered()
      reads `lrufirst, `lrulast, `lrunext, `lruprev, `lru, `listed
    {
      Lists(LruLinks(), [lru], listed, -1) && lrulast == Elem(lru, |lru| - 1)
    }

    /** The used nodes are those on the list and those in the chains, each in the chain of its segment; no segment has
        two nodes. */
    ghost predicate Agree()
      reads `nodecnt, `seg, `bucket, `listed, `lru
    {
      && |lru| == nodecnt && hashsize > 0 && Nodes(nodecnt, listed.Keys) && Nodes(nodecnt, seg.Keys)
      && Nodes(nodecnt, bucket.Keys)
      && InBuckets(seg, bucket, hashsize) && Distinct(seg)
    }

    ghost predicate Valid()
      reads this
    {
      Hashed() && Ordered() && Agree() && 2 <= nodemax && nodecnt <= nodemax
    }

    /** `bt_findhash`: the node of the segment, if it is resident. */
    method FindHash(s: Segment) returns (n: Option<Node>)
      requires Hashed() && Agree()
      ensures n.Some? ==> n.value in seg && seg[n.value] == s
      ensures n.None? ==> forall m :: m in seg ==> seg[m] != s
    {
      var idx := s % hashsize;
      ghost var l, j := chains[idx], 0;
      assert SlotAt(HashLinks(), chains, bucket, idx, -1);
      n := cache[idx];
      while n.Some?
        invariant 0 <= j <= |l| && n == Elem(l, j)
        invariant forall i :: 0 <= i < j ==> l[i] in seg && seg[l[i]] != s
        decreases |l| - j
      {
        assert l[j] in l && NextAt(HashLinks(), l, j);
        if seg[n.value] == s { return; }
        n := Get(hashnext, n.value);
        j := j + 1;
      }
      forall m | m in seg ensures seg[m] != s {
        assert bucket[m] == idx ==> m in l;
      }
    }

    /** Take a node that is not the first off the LRU list. */
    method UnlinkLru(n: Node, ghost j: nat)
      requires Ordered() && 0 < j < |lru| && lru[j] == n
      modifies `lrulast, `lrunext, `lruprev, `lru, `listed
      ensures Ordered() && lru == LinkedLists.Without(old(lru), j) && listed == old(listed) - {n}
    {
      UnlinkOk(LruLinks(), [lru], listed, -1, 0, j);
      assert SlotAt(LruLinks(), [lru], listed, 0, -1);
      assert NextAt(LruLinks(), lru, j) && PrevAt(LruLinks(), lru, j);
      var node, next := Get(lruprev, n).value, Get(lrunext, n);
      lrunext := lrunext[node := next];
      if next.Some? { lruprev := lruprev[next.value := Some(node)]; } else { lrulast := Some(node); }
      assert [lru][0 := LinkedLists.Without(lru, j)] == [LinkedLists.Without(lru, j)];
      lru, listed := LinkedLists.Without(lru, j), listed - {n};
    }

    /** Put a node on the front of the LRU list. */
    method PushLru(n: Node)
      requires Ordered() && n !in listed
      modifies `lrufirst, `lrulast, `lrunext, `lruprev, `lru, `listed
      ensures Ordered() && lru == [n] + old(lru) && listed == old(listed)[n := 0]
    {
      OutsideOk(LruLinks(), [lru], listed, -1, n, None, None);
      assert SlotAt(LruLinks(), [lru], listed, 0, -1);
      lruprev := lruprev[n := None];
      ghost var k := LruLinks();
      PushOk(k, [lru], listed, -1, 0, n);
      var next := lrufirst;
      lrunext := lrunext[n := next];
      if next.Some? { lruprev := lruprev[next.value := Some(n)]; } else { lrulast := Some(n); }
      lrufirst := Some(n);
      assert k.lists[0 := Some(n)] == [Some(n)];
      assert LruLinks() == Push(k, 0, n);
      assert [lru][0 := [n] + lru] == [[n] + lru];
      lru, listed := [n] + lru, listed[n := 0];
    }

    /** Clear the hash links of a node that is in no chain. */
    method ClearHash(n: Node)
      requires Hashed() && n !in bucket
      modifies `hashnext, `hashprev
      ensures Hashed() && n in hashnext && hashnext[n] == None && Get(hashprev, n) == None
    {
      OutsideOk(HashLinks(), chains, bucket, -1, n, None, None);
      hashnext, hashprev := hashnext[n := None], hashprev[n := None];
    }

    /** `bt_linkhash`, on a node whose links have been cleared. */
    method LinkHash(n: Node, s: Segment)
      requires Hashed() && n !in bucket && n in hashnext && hashnext[n] == None && Get(hashprev, n) == None
      modifies `cache, `hashnext, `hashprev, `chains, `bucket
      ensures Hashed() && bucket == old(bucket)[n := s % hashsize]
    {
      var idx := s % hashsize;
      ghost var k := HashLinks();
      PushOk(k, chains, bucket, -1, idx, n);
      var head := cache[idx];
      if head.Some? {
        hashnext := hashnext[n := head];
        hashprev := hashprev[head.value := Some(n)];
      }
      assert hashnext == k.next[n := head];
      cache := cache[idx := Some(n)];
      assert HashLinks() == Push(k, idx, n);
      chains, bucket := chains[idx := [n] + chains[idx]], bucket[n := idx];
    }

    /** `bt_unlinkhash`. */
    method UnlinkHash(n: Node)
      requires Hashed() && n in bucket && n in seg && bucket[n] == seg[n] % hashsize
      modifies `cache, `hashnext, `hashprev, `chains, `bucket
      ensures Hashed() && bucket == old(bucket) - {n}
    {
      var idx := seg[n] % hashsize;
      assert SlotAt(HashLinks(), chains, bucket, idx, -1);
      ghost var j :| 0 <= j < |chains[idx]| && chains[idx][j] == n;
      UnlinkOk(HashLinks(), chains, bucket, -1, idx, j);
      var before, after := Get(hashprev, n), Get(hashnext, n);
      if before.Some? {
        hashnext := hashnext[before.value := after];
      } else {
        cache := cache[idx := after];
      }
      if after.Some? { hashprev := hashprev[after.value := before]; }
      chains, bucket := chains[idx := LinkedLists.Without(chains[idx], j)], bucket - {n};
    }

    /** The resident segments, most recently used first. */
    ghost function Recency(): seq<Segment>
      reads `lru, `seg
    {
      Segs(seg, lru)
    }

    /** The list is what the history of requests makes it. */
    ghost predicate Tracked()
      reads `lru, `seg, `uses
    {
      Recent(uses, Recency(), nodemax)
    }

    constructor (size: nat, max: nat)
      requires size > 0 && max >= 2
      ensures Valid() && Tracked() && hashsize == size && nodemax == max && uses == []
    {
      hashsize, nodemax := size, max;
      nodecnt, seg := 0, map[];
      cache := seq(size, _ => None);
      hashnext, hashprev, lrunext, lruprev := map[], map[], map[], map[];
      lrufirst, lrulast := None, None;
      chains, bucket, lru, listed, uses := seq(size, _ => []), map[], [], map[], [];
      new;
      forall i | 0 <= i < |chains| ensures SlotAt(HashLinks(), chains, bucket, i, -1) {}
      assert SlotAt(LruLinks(), [lru], listed, 0, -1);
    }

    /** Where a used node is on the list. */
    lemma Position(n: Node) returns (j: nat)
      requires Ordered() && Agree() && n in seg
      ensures j < |lru| && lru[j] == n && PrevAt(LruLinks(), lru, j) && NoDup(lru) && forall m :: m in lru ==> m in seg
    {
      assert SlotAt(LruLinks(), [lru], listed, 0, -1);
      assert n in lru;
      j :| 0 <= j < |lru| && lru[j] == n;
    }

    /** Move a node to the front of the list, unless it is there already. */
    method ToFront(n: Node, ghost j: nat)
      requires Ordered() && j < |lru| && lru[j] == n && PrevAt(LruLinks(), lru, j)
      modifies `lrufirst, `lrulast, `lrunext, `lruprev, `lru, `listed
      ensures Ordered() && lru == [n] + LinkedLists.Without(old(lru), j) && listed == old(listed)
    {
      assert SlotAt(LruLinks(), [lru], listed, 0, -1) && n in lru;
      if Get(lruprev, n).Some? {
        UnlinkLru(n, j);
        PushLru(n);
        assert listed == old(listed);
      } else {
        assert lru == [lru[j]] + LinkedLists.Without(lru, j);
      }
    }

    /** A hit: the node moves to the front. */
    method MoveToFront(n: Node)
      requires Valid() && n in seg
      modifies `lrufirst, `lrulast, `lrunext, `lruprev, `lru, `listed
      ensures Valid() && Recency() == Touched(old(Recency()), seg[n], nodemax) && |lru| > 0 && lru[0] == n
    {
      ghost var j := Position(n);
      TouchHit(seg, lru, j, nodemax);
      ToFront(n, j);
    }

    /** `bt_linklru`: a free node takes a segment that is not resident, and is first in its chain and on the list. */
    method LinkNew(n: Node, s: Segment)
      requires Hashed() && Ordered() && n !in bucket && n !in listed
      modifies `seg, `cache, `hashnext, `hashprev, `chains, `bucket, `lrufirst, `lrulast, `lrunext, `lruprev, `lru,
        `listed
      ensures Hashed() && Ordered() && seg == old(seg)[n := s]
      ensures bucket == old(bucket)[n := s % hashsize] && listed == old(listed)[n := 0] && lru == [n] + old(lru)
    {
      ClearHash(n);
      seg := seg[n := s];
      LinkHash(n, s);
      PushLru(n);
    }

    /** The least recently used node leaves the list and its chain. */
    method Evict() returns (n: Node)
      requires Hashed() && Ordered() && Agree() && |lru| >= 2
      modifies `cache, `hashnext, `hashprev, `chains, `bucket, `lrulast, `lrunext, `lruprev, `lru, `listed
      ensures Hashed() && Ordered() && n in seg && n == old(lru)[|old(lru)| - 1]
      ensures bucket == old(bucket) - {n} && listed == old(listed) - {n} && lru == old(lru)[..|old(lru)| - 1]
    {
      n := lrulast.value;
      assert SlotAt(LruLinks(), [lru], listed, 0, -1) && n in lru;
      UnlinkLru(n, |lru| - 1);
      UnlinkHash(n);
      assert LinkedLists.Without(old(lru), |old(lru)| - 1) == old(lru)[..|old(lru)| - 1];
    }

    /** `bt_hashpage`: over any sequence of requests the cache holds the segments requested last, in that order, and the
        node returned has the segment. */
    method HashPage(s: Segment) returns (n: Node)
      requires Valid() && Tracked()
      modifies this
      ensures Valid() && Tracked() && n in seg && seg[n] == s && uses == old(uses) + [s]
    {
      TouchedIsRecent(uses, Recency(), s, nodemax);
      n := Use(s);
      uses := uses + [s];
    }

    /** The three ways a request can go, each a use in the reference order. */
    method Use(s: Segment) returns (n: Node)
      requires Valid()
      modifies `nodecnt, `seg, `cache, `hashnext, `hashprev, `lrufirst, `lrulast, `lrunext, `lruprev, `chains,
        `bucket, `lru, `listed
      ensures Valid() && n in seg && seg[n] == s && Recency() == Touched(old(Recency()), s, nodemax)
    {
      var hit := FindHash(s);
      if hit.Some? {
        n := hit.value;
        MoveToFront(n);
      } else if nodecnt < nodemax {
        n := AddNode(s);
      } else {
        n := Replace(s);
      }
    }

    /** A segment is resident exactly if fewer than `nodemax` other segments have been requested since its last use. */
    lemma ResidentIff(s: Segment)
      requires Ordered() && Agree() && Tracked() && LastUse(uses, s) >= 0
      ensures (exists n :: n in seg && seg[n] == s) <==> |Since(uses, s)| < nodemax
    {
      AllUsed();
      assert forall n :: n in seg ==> n in listed;
      assert s in Recency() <==> exists n :: n in seg && seg[n] == s by {
        if s in Recency() { var i :| 0 <= i < |lru| && Recency()[i] == s; assert lru[i] in lru; }
        if n :| n in seg && seg[n] == s { var j := Position(n); assert Recency()[j] == s; }
      }
      RecentIff(uses, Recency(), s, nodemax);
    }

    /** A miss with a node to spare. */
    method AddNode(s: Segment) returns (n: Node)
      requires Valid() && nodecnt < nodemax && forall m :: m in seg ==> seg[m] != s
      modifies `nodecnt, `seg, `cache, `hashnext, `hashprev, `lrufirst, `lrulast, `lrunext, `lruprev, `chains,
        `bucket, `lru, `listed
      ensures Valid() && n in seg && seg[n] == s && Recency() == Touched(old(Recency()), s, nodemax)
    {
      AllUsed();
      TouchMiss(seg, lru, nodecnt + 1, s, nodemax);
      Joined(seg, bucket, listed, nodecnt + 1, s, nodecnt, hashsize);
      nodecnt := nodecnt + 1;
      n := nodecnt;
      LinkNew(n, s);
    }

    /** A miss on a full cache: the least recently used segment makes way. */
    method Replace(s: Segment) returns (n: Node)
      requires Valid() && nodecnt == nodemax && forall m :: m in seg ==> seg[m] != s
      modifies `seg, `cache, `hashnext, `hashprev, `lrufirst, `lrulast, `lrunext, `lruprev, `chains, `bucket, `lru,
        `listed
      ensures Valid() && n in seg && seg[n] == s && Recency() == Touched(old(Recency()), s, nodemax)
    {
      AllUsed();
      TouchFull(seg, lru, s, nodemax);
      Joined(seg, bucket, listed, lru[|lru| - 1], s, nodecnt, hashsize);
      n := Recycle(s);
    }

    /** The last node is taken out and put in again with another segment. */
    method Recycle(s: Segment) returns (n: Node)
      requires Hashed() && Ordered() && Agree() && |lru| >= 2
      modifies `seg, `cache, `hashnext, `hashprev, `chains, `bucket, `lrufirst, `lrulast, `lrunext, `lruprev, `lru,
        `listed
      ensures Hashed() && Ordered() && n == old(lru)[|old(lru)| - 1] && seg == old(seg)[n := s]
      ensures bucket == old(bucket)[n := s % hashsize] && listed == old(listed)[n := 0]
      ensures lru == [n] + old(lru)[..|old(lru)| - 1]
    {
      n := Evict();
      LinkNew(n, s);
      OutAndIn(old(bucket), n, s % hashsize);
      OutAndIn(old(listed), n, 0);
    }

    lemma AllUsed()
      requires Ordered() && Agree()
      ensures NoDup(lru) && forall m :: m in lru ==> m in seg
    {
      assert SlotAt(LruLinks(), [lru], listed, 0, -1);
    }
  }

  lemma OutAndIn(m: map<Node, nat>, n: Node, v: nat)
    ensures (m - {n})[n := v] == m[n := v]
  {
  }

  /** A used node or the next one takes a new segment. */
  lemma Joined(seg: map<Node, Segment>, bucket: map<Node, nat>, listed: map<Node, nat>, n: Node, s: Segment,
               cnt: nat, size: nat)
    requires Nodes(cnt, seg.Keys) && Nodes(cnt, bucket.Keys) && Nodes(cnt, listed.Keys) && 1 <= n <= cnt + 1
    requires size > 0 && InBuckets(seg, bucket, size) && Distinct(seg) && forall m :: m in seg ==> seg[m] != s
    ensures var cnt' := if n <= cnt then cnt else cnt + 1;
      && Nodes(cnt', seg[n := s].Keys) && Nodes(cnt', bucket[n := s % size].Keys) && Nodes(cnt', listed[n := 0].Keys)
      && InBuckets(seg[n := s], bucket[n := s % size], size) && Distinct(seg[n := s])
  {
  }

  /** A new node for a segment that was not there. */
  lemma TouchMiss(seg: map<Node, Segment>, l: seq<Node>, n: Node, s: Segment, max: nat)
    requires n !in seg && n !in l && |l| < max && (forall m :: m in l ==> m in seg)
    requires forall m :: m in seg ==> seg[m] != s
    ensures Segs(seg[n := s], [n] + l) == Touched(Segs(seg, l), s, max)
  {
    var r := Segs(seg, l);
    forall i | 0 <= i < |l| ensures r[i] != s && Of(seg[n := s], l[i]) == r[i] { assert l[i] in l; }
    assert Segs(seg[n := s], [n] + l) == [s] + r;
  }

  /** The last node takes a segment that was not there. */
  lemma TouchFull(seg: map<Node, Segment>, l: seq<Node>, s: Segment, max: nat)
    requires 0 < |l| && max <= |l| && NoDup(l) && (forall m :: m in l ==> m in seg)
    requires forall m :: m in seg ==> seg[m] != s
    ensures var n := l[|l| - 1]; Segs(seg[n := s], [n] + l[..|l| - 1]) == Touched(Segs(seg, l), s, max)
  {
    var r, n, front := Segs(seg, l), l[|l| - 1], l[..|l| - 1];
    forall i | 0 <= i < |l| ensures r[i] != s { assert l[i] in l; }
    forall i | 0 <= i < |front| ensures Of(seg[n := s], front[i]) == r[i] { assert l[i] != l[|l| - 1]; }
    assert Segs(seg[n := s], [n] + front) == [s] + r[..|r| - 1];
  }
}
