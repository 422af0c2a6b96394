/** Deadlock detection by depth-first search over the waits-for graph (bench/cc/dl_detect.cpp: `nextNode`,
    `detect_cycle`), with the choice of a victim on the cycle found.

    The dependency table is frozen during one detection.  A transaction id names its thread by its remainder; an edge
    counts only while the target thread still runs that transaction.  The test for a loop casts the id to 32 bits, so
    that the search is exact when all ids are below 2^31; beyond, it is bounded from both sides. */
module DeadlockDetection {
  import opened Prelude

  /** `dependency`: per thread the running transaction (-1 for none), its lock count and the ids it waits for. */
  datatype Graph = Graph(txn: seq<int>, locks: seq<int>, adj: seq<seq<nat>>)

  function Size(g: Graph): nat { |g.txn| }

  ghost predicate GraphOk(g: Graph) { |g.txn| == |g.locks| == |g.adj| && |g.txn| > 0 }

  ghost predicate IdsBelow(g: Graph, b: nat) {
    forall u, j :: 0 <= u < |g.adj| && 0 <= j < |g.adj[u]| ==> g.adj[u][j] < b
  }

  const LARGE: nat := 0x8000_0000

  /** `(SInt32) id`. */
  function SInt32(id: nat): int {
    var low := id % 0x1_0000_0000;
    if low < LARGE then low else low - 0x1_0000_0000
  }

  /** `get_thdid_from_txnid`. */
  function Thread(g: Graph, id: nat): (t: nat)
    requires |g.txn| > 0
    ensures t < |g.txn|
  {
    id % |g.txn|
  }

  /** The `j`-th id that thread `u` waits for is that of a running transaction. */
  predicate Live(g: Graph, u: nat, j: nat)
    requires |g.txn| > 0 && u < |g.adj| && j < |g.adj[u]|
  {
    g.txn[Thread(g, g.adj[u][j])] == g.adj[u][j]
  }

  /** The test for a loop passes for the `j`-th id that thread `u` waits for. */
  predicate Closes(g: Graph, u: nat, j: nat)
    requires |g.txn| > 0 && u < |g.adj| && j < |g.adj[u]|
  {
    g.txn[Thread(g, g.adj[u][j])] == SInt32(g.adj[u][j])
  }

  ghost predicate EdgeAt(g: Graph, u: nat, w: nat, j: nat)
    requires |g.txn| > 0
  {
    u < |g.adj| && j < |g.adj[u]| && Live(g, u, j) && Thread(g, g.adj[u][j]) == w
  }

  ghost predicate Edge(g: Graph, u: nat, w: nat)
    requires |g.txn| > 0
  {
    exists j :: EdgeAt(g, u, w, j)
  }

  /** A live edge whose id is not changed by the cast. */
  ghost predicate SmallEdge(g: Graph, u: nat, w: nat)
    requires |g.txn| > 0
  {
    exists j: nat :: EdgeAt(g, u, w, j) && g.adj[u][j] < LARGE
  }

  ghost predicate ClosesAt(g: Graph, u: nat, w: nat, j: nat)
    requires |g.txn| > 0
  {
    u < |g.adj| && j < |g.adj[u]| && Closes(g, u, j) && Thread(g, g.adj[u][j]) == w
  }

  /** An edge that the test for a loop accepts. */
  ghost predicate ClosingEdge(g: Graph, u: nat, w: nat)
    requires |g.txn| > 0
  {
    exists j :: ClosesAt(g, u, w, j)
  }

  /** Below 2^31 the three kinds of edges are the same. */
  lemma BelowSame(g: Graph, u: nat, w: nat)
    requires |g.txn| > 0 && IdsBelow(g, LARGE)
    ensures Edge(g, u, w) <==> SmallEdge(g, u, w)
    ensures Edge(g, u, w) <==> ClosingEdge(g, u, w)
  {
    if Edge(g, u, w) {
      var j: nat :| EdgeAt(g, u, w, j);
      assert g.adj[u][j] < LARGE && ClosesAt(g, u, w, j);
    }
    if ClosingEdge(g, u, w) {
      var j: nat :| ClosesAt(g, u, w, j);
      assert g.adj[u][j] < LARGE && EdgeAt(g, u, w, j);
    }
  }

  ghost predicate InRange(g: Graph, p: seq<nat>) {
    forall i :: 0 <= i < |p| ==> p[i] < Size(g)
  }

  ghost predicate Path(g: Graph, p: seq<nat>)
    requires |g.txn| > 0
  {
    |p| > 0 && InRange(g, p) && forall i :: 0 <= i < |p| - 1 ==> Edge(g, p[i], p[i + 1])
  }

  /** A path from `s` that comes back to its own `at`-th node. */
  ghost predicate Lasso(g: Graph, s: nat, p: seq<nat>, at: nat)
    requires |g.txn| > 0
  {
    Path(g, p) && p[0] == s && at < |p| && Edge(g, p[|p| - 1], p[at])
  }

  ghost predicate CycleReachable(g: Graph, s: nat)
    requires |g.txn| > 0
  {
    exists p: seq<nat>, at: nat :: Lasso(g, s, p, at)
  }

  ghost predicate SmallPath(g: Graph, p: seq<nat>)
    requires |g.txn| > 0
  {
    |p| > 0 && InRange(g, p) && forall i :: 0 <= i < |p| - 1 ==> SmallEdge(g, p[i], p[i + 1])
  }

  /** A lasso whose loop has small ids only. */
  ghost predicate SmallLasso(g: Graph, s: nat, p: seq<nat>, at: nat)
    requires |g.txn| > 0
  {
    Path(g, p) && p[0] == s && at < |p| && SmallPath(g, p[at..] + [p[at]])
  }

  ghost predicate SmallCycleReachable(g: Graph, s: nat)
    requires |g.txn| > 0
  {
    exists p: seq<nat>, at: nat :: SmallLasso(g, s, p, at)
  }

  /** A path of live edges without repetition, closed by an edge that the test for a loop accepts. */
  ghost predicate ClosedLasso(g: Graph, s: nat, p: seq<nat>, at: nat)
    requires |g.txn| > 0
  {
    Path(g, p) && NoDup(p) && p[0] == s && at < |p| && ClosingEdge(g, p[|p| - 1], p[at])
  }

  /** Below 2^31 the lassos are the same, too. */
  lemma BelowLasso(g: Graph, s: nat, p: seq<nat>, at: nat)
    requires |g.txn| > 0 && IdsBelow(g, LARGE)
    ensures Lasso(g, s, p, at) ==> SmallLasso(g, s, p, at)
    ensures ClosedLasso(g, s, p, at) ==> Lasso(g, s, p, at)
  {
    if Lasso(g, s, p, at) {
      var q := p[at..] + [p[at]];
      forall k | 0 <= k < |q| - 1 ensures SmallEdge(g, q[k], q[k + 1]) {
        if k + 1 < |p| - at { assert Edge(g, p[at + k], p[at + k + 1]); }
        BelowSame(g, q[k], q[k + 1]);
      }
    }
    if ClosedLasso(g, s, p, at) { BelowSame(g, p[|p| - 1], p[at]); }
  }

  // ----- nodes that are done

  /** Every small edge of the `i`-th finished node leads to a node that finished before. */
  ghost predicate Finished(g: Graph, order: seq<nat>, i: nat)
    requires |g.txn| > 0 && i < |order|
  {
    order[i] < Size(g) && forall w :: SmallEdge(g, order[i], w) ==> w in order[..i]
  }

  ghost predicate AllFinished(g: Graph, order: seq<nat>)
    requires |g.txn| > 0
  {
    forall i :: 0 <= i < |order| ==> Finished(g, order, i)
  }

  /** Every edge of a finished node leads to a node that is finished or on the stack. */
  ghost predicate Onward(g: Graph, order: seq<nat>, stack: seq<nat>)
    requires |g.txn| > 0
  {
    forall v, w :: v in order && Edge(g, v, w) ==> w in order || w in stack
  }

  /** A path of small edges from a finished node goes through ever earlier finished nodes. */
  lemma {:induction false} PathDescends(g: Graph, order: seq<nat>, p: seq<nat>, i: nat, k: nat)
    requires |g.txn| > 0 && AllFinished(g, order) && SmallPath(g, p) && i < |order| && order[i] == p[0] && k < |p|
    ensures exists j :: 0 <= j <= i && order[j] == p[k] && (k > 0 ==> j < i)
    decreases k
  {
    if k == 0 {
      assert order[i] == p[k];
    } else {
      PathDescends(g, order, p, i, k - 1);
      var j :| 0 <= j <= i && order[j] == p[k - 1];
      assert Finished(g, order, j) && SmallEdge(g, p[k - 1], p[k]);
      var j' :| 0 <= j' < j && order[j'] == p[k];
    }
  }

  /** When the stack is empty, a path from a finished node stays among the finished ones. */
  lemma {:induction false} PathStays(g: Graph, order: seq<nat>, p: seq<nat>, k: nat)
    requires |g.txn| > 0 && Onward(g, order, []) && Path(g, p) && p[0] in order && k < |p|
    ensures p[k] in order
  {
    if k > 0 {
      PathStays(g, order, p, k - 1);
      assert Edge(g, p[k - 1], p[k]);
    }
  }

  /** No cycle with small ids is reachable from a finished node. */
  lemma NoCycleFromFinished(g: Graph, order: seq<nat>, s: nat)
    requires |g.txn| > 0 && AllFinished(g, order) && Onward(g, order, []) && NoDup(order) && s in order
    ensures !SmallCycleReachable(g, s)
  {
    if SmallCycleReachable(g, s) {
      var p: seq<nat>, at: nat :| SmallLasso(g, s, p, at);
      PathStays(g, order, p, at);
      var a :| 0 <= a < |order| && order[a] == p[at];
      var q := p[at..] + [p[at]];
      PathDescends(g, order, q, a, |q| - 1);
    }
  }

  lemma {:induction false} Pigeonhole(p: seq<nat>, n: nat)
    requires NoDup(p) && forall i :: 0 <= i < |p| ==> p[i] < n
    ensures |p| <= n
  {
    if n == 0 {
    } else if n - 1 in p {
      var k :| 0 <= k < |p| && p[k] == n - 1;
      var q := p[..k] + p[k + 1..];
      forall i, j | 0 <= i < j < |q| ensures q[i] != q[j] {
        assert p[if i < k then i else i + 1] != p[if j < k then j else j + 1];
      }
      forall i | 0 <= i < |q| ensures q[i] < n - 1 {
        assert q[i] == p[if i < k then i else i + 1];
      }
      Pigeonhole(q, n - 1);
    } else {
      forall i | 0 <= i < |p| ensures p[i] < n - 1 { assert p[i] in p; }
      Pigeonhole(p, n - 1);
    }
  }

  // ----- the victim

  const LIMIT: int := 1000

  /** The least lock count from the `from`-th node of `p` on, below the limit. */
  ghost function Least(g: Graph, p: seq<nat>, from: nat): int
    requires GraphOk(g) && InRange(g, p)
    decreases |p| - from
  {
    if from >= |p| then LIMIT else
      var rest := Least(g, p, from + 1);
      if g.locks[p[from]] < rest then g.locks[p[from]] else rest
  }

  /** The transaction that holds it; on a tie the deepest one. */
  ghost function Victim(g: Graph, p: seq<nat>, from: nat): int
    requires GraphOk(g) && InRange(g, p)
    decreases |p| - from
  {
    if from >= |p| then -1 else
      var rest := Least(g, p, from + 1);
      if g.locks[p[from]] < rest then g.txn[p[from]] else Victim(g, p, from + 1)
  }

  /** The victim's lock count is minimal on the loop; there is no victim only if all counts reach the limit. */
  lemma {:induction false} VictimIsLeast(g: Graph, p: seq<nat>, from: nat)
    requires GraphOk(g) && InRange(g, p)
    ensures forall i :: from <= i < |p| ==> Least(g, p, from) <= g.locks[p[i]]
    ensures Least(g, p, from) <= LIMIT
    ensures Least(g, p, from) < LIMIT ==>
      exists i :: from <= i < |p| && g.locks[p[i]] == Least(g, p, from) && g.txn[p[i]] == Victim(g, p, from)
    ensures Least(g, p, from) == LIMIT ==> Victim(g, p, from) == -1
    decreases |p| - from
  {
    if from < |p| {
      VictimIsLeast(g, p, from + 1);
      if g.locks[p[from]] < Least(g, p, from + 1) {
        assert g.locks[p[from]] == Least(g, p, from);
      } else if Least(g, p, from) < LIMIT {
        var i :| from + 1 <= i < |p| && g.locks[p[i]] == Least(g, p, from + 1) && g.txn[p[i]] == Victim(g, p, from + 1);
        assert g.locks[p[i]] == Least(g, p, from);
      }
    }
  }

  // ----- the search

  /** `DetectData`. */
  class Detect {
    const visited: array<bool>
    const recStack: array<bool>
    var loop: bool
    var onloop: bool
    var loopstart: int
    var minLocks: int
    var minTxn: int

    /** The nodes being visited, the nodes finished without a loop, and, once a loop is found, the path that was
        being visited then and where in it the loop starts. */
    ghost var stack: seq<nat>
    ghost var order: seq<nat>
    ghost var found: seq<nat>
    ghost var at: nat

    /** `onloop` and `loopstart` are left as they are found. */
    constructor (n: nat)
      ensures visited.Length == recStack.Length == n && fresh(visited) && fresh(recStack) && visited != recStack
      ensures (forall v :: 0 <= v < n ==> !visited[v] && !recStack[v])
      ensures !loop && minLocks == LIMIT && minTxn == -1 && stack == [] && order == []
    {
      visited := new bool[n](_ => false);
      recStack := new bool[n](_ => false);
      loop, minLocks, minTxn := false, LIMIT, -1;
      onloop, loopstart := *, *;
      stack, order := [], [];
    }

    ghost predicate Marks(g: Graph)
      reads this, visited, recStack
    {
      && visited.Length == recStack.Length == Size(g) && visited != recStack
      && (forall v :: 0 <= v < Size(g) ==> (visited[v] <==> v in stack || v in order))
      && (forall v :: 0 <= v < Size(g) ==> (recStack[v] <==> v in stack))
    }

    ghost predicate Nodes(g: Graph)
      reads this
    {
      && (forall i :: 0 <= i < |stack| ==> stack[i] < Size(g)) && (forall i :: 0 <= i < |order| ==> order[i] < Size(g))
      && NoDup(stack) && NoDup(order) && (forall v :: v in stack ==> v !in order)
    }

    /** No loop has been found yet. */
    ghost predicate Searching(g: Graph)
      requires |g.txn| > 0
      reads this, visited, recStack
    {
      && Marks(g) && Nodes(g) && (stack != [] ==> Path(g, stack)) && AllFinished(g, order)
      && Onward(g, order, stack) && !loop && minLocks == LIMIT && minTxn == -1
    }

    /** A loop has been found, and the search has backed up to depth `m` of the path. */
    ghost predicate Found(g: Graph, m: nat)
      requires GraphOk(g)
      reads this
    {
      && loop && Path(g, found) && NoDup(found) && at < |found| && m <= |found|
      && ClosingEdge(g, found[|found| - 1], found[at]) && loopstart == found[at] && (onloop <==> at < m)
      && minLocks == Least(g, found, if at < m then m else at) && minTxn == Victim(g, found, if at < m then m else at)
    }
  }

  lemma AllFit(g: Graph, d: Detect)
    requires d.Nodes(g)
    ensures |d.stack| + |d.order| <= Size(g)
  {
    var p := d.stack + d.order;
    assert NoDup(p) by {
      forall i, j | 0 <= i < j < |p| ensures p[i] != p[j] {
        if i < |d.stack| <= j { assert p[i] in d.stack && p[j] in d.order; }
      }
    }
    Pigeonhole(p, Size(g));
  }

  /** Fewer nodes are marked than there are threads, as long as one is not. */
  lemma RoomLeft(g: Graph, d: Detect, v: nat)
    requires d.Marks(g) && d.Nodes(g) && v < Size(g) && !d.visited[v]
    ensures |d.stack| + |d.order| < Size(g)
  {
    var p := d.stack + d.order + [v];
    assert NoDup(p) by {
      forall i, j | 0 <= i < j < |p| ensures p[i] != p[j] {
        if i < |d.stack| { assert p[i] in d.stack; } else if i < |p| - 1 { assert p[i] in d.order; }
        if |d.stack| <= j < |p| - 1 { assert p[j] in d.order; }
      }
    }
    Pigeonhole(p, Size(g));
  }

  lemma OneMoreFinished(g: Graph, o: seq<nat>, v: nat)
    requires |g.txn| > 0 && AllFinished(g, o) && v < Size(g) && forall w :: SmallEdge(g, v, w) ==> w in o
    ensures AllFinished(g, o + [v])
  {
    var o' := o + [v];
    forall i | 0 <= i < |o'| ensures Finished(g, o', i) {
      if i < |o| { assert Finished(g, o, i); assert o'[..i] == o[..i]; } else { assert o'[..i] == o; }
    }
  }

  lemma Shortens(g: Graph, p: seq<nat>)
    requires |g.txn| > 0 && Path(g, p) && |p| > 1
    ensures Path(g, p[..|p| - 1])
  {
    var q := p[..|p| - 1];
    forall i | 0 <= i < |q| - 1 ensures Edge(g, q[i], q[i + 1]) { assert Edge(g, p[i], p[i + 1]); }
  }

  lemma Extends(g: Graph, p: seq<nat>, v: nat)
    requires |g.txn| > 0 && v < Size(g) && (p != [] ==> Path(g, p) && Edge(g, p[|p| - 1], v))
    ensures Path(g, p + [v])
  {
    var q := p + [v];
    forall i | 0 <= i < |q| - 1 ensures Edge(g, q[i], q[i + 1]) {
      if i + 1 < |p| { assert Edge(g, p[i], p[i + 1]); }
    }
  }

  /** Mark `v` visited and on the recursion stack. */
  method Enter(g: Graph, d: Detect, v: nat)
    requires GraphOk(g) && d.Searching(g) && v < Size(g) && !d.visited[v]
    requires d.stack != [] ==> Edge(g, d.stack[|d.stack| - 1], v)
    modifies d`stack, d.visited, d.recStack
    ensures d.Searching(g) && d.stack == old(d.stack) + [v]
  {
    d.visited[v] := true;
    d.recStack[v] := true;
    Extends(g, d.stack, v);
    d.stack := d.stack + [v];
  }

  /** All edges of `v` lead to nodes that are finished or on the stack, and the small ones to finished nodes. */
  ghost predicate Explored(g: Graph, v: nat, d: Detect)
    requires |g.txn| > 0
    reads d
  {
    && (forall w :: SmallEdge(g, v, w) ==> w in d.order)
    && (forall w :: Edge(g, v, w) ==> w in d.order || w in d.stack)
  }

  /** Back out of `v`, whose edges have all been followed. */
  method Finish(g: Graph, d: Detect, v: nat)
    requires GraphOk(g) && d.Searching(g) && d.stack != [] && d.stack[|d.stack| - 1] == v
    requires Explored(g, v, d)
    modifies d`stack, d`order, d.recStack
    ensures d.Searching(g) && d.stack == old(d.stack)[..|old(d.stack)| - 1] && d.order == old(d.order) + [v]
  {
    d.recStack[v] := false;
    ghost var s, o := d.stack, d.order;
    d.stack := s[..|s| - 1];
    d.order := o + [v];
    OneMoreFinished(g, o, v);
    PoppedNodes(g, s, o, v);
    if d.stack != [] { Shortens(g, s); }
  }

  /** Moving the top of the stack to the finished nodes keeps the two apart. */
  lemma PoppedNodes(g: Graph, s: seq<nat>, o: seq<nat>, v: nat)
    requires s != [] && s[|s| - 1] == v && NoDup(s) && NoDup(o) && (forall x :: x in s ==> x !in o)
    ensures NoDup(s[..|s| - 1]) && NoDup(o + [v]) && v !in s[..|s| - 1]
    ensures forall x :: x in s[..|s| - 1] ==> x !in o + [v]
    ensures forall x :: x in s || x in o <==> x in s[..|s| - 1] || x in o + [v]
  {
    assert s == s[..|s| - 1] + [v] && v in s;
  }

  /** The edge from the top of the stack leads back into the stack. */
  method CloseLoop(g: Graph, d: Detect, w: nat)
    requires GraphOk(g) && d.Searching(g) && d.stack != [] && w in d.stack && ClosingEdge(g, d.stack[|d.stack| - 1], w)
    modifies d`loop, d`onloop, d`loopstart, d`found, d`at
    ensures d.Found(g, |d.stack|) && d.found == d.stack
  {
    d.loop := true;
    d.onloop := true;
    d.loopstart := w;
    ghost var at: nat :| at < |d.stack| && d.stack[at] == w;
    d.found, d.at := d.stack, at;
  }

  /** On the way back through the node at depth `m`: a node of the loop may become the victim. */
  method BackOut(g: Graph, d: Detect, v: nat, ghost m: nat)
    requires GraphOk(g) && d.Found(g, m + 1) && d.found[m] == v && v < Size(g) == d.recStack.Length
    modifies d`onloop, d`minLocks, d`minTxn, d.recStack
    ensures d.Found(g, m)
  {
    d.recStack[v] := false;
    if d.loop && d.onloop && g.locks[v] < d.minLocks {
      d.minLocks := g.locks[v];
      d.minTxn := g.txn[v];
    }
    if v == d.loopstart {
      d.onloop := false;
    }
  }

  /** The edge for the `j`-th id of `v`, if it is one, leads to a finished node, or is large and leads to the stack. */
  ghost predicate Followed(g: Graph, v: nat, j: nat, order: seq<nat>, stack: seq<nat>)
    requires |g.txn| > 0
  {
    v < |g.adj| && j < |g.adj[v]| && Live(g, v, j) ==>
      var id, w := g.adj[v][j], Thread(g, g.adj[v][j]);
      w in order || (w in stack && id >= LARGE)
  }

  ghost predicate AllFollowed(g: Graph, v: nat, n: nat, order: seq<nat>, stack: seq<nat>)
    requires |g.txn| > 0
  {
    forall j: nat :: j < n ==> Followed(g, v, j, order, stack)
  }

  lemma FollowedOn(g: Graph, v: nat, n: nat, order: seq<nat>, order': seq<nat>, stack: seq<nat>)
    requires |g.txn| > 0 && AllFollowed(g, v, n, order, stack) && order <= order' && Followed(g, v, n, order', stack)
    ensures AllFollowed(g, v, n + 1, order', stack)
  {
    forall j: nat | j < n ensures Followed(g, v, j, order', stack) { assert Followed(g, v, j, order, stack); }
  }

  lemma FollowedIsExplored(g: Graph, v: nat, d: Detect)
    requires |g.txn| > 0 && v < |g.adj| && AllFollowed(g, v, |g.adj[v]|, d.order, d.stack)
    ensures Explored(g, v, d)
  {
    forall w | SmallEdge(g, v, w) ensures w in d.order {
      var j: nat :| EdgeAt(g, v, w, j) && g.adj[v][j] < LARGE;
      assert Followed(g, v, j, d.order, d.stack);
    }
    forall w | Edge(g, v, w) ensures w in d.order || w in d.stack {
      var j: nat :| EdgeAt(g, v, w, j);
      assert Followed(g, v, j, d.order, d.stack);
    }
  }

  /** One turn of the loop of `nextNode`, for the `n`-th id that `v`, on top of the stack, waits for. */
  method Follow(g: Graph, v: nat, n: nat, d: Detect)
    requires GraphOk(g) && d.Searching(g) && d.stack != [] && d.stack[|d.stack| - 1] == v && n < |g.adj[v]|
    modifies d, d.visited, d.recStack
    ensures !d.loop ==> d.Searching(g) && d.stack == old(d.stack) && old(d.order) <= d.order
    ensures !d.loop ==> Followed(g, v, n, d.order, d.stack)
    ensures d.loop ==> d.Found(g, |old(d.stack)|) && old(d.stack) <= d.found
    decreases Size(g) - |d.stack| - |d.order|, 1
  {
    AllFit(g, d);
    var id := g.adj[v][n];
    var w := Thread(g, id);
    if d.recStack[w] && g.txn[w] == SInt32(id) {
      assert ClosesAt(g, v, w, n);
      CloseLoop(g, d, w);
    } else if !d.visited[w] && g.txn[w] == id {
      assert EdgeAt(g, v, w, n);
      var hit := NextNode(g, id, d);
    }
  }

  /** The loop of `nextNode`. */
  method Explore(g: Graph, v: nat, d: Detect)
    requires GraphOk(g) && d.Searching(g) && d.stack != [] && d.stack[|d.stack| - 1] == v
    modifies d, d.visited, d.recStack
    ensures !d.loop ==> d.Searching(g) && d.stack == old(d.stack) && old(d.order) <= d.order && Explored(g, v, d)
    ensures d.loop ==> d.Found(g, |old(d.stack)|) && old(d.stack) <= d.found
    decreases Size(g) - |d.stack| - |d.order|, 2
  {
    AllFit(g, d);
    var n := 0;
    while n < |g.adj[v]|
      invariant 0 <= n <= |g.adj[v]| && d.Searching(g) && d.stack == old(d.stack) && old(d.order) <= d.order
      invariant AllFollowed(g, v, n, d.order, d.stack)
    {
      ghost var o := d.order;
      Follow(g, v, n, d);
      if d.loop { return; }
      FollowedOn(g, v, n, o, d.order, d.stack);
      n := n + 1;
    }
    FollowedIsExplored(g, v, d);
  }

  /** The rest of `nextNode` once the node is on the stack. */
  method Visit(g: Graph, v: nat, d: Detect)
    requires GraphOk(g) && d.Searching(g) && d.stack != [] && d.stack[|d.stack| - 1] == v
    modifies d, d.visited, d.recStack
    ensures !d.loop ==>
      d.Searching(g) && d.stack == old(d.stack)[..|old(d.stack)| - 1] && old(d.order) <= d.order && v in d.order
    ensures d.loop ==> d.Found(g, |old(d.stack)| - 1) && old(d.stack) <= d.found
    decreases Size(g) - |d.stack| - |d.order|, 3
  {
    Explore(g, v, d);
    if d.loop {
      BackOut(g, d, v, |old(d.stack)| - 1);
    } else {
      Finish(g, d, v);
    }
  }

  /** `nextNode`.  With a live transaction it returns true exactly when it found a loop; otherwise the thread and all
      it reaches are finished. */
  method NextNode(g: Graph, txnid: nat, d: Detect) returns (r: bool)
    requires GraphOk(g) && d.Searching(g) && !d.visited[Thread(g, txnid)]
    requires d.stack != [] ==> g.txn[Thread(g, txnid)] == txnid && Edge(g, d.stack[|d.stack| - 1], Thread(g, txnid))
    modifies d, d.visited, d.recStack
    ensures r == d.loop
    ensures g.txn[Thread(g, txnid)] != txnid ==> !r
    ensures g.txn[Thread(g, txnid)] == txnid && !r ==>
      d.Searching(g) && d.stack == old(d.stack) && old(d.order) <= d.order && Thread(g, txnid) in d.order
    ensures r ==> d.Found(g, |old(d.stack)|) && old(d.stack) + [Thread(g, txnid)] <= d.found
    decreases Size(g) - |d.stack| - |d.order|, 0
  {
    var v := Thread(g, txnid);
    RoomLeft(g, d, v);
    if g.txn[v] != txnid {
      d.visited[v] := true;
      return false;
    }
    Enter(g, d, v);
    Visit(g, v, d);
    assert !d.loop ==> d.stack == old(d.stack);
    return d.loop;
  }

  /** `detect_cycle` up to the abort.  A cycle of live edges with small ids is always reported; what is reported is a
      path of live edges that the test for a loop closes, and the victim is a transaction on that loop that holds the
      fewest locks there.  With ids below 2^31 the two bounds meet. */
  method DetectCycle(g: Graph, txnid: nat) returns (deadlock: bool, victim: int, ghost p: seq<nat>, ghost at: nat)
    requires GraphOk(g)
    ensures g.txn[Thread(g, txnid)] == txnid && SmallCycleReachable(g, Thread(g, txnid)) ==> deadlock
    ensures deadlock ==> g.txn[Thread(g, txnid)] == txnid && ClosedLasso(g, Thread(g, txnid), p, at)
    ensures deadlock ==> VictimOf(g, p[at..], victim)
    ensures IdsBelow(g, LARGE) ==>
      (deadlock <==> g.txn[Thread(g, txnid)] == txnid && CycleReachable(g, Thread(g, txnid)))
    ensures IdsBelow(g, LARGE) && deadlock ==> IsCycle(g, p[at..])
  {
    var d := new Detect(Size(g));
    deadlock := NextNode(g, txnid, d);
    victim, p, at := d.minTxn, d.found, d.at;
    var v := Thread(g, txnid);
    if deadlock {
      VictimOnCycle(g, p, at);
      if IdsBelow(g, LARGE) {
        BelowLasso(g, v, p, at);
        LassoCycle(g, v, p, at);
      }
    } else if g.txn[v] == txnid {
      NoCycleFromFinished(g, d.order, v);
      if IdsBelow(g, LARGE) && CycleReachable(g, v) {
        ghost var q: seq<nat>, k: nat :| Lasso(g, v, q, k);
        BelowLasso(g, v, q, k);
      }
    }
  }

  /** `(uint64_t) -1`, which stands for no victim. */
  const NOBODY: nat := 0xFFFF_FFFF_FFFF_FFFF

  /** The threads on a path from a running transaction run the transactions that name them. */
  lemma PathRuns(g: Graph, txnid: nat, p: seq<nat>, i: nat)
    requires GraphOk(g) && Path(g, p) && i < |p| && p[0] == Thread(g, txnid) && g.txn[p[0]] == txnid
    ensures g.txn[p[i]] >= 0 && Thread(g, g.txn[p[i]]) == p[i]
  {
    if i > 0 {
      assert Edge(g, p[i - 1], p[i]);
      var j: nat :| EdgeAt(g, p[i - 1], p[i], j);
    }
  }

  /** The thread holds a lock count that is least on the loop, and less than the limit. */
  ghost predicate LeastOn(g: Graph, cycle: seq<nat>, w: nat)
    requires GraphOk(g) && InRange(g, cycle)
  {
    w in cycle && w < Size(g) && g.locks[w] < LIMIT && forall j :: 0 <= j < |cycle| ==> g.locks[w] <= g.locks[cycle[j]]
  }

  /** All of `detect_cycle`: the thread whose `lock_abort` is set.  If some transaction on the loop holds fewer than
      1000 locks, it is one of those that hold the fewest; otherwise it is whatever thread the number -1 names, if
      that thread runs nothing. */
  method TellVictim(g: Graph, txnid: nat) returns (deadlock: bool, told: Option<nat>, ghost cycle: seq<nat>)
    requires GraphOk(g)
    ensures !deadlock ==> told == None
    ensures deadlock ==> |cycle| > 0 && InRange(g, cycle)
    ensures deadlock && (exists i :: 0 <= i < |cycle| && g.locks[cycle[i]] < LIMIT) ==>
      told.Some? && LeastOn(g, cycle, told.value)
    ensures deadlock && (forall i :: 0 <= i < |cycle| ==> g.locks[cycle[i]] >= LIMIT) ==>
      told == if g.txn[Thread(g, NOBODY)] == -1 then Some(Thread(g, NOBODY)) else None
    ensures IdsBelow(g, LARGE) ==>
      (deadlock <==> g.txn[Thread(g, txnid)] == txnid && CycleReachable(g, Thread(g, txnid)))
    ensures IdsBelow(g, LARGE) && deadlock ==> IsCycle(g, cycle)
  {
    var victim;
    ghost var p, at;
    deadlock, victim, p, at := DetectCycle(g, txnid);
    told, cycle := None, [];
    if deadlock {
      cycle := p[at..];
      assert forall i :: 0 <= i < |cycle| ==> cycle[i] == p[at + i];
      if exists i :: 0 <= i < |cycle| && g.locks[cycle[i]] < LIMIT { VictimRuns(g, txnid, p, at, victim); }
      var w := Thread(g, if victim < 0 then NOBODY else victim);
      if g.txn[w] == victim { told := Some(w); }
    }
  }

  lemma VictimRuns(g: Graph, txnid: nat, p: seq<nat>, at: nat, victim: int)
    requires GraphOk(g) && Path(g, p) && at < |p| && p[0] == Thread(g, txnid) && g.txn[p[0]] == txnid
    requires VictimOf(g, p[at..], victim) && exists i :: 0 <= i < |p[at..]| && g.locks[p[at..][i]] < LIMIT
    ensures victim >= 0 && LeastOn(g, p[at..], Thread(g, victim)) && g.txn[Thread(g, victim)] == victim
  {
    var cycle := p[at..];
    var i :| 0 <= i < |cycle| && g.txn[cycle[i]] == victim
           && forall j :: 0 <= j < |cycle| ==> g.locks[cycle[i]] <= g.locks[cycle[j]];
    PathRuns(g, txnid, p, at + i);
    assert cycle[i] in cycle;
  }

  /** Two threads that wait for each other, where one runs the transaction with the first id that the cast changes. */
  function Pair(): Graph { Graph([LARGE, 1], [0, 0], [[1], [LARGE]]) }

  lemma PairCloses(u: nat, w: nat)
    requires ClosingEdge(Pair(), u, w)
    ensures u == 0 && w == 1
  {
    var j: nat :| ClosesAt(Pair(), u, w, j);
    assert u == 1 ==> j == 0 && SInt32(LARGE) != LARGE;
  }

  /** The pair waits in a cycle, and no path from the thread with the large id is closed by the test for a loop. */
  lemma PairIsMissed(p: seq<nat>, at: nat)
    ensures CycleReachable(Pair(), 0) && !ClosedLasso(Pair(), 0, p, at)
  {
    var g := Pair();
    assert EdgeAt(g, 0, 1, 0) && EdgeAt(g, 1, 0, 0);
    assert Lasso(g, 0, [0, 1], 0);
    if ClosedLasso(g, 0, p, at) { PairCloses(p[|p| - 1], p[at]); }
  }

  /** One bit more is too much: with ids up to 2^31 two transactions that wait for each other can go unnoticed. */
  method LargeIdIsMissed(b: nat) returns (g: Graph, deadlock: bool)
    requires b > LARGE
    ensures GraphOk(g) && IdsBelow(g, b) && g.txn[Thread(g, LARGE)] == LARGE && CycleReachable(g, Thread(g, LARGE))
    ensures !deadlock && g == Pair()
  {
    g := Pair();
    var victim;
    ghost var p, at;
    deadlock, victim, p, at := DetectCycle(g, LARGE);
    PairIsMissed(p, at);
  }

  /** A closed walk along live edges without repetition. */
  ghost predicate IsCycle(g: Graph, p: seq<nat>)
    requires |g.txn| > 0
  {
    Path(g, p) && NoDup(p) && |p| > 0 && Edge(g, p[|p| - 1], p[0]) && |p| <= Size(g) && |g.locks| == Size(g)
  }

  /** The victim is on the cycle and no transaction there holds fewer locks; there is none only if all of them hold
      1000 or more. */
  ghost predicate VictimOf(g: Graph, cycle: seq<nat>, victim: int)
    requires GraphOk(g) && InRange(g, cycle)
  {
    if forall i :: 0 <= i < |cycle| ==> g.locks[cycle[i]] >= LIMIT then victim == -1
    else exists i :: 0 <= i < |cycle| && g.txn[cycle[i]] == victim
           && forall j :: 0 <= j < |cycle| ==> g.locks[cycle[i]] <= g.locks[cycle[j]]
  }

  lemma VictimOnCycle(g: Graph, p: seq<nat>, at: nat)
    requires GraphOk(g) && at < |p| && InRange(g, p)
    ensures VictimOf(g, p[at..], Victim(g, p, at))
  {
    var cycle := p[at..];
    VictimIsLeast(g, p, at);
    forall j | 0 <= j < |cycle| ensures Least(g, p, at) <= g.locks[cycle[j]] { assert cycle[j] == p[at + j]; }
    if Least(g, p, at) < LIMIT {
      var i :| at <= i < |p| && g.locks[p[i]] == Least(g, p, at) && g.txn[p[i]] == Victim(g, p, at);
      assert cycle[i - at] == p[i];
    }
  }

  lemma LassoCycle(g: Graph, s: nat, p: seq<nat>, at: nat)
    requires GraphOk(g) && Lasso(g, s, p, at) && NoDup(p)
    ensures IsCycle(g, p[at..])
  {
    var q := p[at..];
    forall i | 0 <= i < |q| - 1 ensures Edge(g, q[i], q[i + 1]) { assert Edge(g, p[at + i], p[at + i + 1]); }
    Pigeonhole(q, Size(g));
  }
}
