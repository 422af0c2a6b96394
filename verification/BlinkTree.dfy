/** The B-link tree of sandbox/btree2s.c while pages split (`bt_loadpage`, `bt_splitpage`, `bt_splitroot`,
    `bt_insertkey` above the leaves), as a state machine whose steps are page writes and lock acquisitions.

    A split writes the new right page and cuts the left one, then, under the parent locks of both, posts the left
    page's new fence one level up and redirects the old fence to the right page.  Any number of splits and
    searches interleave.  Each search has a program counter of its own, also one that looks for the page to insert a
    key into: such an insertion writes the page its search has stopped at, before it lets go of the latch.
    Keys are integers, of which only the order matters; `top` stands for the stopper key. */
module BlinkTree {
  import opened Prelude

  type PageNo = nat
  type Tid = nat

  const ROOT: PageNo := 1

  /** A page covers the keys above `low` (a history value that the file does not store) up to its last key, its
      fence. */
  datatype Page = Page(lvl: nat, low: Option<int>, keys: seq<int>, ids: seq<PageNo>, right: PageNo)

  /** A search, or a split of page `p` at key `f` into `p` and `r`, where the old fence was `hi`. */
  datatype Pc =
    | Idle
    | Search(k: int, lvl: nat, at: PageNo)
    | Found(k: int, lvl: nat, at: PageNo)
    | Waiting(p: PageNo, r: PageNo, f: int, hi: int)
    | Posting(p: PageNo, r: PageNo, f: int, hi: int)
    | Redirecting(p: PageNo, r: PageNo, f: int, hi: int)
    | Releasing(p: PageNo, r: PageNo, f: int, hi: int)

  /** `owner`: who holds a page's parent lock; `writer`: who holds its write lock while waiting for the parent lock. */
  datatype State = State(
    top: int, pages: map<PageNo, Page>, pcs: map<Tid, Pc>, owner: map<PageNo, Tid>, writer: map<PageNo, Tid>)

  datatype Act =
    | StartSearch(t: Tid, k: int, lvl: nat)
    | SearchStep(t: Tid)
    | InsertLeaf(u: Tid, q: PageNo, k: int, id: PageNo)
    | Cut(t: Tid, p: PageNo, i: nat, r: PageNo)
    | Acquire(t: Tid)
    | Post(t: Tid, u: Tid, q: PageNo)
    | Redirect(t: Tid, u: Tid, q: PageNo)
    | Release(t: Tid)
    | SplitRoot(i: nat, a: PageNo, b: PageNo)

  function PcOf(s: State, t: Tid): Pc { if t in s.pcs then s.pcs[t] else Idle }

  function At(s: State, p: PageNo): Page { if p in s.pages then s.pages[p] else Page(0, None, [s.top], [0], 0) }

  function Goto(s: State, t: Tid, pc: Pc): State { s.(pcs := s.pcs[t := pc]) }

  function High(pg: Page): int { if |pg.keys| == 0 then 0 else pg.keys[|pg.keys| - 1] }

  predicate Over(low: Option<int>, k: int) { low.None? || low.value < k }

  predicate Covers(pg: Page, k: int) { Over(pg.low, k) && k <= High(pg) }

  /** The first slot whose key is not smaller than `k` (what `bt_findslot` finds). */
  function FindSlot(keys: seq<int>, k: int): (i: nat)
    ensures i <= |keys| && (forall j :: 0 <= j < i ==> keys[j] < k) && (i < |keys| ==> k <= keys[i])
  {
    if |keys| == 0 || k <= keys[0] then 0 else 1 + FindSlot(keys[1..], k)
  }

  function InsertAt<T>(l: seq<T>, i: nat, x: T): (r: seq<T>)
    requires i <= |l|
    ensures |r| == |l| + 1
    ensures forall j :: 0 <= j < |r| ==> r[j] == if j < i then l[j] else if j == i then x else l[j - 1]
  {
    l[..i] + [x] + l[i..]
  }

  /** `bt_insertkey` on the page: a key that is there gets the new id, another gets a slot of its own. */
  function Insert(pg: Page, k: int, id: PageNo): Page {
    var i := FindSlot(pg.keys, k);
    if |pg.ids| != |pg.keys| then pg
    else if i < |pg.keys| && pg.keys[i] == k then pg.(ids := pg.ids[i := id])
    else pg.(keys := InsertAt(pg.keys, i, k), ids := InsertAt(pg.ids, i, id))
  }

  predicate Pending(pc: Pc) { pc.Waiting? || pc.Posting? || pc.Redirecting? || pc.Releasing? }
  predicate Holding(pc: Pc) { pc.Posting? || pc.Redirecting? || pc.Releasing? }

  /** Search `u` for key `k` stops at page `q` of its level, with the page latched for writing. */
  predicate Latches(s: State, u: Tid, k: int, lvl: nat, q: PageNo) {
    && PcOf(s, u) == Search(k, lvl, q) && q !in s.writer && At(s, q).lvl == lvl
    && FindSlot(At(s, q).keys, k) < |At(s, q).keys|
  }

  predicate Enabled(s: State, a: Act) {
    match a
    case StartSearch(t, k, lvl) => PcOf(s, t).Idle? && k <= s.top && ROOT in s.pages && lvl <= At(s, ROOT).lvl
    case SearchStep(t) => PcOf(s, t).Search? || PcOf(s, t).Found?
    case InsertLeaf(u, q, k, id) => Latches(s, u, k, 0, q)
    case Cut(t, p, i, r) =>
      && PcOf(s, t).Idle? && p in s.pages && p != ROOT && p !in s.writer && i + 1 < |At(s, p).keys|
      && r !in s.pages && r > ROOT
    case Acquire(t) => PcOf(s, t).Waiting? && PcOf(s, t).p !in s.owner
    case Post(t, u, q) =>
      PcOf(s, t).Posting? && Latches(s, u, PcOf(s, t).f, At(s, PcOf(s, t).p).lvl + 1, q)
    case Redirect(t, u, q) =>
      PcOf(s, t).Redirecting? && Latches(s, u, PcOf(s, t).hi, At(s, PcOf(s, t).p).lvl + 1, q)
    case Release(t) => PcOf(s, t).Releasing?
    case SplitRoot(i, a, b) =>
      i + 1 < |At(s, ROOT).keys| && ROOT in s.pages && a !in s.pages && b !in s.pages && a != b && a > ROOT && b > ROOT
  }

  /** One turn of the loop in `bt_loadpage`: stop, go down, or slide right. */
  function Searched(s: State, t: Tid, k: int, lvl: nat, at: PageNo): State {
    var pg := At(s, at);
    var i := FindSlot(pg.keys, k);
    if i == |pg.keys| then Goto(s, t, Search(k, lvl, pg.right))
    else if pg.lvl == lvl then Goto(s, t, Found(k, lvl, at))
    else Goto(s, t, Search(k, lvl, if i < |pg.ids| then pg.ids[i] else 0))
  }

  /** The two pages of a split: the new right one is written first, then the left one is cut. */
  function LeftHalf(pg: Page, i: nat, r: PageNo): Page
    requires i + 1 < |pg.keys| && |pg.ids| == |pg.keys|
  {
    pg.(keys := pg.keys[..i + 1], ids := pg.ids[..i + 1], right := r)
  }

  function RightHalf(pg: Page, i: nat): Page
    requires i + 1 < |pg.keys| && |pg.ids| == |pg.keys|
  {
    pg.(low := Some(pg.keys[i]), keys := pg.keys[i + 1..], ids := pg.ids[i + 1..])
  }

  function CutStep(s: State, t: Tid, p: PageNo, i: nat, r: PageNo): State
    requires i + 1 < |At(s, p).keys|
  {
    var pg := At(s, p);
    if |pg.ids| != |pg.keys| then s else
      Goto(s, t, Waiting(p, r, pg.keys[i], High(pg))).(
        pages := s.pages[r := RightHalf(pg, i)][p := LeftHalf(pg, i, r)],
        owner := s.owner[r := t], writer := s.writer[p := t])
  }

  /** The root's halves become new pages and the root, one level higher, points at them. */
  function RootStep(s: State, i: nat, a: PageNo, b: PageNo): State
    requires i + 1 < |At(s, ROOT).keys|
  {
    var pg := At(s, ROOT);
    if |pg.ids| != |pg.keys| then s else
      s.(pages := s.pages[b := RightHalf(pg, i)][a := LeftHalf(pg, i, b)][
        ROOT := Page(pg.lvl + 1, None, [pg.keys[i], s.top], [a, b], 0)])
  }

  function LeafStep(s: State, q: PageNo, k: int, id: PageNo): State {
    s.(pages := s.pages[q := Insert(At(s, q), k, id)])
  }

  /** The fence of the left page goes into page `q` one level up. */
  function PostStep(s: State, t: Tid, q: PageNo): State
    requires PcOf(s, t).Posting?
  {
    var pc := PcOf(s, t);
    Goto(s, t, Redirecting(pc.p, pc.r, pc.f, pc.hi)).(pages := s.pages[q := Insert(At(s, q), pc.f, pc.p)])
  }

  /** The old fence in page `q` is redirected to the right page. */
  function RedirectStep(s: State, t: Tid, q: PageNo): State
    requires PcOf(s, t).Redirecting?
  {
    var pc := PcOf(s, t);
    Goto(s, t, Releasing(pc.p, pc.r, pc.f, pc.hi)).(pages := s.pages[q := Insert(At(s, q), pc.hi, pc.r)])
  }

  function Step(s: State, a: Act): State
    requires Enabled(s, a)
  {
    match a
    case StartSearch(t, k, lvl) => Goto(s, t, Search(k, lvl, ROOT))
    case SearchStep(t) =>
      (match PcOf(s, t)
       case Search(k, lvl, at) => Searched(s, t, k, lvl, at)
       case _ => Goto(s, t, Idle))
    case InsertLeaf(u, q, k, id) => LeafStep(Goto(s, u, Idle), q, k, id)
    case Cut(t, p, i, r) => CutStep(s, t, p, i, r)
    case Acquire(t) =>
      var pc := PcOf(s, t);
      Goto(s, t, Posting(pc.p, pc.r, pc.f, pc.hi)).(owner := s.owner[pc.p := t], writer := s.writer - {pc.p})
    case Post(t, u, q) => PostStep(Goto(s, u, Idle), t, q)
    case Redirect(t, u, q) => RedirectStep(Goto(s, u, Idle), t, q)
    case Release(t) => Goto(s, t, Idle).(owner := s.owner - {PcOf(s, t).p, PcOf(s, t).r})
    case SplitRoot(i, a, b) => RootStep(s, i, a, b)
  }

  // ----- the invariant

  ghost predicate Ascending(keys: seq<int>) {
    forall i, j :: 0 <= i < j < |keys| ==> keys[i] < keys[j]
  }

  /** The lower bound of slot `i`. */
  function Lower(pg: Page, i: int): Option<int> {
    if 0 < i <= |pg.keys| then Some(pg.keys[i - 1]) else pg.low
  }

  predicate NotAbove(a: Option<int>, b: Option<int>) { a.None? || (b.Some? && a.value <= b.value) }

  ghost predicate KeysOk(pg: Page, top: int) {
    && |pg.keys| > 0 && |pg.ids| == |pg.keys| && Ascending(pg.keys) && Over(pg.low, pg.keys[0])
    && High(pg) <= top && (pg.right == 0 <==> High(pg) == top)
  }

  /** The right link leads to the page that continues where this one ends. */
  ghost predicate RightOk(s: State, pg: Page) {
    pg.right != 0 ==> pg.right in s.pages && At(s, pg.right).lvl == pg.lvl && At(s, pg.right).low == Some(High(pg))
  }

  /** The page a slot points at is one level down and does not begin above the slot's range. */
  ghost predicate ChildOk(s: State, pg: Page, i: nat)
    requires i < |pg.ids|
  {
    && pg.ids[i] in s.pages && pg.ids[i] != ROOT && At(s, pg.ids[i]).lvl == pg.lvl - 1
    && NotAbove(At(s, pg.ids[i]).low, Lower(pg, i))
  }

  ghost predicate PageOk(s: State, p: PageNo) {
    p in s.pages ==>
      && KeysOk(At(s, p), s.top) && RightOk(s, At(s, p))
      && (p == ROOT ==> At(s, p).low == None && At(s, p).right == 0)
      && (p != ROOT ==> At(s, p).lvl < At(s, ROOT).lvl)
      && (At(s, p).lvl > 0 ==> forall i :: 0 <= i < |At(s, p).ids| ==> ChildOk(s, At(s, p), i))
  }

  /** Pages of one level do not overlap. */
  ghost predicate Apart(s: State, p: PageNo, q: PageNo) {
    p in s.pages && q in s.pages && p != q && At(s, p).lvl == At(s, q).lvl ==>
      || (At(s, q).low.Some? && High(At(s, p)) <= At(s, q).low.value)
      || (At(s, p).low.Some? && High(At(s, q)) <= At(s, p).low.value)
  }

  ghost predicate PostedIn(s: State, lvl: nat, x: int, q: PageNo) {
    q in s.pages && At(s, q).lvl == lvl && x in At(s, q).keys
  }

  /** Some page of the level has `x` as a key. */
  ghost predicate Posted(s: State, lvl: nat, x: int) { exists q :: PostedIn(s, lvl, x, q) }

  ghost predicate LowPosted(s: State, p: PageNo) {
    At(s, p).low.Some? ==> Posted(s, At(s, p).lvl + 1, At(s, p).low.value)
  }

  /** What a page's fence is, given the fence it had before a cut whose splitter still waits. */
  ghost predicate FenceIs(s: State, p: PageNo, x: int) {
    if p in s.writer then
      var u := PcOf(s, s.writer[p]);
      u.Waiting? && u.hi == x && High(At(s, p)) == u.f
    else High(At(s, p)) == x
  }

  /** With no split under way its bounds are posted; a splitter that holds it as left page cut it at `f`, one that
      holds it as right page gave it the bounds `f` and `hi`. */
  ghost predicate LocksOk(s: State, p: PageNo) {
    p in s.pages && p != ROOT ==>
      if p in s.owner then
        var u := PcOf(s, s.owner[p]);
        && Pending(u)
        && (u.p == p ==> Holding(u) && LowPosted(s, p) && FenceIs(s, p, u.f))
        && (u.p != p ==> u.r == p && At(s, p).low == Some(u.f) && FenceIs(s, p, u.hi))
      else
        LowPosted(s, p) && exists x :: FenceIs(s, p, x) && Posted(s, At(s, p).lvl + 1, x)
  }

  ghost predicate SplitOk(s: State, t: Tid) {
    var pc := PcOf(s, t);
    Pending(pc) ==>
      && pc.p in s.pages && pc.r in s.pages && pc.p != ROOT && pc.r != ROOT && pc.p != pc.r
      && At(s, pc.p).lvl == At(s, pc.r).lvl
      && Over(At(s, pc.p).low, pc.f) && pc.f < pc.hi <= s.top && At(s, pc.r).low == Some(pc.f)
      && pc.r in s.owner && s.owner[pc.r] == t
      && (pc.Waiting? ==> pc.p in s.writer && s.writer[pc.p] == t)
      && (Holding(pc) ==> pc.p in s.owner && s.owner[pc.p] == t && Posted(s, At(s, pc.p).lvl + 1, pc.hi))
      && (pc.Redirecting? || pc.Releasing? ==> Posted(s, At(s, pc.p).lvl + 1, pc.f))
  }

  /** A search stands on a page that begins below its key. */
  ghost predicate SearchOk(s: State, t: Tid) {
    var pc := PcOf(s, t);
    pc.Search? ==> pc.k <= s.top && pc.at in s.pages && pc.lvl <= At(s, pc.at).lvl && Over(At(s, pc.at).low, pc.k)
  }

  ghost predicate WriterOk(s: State, p: PageNo) {
    p in s.writer ==> PcOf(s, s.writer[p]).Waiting? && PcOf(s, s.writer[p]).p == p && p in s.pages && p != ROOT
  }

  ghost predicate OwnerOk(s: State, p: PageNo) { p in s.owner ==> p in s.pages && p != ROOT }

  ghost predicate Tree(s: State) {
    ROOT in s.pages && (forall p :: PageOk(s, p)) && (forall p, q :: Apart(s, p, q))
  }

  ghost predicate Locks(s: State) {
    (forall p :: LocksOk(s, p)) && (forall p :: WriterOk(s, p)) && (forall p :: OwnerOk(s, p))
  }

  ghost predicate Threads(s: State) {
    (forall t :: SplitOk(s, t)) && (forall t :: SearchOk(s, t))
  }

  ghost predicate Inv(s: State) { Tree(s) && Locks(s) && Threads(s) }

  // ----- steps that keep every page's range

  /** Every page keeps its level, bounds and right link, and no key disappears. */
  ghost predicate SameShape(s: State, s': State) {
    && s'.top == s.top && s'.owner == s.owner && s'.writer == s.writer
    && (forall p :: p in s.pages <==> p in s'.pages)
    && (forall p :: SamePage(At(s, p), At(s', p)))
  }

  ghost predicate SamePage(pg: Page, pg': Page) {
    && pg'.lvl == pg.lvl && pg'.low == pg.low && High(pg') == High(pg) && pg'.right == pg.right
    && forall x :: x in pg.keys ==> x in pg'.keys
  }

  /** The thread stays in the same split, on the same side of acquiring the parent lock. */
  ghost predicate SamePhase(pc: Pc, pc': Pc) {
    && (Pending(pc) <==> Pending(pc')) && (pc.Waiting? <==> pc'.Waiting?)
    && (Pending(pc) ==> pc'.p == pc.p && pc'.r == pc.r && pc'.f == pc.f && pc'.hi == pc.hi)
  }

  ghost predicate AllSamePhase(s: State, s': State) { forall t :: SamePhase(PcOf(s, t), PcOf(s', t)) }

  lemma PostedSame(s: State, s': State, lvl: nat, x: int)
    requires SameShape(s, s') && Posted(s, lvl, x)
    ensures Posted(s', lvl, x)
  {
    var q :| PostedIn(s, lvl, x, q);
    assert SamePage(At(s, q), At(s', q));
    assert PostedIn(s', lvl, x, q);
  }

  lemma LowPostedSame(s: State, s': State, p: PageNo)
    requires SameShape(s, s') && LowPosted(s, p)
    ensures LowPosted(s', p)
  {
    assert SamePage(At(s, p), At(s', p));
    if At(s, p).low.Some? { PostedSame(s, s', At(s, p).lvl + 1, At(s, p).low.value); }
  }

  lemma FenceSame(s: State, s': State, p: PageNo, x: int)
    requires SameShape(s, s') && AllSamePhase(s, s') && FenceIs(s, p, x)
    ensures FenceIs(s', p, x)
  {
    assert SamePage(At(s, p), At(s', p));
    if p in s.writer { assert SamePhase(PcOf(s, s.writer[p]), PcOf(s', s.writer[p])); }
  }

  lemma LocksSame(s: State, s': State, p: PageNo)
    requires SameShape(s, s') && AllSamePhase(s, s') && LocksOk(s, p) && WriterOk(s, p) && OwnerOk(s, p)
    ensures LocksOk(s', p) && WriterOk(s', p) && OwnerOk(s', p)
  {
    assert SamePage(At(s, p), At(s', p));
    if p in s.writer { assert SamePhase(PcOf(s, s.writer[p]), PcOf(s', s.writer[p])); }
    if p in s.pages && p != ROOT {
      if p in s.owner {
        var u := PcOf(s, s.owner[p]);
        assert SamePhase(u, PcOf(s', s.owner[p]));
        if u.p == p {
          LowPostedSame(s, s', p);
          FenceSame(s, s', p, u.f);
        } else {
          FenceSame(s, s', p, u.hi);
        }
      } else {
        LowPostedSame(s, s', p);
        var x :| FenceIs(s, p, x) && Posted(s, At(s, p).lvl + 1, x);
        FenceSame(s, s', p, x);
        PostedSame(s, s', At(s, p).lvl + 1, x);
      }
    }
  }

  /** A split in progress survives; posting `f` is the only phase change that needs a new fact. */
  lemma SplitSame(s: State, s': State, t: Tid)
    requires SameShape(s, s') && SamePhase(PcOf(s, t), PcOf(s', t)) && SplitOk(s, t)
    requires var pc := PcOf(s', t);
      Pending(pc) && (pc.Redirecting? || pc.Releasing?) ==> Posted(s', At(s, pc.p).lvl + 1, pc.f)
    ensures SplitOk(s', t)
  {
    var pc := PcOf(s, t);
    if Pending(pc) {
      assert SamePage(At(s, pc.p), At(s', pc.p)) && SamePage(At(s, pc.r), At(s', pc.r));
      if Holding(pc) { PostedSame(s, s', At(s, pc.p).lvl + 1, pc.hi); }
    }
  }

  lemma ApartSame(s: State, s': State)
    requires SameShape(s, s') && Tree(s)
    ensures forall p, q :: Apart(s', p, q)
  {
    forall p, q ensures Apart(s', p, q) {
      assert Apart(s, p, q) && SamePage(At(s, p), At(s', p)) && SamePage(At(s, q), At(s', q));
    }
  }

  /** A page whose slots did not change is still in order. */
  lemma PageSame(s: State, s': State, p: PageNo)
    requires SameShape(s, s') && PageOk(s, p) && At(s', p) == At(s, p)
    ensures PageOk(s', p)
  {
    var pg := At(s, p);
    assert SamePage(At(s, ROOT), At(s', ROOT)) && SamePage(At(s, pg.right), At(s', pg.right));
    if p in s.pages && pg.lvl > 0 {
      forall i | 0 <= i < |pg.ids| ensures ChildOk(s', pg, i) {
        assert ChildOk(s, pg, i) && SamePage(At(s, pg.ids[i]), At(s', pg.ids[i]));
      }
    }
  }

  lemma SearchSame(s: State, s': State, t: Tid)
    requires SameShape(s, s') && SearchOk(s, t) && PcOf(s', t) == PcOf(s, t)
    ensures SearchOk(s', t)
  {
    if PcOf(s, t).Search? { assert SamePage(At(s, PcOf(s, t).at), At(s', PcOf(s, t).at)); }
  }

  // ----- searches

  lemma PcOnlyKeeps(s: State, t: Tid, pc: Pc)
    requires Inv(s) && !Pending(PcOf(s, t)) && !Pending(pc) && SearchOk(Goto(s, t, pc), t)
    ensures Inv(Goto(s, t, pc))
  {
    var s' := Goto(s, t, pc);
    forall p ensures SamePage(At(s, p), At(s', p)) {}
    assert AllSamePhase(s, s');
    forall p ensures PageOk(s', p) { assert PageOk(s, p); PageSame(s, s', p); }
    ApartSame(s, s');
    forall p ensures LocksOk(s', p) && WriterOk(s', p) && OwnerOk(s', p) {
      assert LocksOk(s, p) && WriterOk(s, p) && OwnerOk(s, p);
      LocksSame(s, s', p);
    }
    forall u ensures SplitOk(s', u) && SearchOk(s', u) {
      assert SplitOk(s, u) && SearchOk(s, u);
      if u != t { SplitOther(s, s', u); SearchSame(s, s', u); }
    }
  }

  lemma SplitOther(s: State, s': State, t: Tid)
    requires SameShape(s, s') && PcOf(s', t) == PcOf(s, t) && SplitOk(s, t)
    ensures SplitOk(s', t)
  {
    var pc := PcOf(s, t);
    if pc.Redirecting? || pc.Releasing? { PostedSame(s, s', At(s, pc.p).lvl + 1, pc.f); }
    SplitSame(s, s', t);
  }

  /** One turn of the search loop leads to a page that still begins below the key, or stops on a page that covers
      it; it never runs off the end of the chain. */
  lemma SearchTurn(s: State, k: int, lvl: nat, at: PageNo)
    requires Tree(s) && at in s.pages && k <= s.top && lvl <= At(s, at).lvl && Over(At(s, at).low, k)
    ensures var pg := At(s, at); var i := FindSlot(pg.keys, k);
      if i == |pg.keys| then pg.right in s.pages && At(s, pg.right).lvl == pg.lvl && Over(At(s, pg.right).low, k)
      else
        && Covers(pg, k) && i < |pg.ids|
        && (pg.lvl > lvl ==>
              pg.ids[i] in s.pages && At(s, pg.ids[i]).lvl == pg.lvl - 1 && Over(At(s, pg.ids[i]).low, k))
  {
    var pg := At(s, at);
    var i := FindSlot(pg.keys, k);
    assert PageOk(s, at);
    if i < |pg.keys| {
      if i < |pg.keys| - 1 { assert pg.keys[i] < pg.keys[|pg.keys| - 1]; }
      if pg.lvl > lvl { assert ChildOk(s, pg, i); }
    } else {
      assert High(pg) < k;
    }
  }

  lemma SearchKeeps(s: State, t: Tid)
    requires Inv(s) && Enabled(s, SearchStep(t))
    ensures Inv(Step(s, SearchStep(t)))
  {
    var pc := PcOf(s, t);
    assert SearchOk(s, t);
    if pc.Search? {
      SearchTurn(s, pc.k, pc.lvl, pc.at);
      PcOnlyKeeps(s, t, PcOf(Searched(s, t, pc.k, pc.lvl, pc.at), t));
    } else {
      PcOnlyKeeps(s, t, Idle);
    }
  }

  /** Page `q` of the level can be written and is the one for key `k`. */
  ghost predicate Target(s: State, q: PageNo, lvl: nat, k: int) {
    q in s.pages && q !in s.writer && At(s, q).lvl == lvl && Covers(At(s, q), k)
  }

  /** The page a search has stopped at covers its key, and ending the search leaves everything else in order. */
  lemma LatchedIsTarget(s: State, u: Tid, k: int, lvl: nat, q: PageNo)
    requires Inv(s) && Latches(s, u, k, lvl, q)
    ensures Target(s, q, lvl, k)
    ensures Inv(Goto(s, u, Idle)) && Target(Goto(s, u, Idle), q, lvl, k)
  {
    assert SearchOk(s, u);
    SearchTurn(s, k, lvl, q);
    PcOnlyKeeps(s, u, Idle);
  }

  // ----- inserting a slot

  /** Pages of one level that cover the same key are the same page. */
  lemma CoverUnique(s: State, p: PageNo, q: PageNo, k: int)
    requires Tree(s) && p in s.pages && q in s.pages && At(s, p).lvl == At(s, q).lvl
    requires Covers(At(s, p), k) && Covers(At(s, q), k)
    ensures p == q
  {
    assert Apart(s, p, q);
  }

  lemma KeyIsCovered(s: State, p: PageNo, x: int)
    requires PageOk(s, p) && p in s.pages && x in At(s, p).keys
    ensures Covers(At(s, p), x)
  {
    var keys := At(s, p).keys;
    var i :| 0 <= i < |keys| && keys[i] == x;
    if i > 0 { assert keys[0] < keys[i]; }
    if i < |keys| - 1 { assert keys[i] < keys[|keys| - 1]; }
  }

  /** A boundary of the level below `k` is not above the lower bound of the slot for `k`. */
  lemma BoundaryBelow(s: State, lvl: nat, x: int, q: PageNo, k: int)
    requires Tree(s) && Posted(s, lvl, x) && q in s.pages && At(s, q).lvl == lvl && Covers(At(s, q), k) && x < k
    ensures NotAbove(Some(x), Lower(At(s, q), FindSlot(At(s, q).keys, k)))
  {
    var q' :| PostedIn(s, lvl, x, q');
    assert PageOk(s, q') && PageOk(s, q) && Apart(s, q, q');
    KeyIsCovered(s, q', x);
    var keys, i := At(s, q).keys, FindSlot(At(s, q).keys, k);
    if q' == q {
      var j :| 0 <= j < |keys| && keys[j] == x;
      assert j < i;
      if j < i - 1 { assert keys[j] < keys[i - 1]; }
    } else if i > 0 {
      KeyIsCovered(s, q, keys[i - 1]);
    }
  }

  lemma InsertAscending(keys: seq<int>, i: nat, k: int)
    requires Ascending(keys) && i < |keys| && k < keys[i] && (i > 0 ==> keys[i - 1] < k)
    ensures Ascending(InsertAt(keys, i, k))
  {
    var keys' := InsertAt(keys, i, k);
    forall a, b | 0 <= a < b < |keys'| ensures keys'[a] < keys'[b] {
      var x, y := if a < i then a else a - 1, if b < i then b else b - 1;
      if a != i && b != i {
        assert keys[x] < keys[y];
      } else if a == i {
        if i < y { assert keys[i] < keys[y]; }
      } else if x < i - 1 {
        assert keys[x] < keys[i - 1];
      }
    }
  }

  lemma InsertMembers(keys: seq<int>, i: nat, k: int)
    requires i <= |keys|
    ensures k in InsertAt(keys, i, k) && forall x :: x in keys ==> x in InsertAt(keys, i, k)
  {
    var keys' := InsertAt(keys, i, k);
    assert keys'[i] == k;
    forall x | x in keys ensures x in keys' {
      var j :| 0 <= j < |keys| && keys[j] == x;
      assert keys'[if j < i then j else j + 1] == x;
    }
  }

  lemma InsertKeys(pg: Page, top: int, k: int, id: PageNo)
    requires KeysOk(pg, top) && Covers(pg, k)
    ensures KeysOk(Insert(pg, k, id), top) && SamePage(pg, Insert(pg, k, id)) && k in Insert(pg, k, id).keys
  {
    var i := FindSlot(pg.keys, k);
    if pg.keys[i] != k {
      InsertAscending(pg.keys, i, k);
      InsertMembers(pg.keys, i, k);
    }
  }

  /** A slot beside the inserted one keeps its page, and its range begins no lower than before. */
  lemma SlotShifts(s: State, pg: Page, i: nat, k: int, id: PageNo, j: nat)
    requires |pg.ids| == |pg.keys| && i < |pg.keys| && j <= |pg.keys| && j != i
    requires if i == 0 then Over(pg.low, k) else pg.keys[i - 1] < k
    requires ChildOk(s, pg, if j < i then j else j - 1)
    ensures ChildOk(s, pg.(keys := InsertAt(pg.keys, i, k), ids := InsertAt(pg.ids, i, id)), j)
  {
    var pg' := pg.(keys := InsertAt(pg.keys, i, k), ids := InsertAt(pg.ids, i, id));
    if j > 0 {
      assert pg'.keys[j - 1] == if j - 1 < i then pg.keys[j - 1] else if j - 1 == i then k else pg.keys[j - 2];
    }
  }

  /** The new or changed slot points at a page that does not begin above the slot's range. */
  lemma InsertChildren(s: State, q: PageNo, k: int, id: PageNo, j: nat)
    requires PageOk(s, q) && q in s.pages && Covers(At(s, q), k) && At(s, q).lvl > 0
    requires id in s.pages && id != ROOT && At(s, id).lvl == At(s, q).lvl - 1
    requires NotAbove(At(s, id).low, Lower(At(s, q), FindSlot(At(s, q).keys, k)))
    requires j < |Insert(At(s, q), k, id).ids|
    ensures ChildOk(s, Insert(At(s, q), k, id), j)
  {
    var pg, i := At(s, q), FindSlot(At(s, q).keys, k);
    if pg.keys[i] == k {
      assert ChildOk(s, pg, j);
    } else if j != i {
      assert ChildOk(s, pg, if j < i then j else j - 1);
      SlotShifts(s, pg, i, k, id, j);
    }
  }

  lemma PageInserted(s: State, s': State, q: PageNo, k: int, id: PageNo)
    requires Tree(s) && q in s.pages && Covers(At(s, q), k)
    requires s'.top == s.top && s'.owner == s.owner && s'.writer == s.writer
    requires s'.pages == s.pages[q := Insert(At(s, q), k, id)]
    requires At(s, q).lvl > 0 ==>
      && id in s.pages && id != ROOT && At(s, id).lvl == At(s, q).lvl - 1
      && NotAbove(At(s, id).low, Lower(At(s, q), FindSlot(At(s, q).keys, k)))
    ensures SameShape(s, s') && Tree(s') && Posted(s', At(s, q).lvl, k)
  {
    var pg' := Insert(At(s, q), k, id);
    assert PageOk(s, q);
    InsertKeys(At(s, q), s.top, k, id);
    forall p ensures SamePage(At(s, p), At(s', p)) {}
    assert PostedIn(s', At(s, q).lvl, k, q);
    ApartSame(s, s');
    forall p ensures PageOk(s', p) {
      assert PageOk(s, p);
      if p != q { PageSame(s, s', p); } else { InsertedOk(s, s', q, k, id); }
    }
  }

  lemma InsertedOk(s: State, s': State, q: PageNo, k: int, id: PageNo)
    requires Tree(s) && q in s.pages && Covers(At(s, q), k) && SameShape(s, s') && At(s', q) == Insert(At(s, q), k, id)
    requires At(s, q).lvl > 0 ==>
      && id in s.pages && id != ROOT && At(s, id).lvl == At(s, q).lvl - 1
      && NotAbove(At(s, id).low, Lower(At(s, q), FindSlot(At(s, q).keys, k)))
    ensures PageOk(s', q)
  {
    var pg, pg' := At(s, q), At(s', q);
    assert PageOk(s, q) && SamePage(At(s, ROOT), At(s', ROOT)) && SamePage(At(s, pg.right), At(s', pg.right))
      && SamePage(pg, pg');
    InsertKeys(pg, s.top, k, id);
    if pg.lvl > 0 {
      forall j | 0 <= j < |pg'.ids| ensures ChildOk(s', pg', j) {
        InsertChildren(s, q, k, id, j);
        assert SamePage(At(s, pg'.ids[j]), At(s', pg'.ids[j]));
      }
    }
  }

  /** Locks and other threads do not notice an insertion. */
  lemma InsertedKeeps(s: State, s': State, t: Tid)
    requires Inv(s) && SameShape(s, s') && Tree(s')
    requires (forall u :: u != t ==> PcOf(s', u) == PcOf(s, u)) && SamePhase(PcOf(s, t), PcOf(s', t))
    requires SplitOk(s', t) && SearchOk(s', t)
    ensures Inv(s')
  {
    assert AllSamePhase(s, s');
    forall p ensures LocksOk(s', p) && WriterOk(s', p) && OwnerOk(s', p) {
      assert LocksOk(s, p) && WriterOk(s, p) && OwnerOk(s, p);
      LocksSame(s, s', p);
    }
    forall u ensures SplitOk(s', u) && SearchOk(s', u) {
      assert SplitOk(s, u) && SearchOk(s, u);
      if u != t { SplitOther(s, s', u); SearchSame(s, s', u); }
    }
  }

  lemma LeafKeeps(s: State, q: PageNo, k: int, id: PageNo)
    requires Inv(s) && Target(s, q, 0, k)
    ensures Inv(LeafStep(s, q, k, id))
  {
    var s' := LeafStep(s, q, k, id);
    PageInserted(s, s', q, k, id);
    assert SplitOk(s, 0) && SearchOk(s, 0);
    SplitOther(s, s', 0);
    SearchSame(s, s', 0);
    InsertedKeeps(s, s', 0);
  }

  /** Posting the fence of the left page: the slot it lands in begins at or above the left page's lower bound. */
  lemma PostSlot(s: State, t: Tid, q: PageNo)
    requires Inv(s) && PcOf(s, t).Posting? && Target(s, q, At(s, PcOf(s, t).p).lvl + 1, PcOf(s, t).f)
    ensures var pc := PcOf(s, t);
      && SplitOk(s, t) && pc.p in s.pages && pc.p != ROOT
      && NotAbove(At(s, pc.p).low, Lower(At(s, q), FindSlot(At(s, q).keys, pc.f)))
  {
    var pc := PcOf(s, t);
    assert SplitOk(s, t) && LocksOk(s, pc.p);
    if At(s, pc.p).low.Some? { BoundaryBelow(s, At(s, q).lvl, At(s, pc.p).low.value, q, pc.f); }
  }

  lemma PostKeeps(s: State, t: Tid, q: PageNo)
    requires Inv(s) && PcOf(s, t).Posting? && Target(s, q, At(s, PcOf(s, t).p).lvl + 1, PcOf(s, t).f)
    ensures Inv(PostStep(s, t, q))
  {
    var s', pc := PostStep(s, t, q), PcOf(s, t);
    PostSlot(s, t, q);
    PageInserted(s, s', q, pc.f, pc.p);
    SplitSame(s, s', t);
    InsertedKeeps(s, s', t);
  }

  /** The old fence is there to be redirected, and the right page begins where its slot begins. */
  lemma RedirectSlot(s: State, t: Tid, q: PageNo)
    requires Inv(s) && PcOf(s, t).Redirecting? && Target(s, q, At(s, PcOf(s, t).p).lvl + 1, PcOf(s, t).hi)
    ensures var pc := PcOf(s, t);
      && SplitOk(s, t) && pc.r in s.pages && pc.r != ROOT && At(s, pc.r).lvl + 1 == At(s, q).lvl
      && NotAbove(At(s, pc.r).low, Lower(At(s, q), FindSlot(At(s, q).keys, pc.hi)))
      && pc.hi in At(s, q).keys
  {
    var pc := PcOf(s, t);
    assert SplitOk(s, t);
    BoundaryBelow(s, At(s, q).lvl, pc.f, q, pc.hi);
    var q' :| PostedIn(s, At(s, q).lvl, pc.hi, q');
    assert PageOk(s, q');
    KeyIsCovered(s, q', pc.hi);
    CoverUnique(s, q, q', pc.hi);
  }

  ghost predicate Moved(s: State, s': State, t: Tid, q: PageNo, k: int, id: PageNo, pc: Pc) {
    && s'.top == s.top && s'.owner == s.owner && s'.writer == s.writer
    && s'.pages == s.pages[q := Insert(At(s, q), k, id)]
    && PcOf(s', t) == pc && forall u :: u != t ==> PcOf(s', u) == PcOf(s, u)
  }

  lemma Redirected(s: State, s': State, t: Tid, q: PageNo, pc: Pc)
    requires Inv(s) && PcOf(s, t) == pc && pc.Redirecting? && SplitOk(s, t)
    requires Moved(s, s', t, q, pc.hi, pc.r, Releasing(pc.p, pc.r, pc.f, pc.hi))
    requires SameShape(s, s') && Tree(s')
    ensures Inv(s')
  {
    PostedSame(s, s', At(s, pc.p).lvl + 1, pc.f);
    SplitSame(s, s', t);
    InsertedKeeps(s, s', t);
  }

  lemma RedirectKeeps(s: State, t: Tid, q: PageNo)
    requires Inv(s) && PcOf(s, t).Redirecting? && Target(s, q, At(s, PcOf(s, t).p).lvl + 1, PcOf(s, t).hi)
    ensures Inv(RedirectStep(s, t, q))
  {
    var s', pc := RedirectStep(s, t, q), PcOf(s, t);
    RedirectSlot(s, t, q);
    PageInserted(s, s', q, pc.hi, pc.r);
    Redirected(s, s', t, q, pc);
  }

  // ----- taking and giving back the parent locks

  lemma TreeUntouched(s: State, s': State)
    requires Tree(s) && s'.pages == s.pages && s'.top == s.top
    ensures Tree(s')
  {
    forall p ensures PageOk(s', p) {
      assert PageOk(s, p);
      var pg := At(s, p);
      if p in s.pages && pg.lvl > 0 {
        forall i | 0 <= i < |pg.ids| ensures ChildOk(s', pg, i) { assert ChildOk(s, pg, i); }
      }
    }
    forall p, q ensures Apart(s', p, q) { assert Apart(s, p, q); }
  }

  lemma PostedUntouched(s: State, s': State, lvl: nat, x: int)
    requires s'.pages == s.pages && s'.top == s.top && Posted(s, lvl, x)
    ensures Posted(s', lvl, x)
  {
    var q :| PostedIn(s, lvl, x, q);
    assert PostedIn(s', lvl, x, q);
  }

  lemma LowPostedUntouched(s: State, s': State, p: PageNo)
    requires s'.pages == s.pages && s'.top == s.top && LowPosted(s, p)
    ensures LowPosted(s', p)
  {
    if At(s, p).low.Some? { PostedUntouched(s, s', At(s, p).lvl + 1, At(s, p).low.value); }
  }

  /** A page whose locks, and whose lock holders' splits, are as before. */
  lemma LockUntouched(s: State, s': State, p: PageNo)
    requires s'.pages == s.pages && s'.top == s.top && LocksOk(s, p) && p in s.pages && p != ROOT
    requires (p in s'.owner <==> p in s.owner) && (p in s'.writer <==> p in s.writer)
    requires p in s.owner ==> s'.owner[p] == s.owner[p] && SamePhaseOrLater(PcOf(s, s.owner[p]), PcOf(s', s.owner[p]))
    requires p in s.writer ==> s'.writer[p] == s.writer[p] && PcOf(s', s.writer[p]) == PcOf(s, s.writer[p])
    ensures LocksOk(s', p)
  {
    if p in s.owner {
      var u := PcOf(s, s.owner[p]);
      if u.p == p { LowPostedUntouched(s, s', p); }
    } else {
      LowPostedUntouched(s, s', p);
      var x :| FenceIs(s, p, x) && Posted(s, At(s, p).lvl + 1, x);
      PostedUntouched(s, s', At(s, p).lvl + 1, x);
      assert FenceIs(s', p, x);
    }
  }

  ghost predicate SamePhaseOrLater(pc: Pc, pc': Pc) {
    && Pending(pc) && Pending(pc') && (Holding(pc) ==> Holding(pc'))
    && pc'.p == pc.p && pc'.r == pc.r && pc'.f == pc.f && pc'.hi == pc.hi
  }

  lemma SplitUntouched(s: State, s': State, u: Tid)
    requires s'.pages == s.pages && s'.top == s.top && SplitOk(s, u) && PcOf(s', u) == PcOf(s, u)
    requires var pc := PcOf(s, u); Pending(pc) ==>
      && pc.r in s'.owner && s'.owner[pc.r] == u
      && (pc.Waiting? ==> pc.p in s'.writer && s'.writer[pc.p] == u)
      && (Holding(pc) ==> pc.p in s'.owner && s'.owner[pc.p] == u)
    ensures SplitOk(s', u)
  {
    var pc := PcOf(s, u);
    if Holding(pc) { PostedUntouched(s, s', At(s, pc.p).lvl + 1, pc.hi); }
    if pc.Redirecting? || pc.Releasing? { PostedUntouched(s, s', At(s, pc.p).lvl + 1, pc.f); }
  }

  lemma AcquireOwn(s: State, t: Tid)
    requires Inv(s) && Enabled(s, Acquire(t))
    ensures var s', p := Step(s, Acquire(t)), PcOf(s, t).p; SplitOk(s', t) && LocksOk(s', p)
  {
    var s', pc := Step(s, Acquire(t)), PcOf(s, t);
    assert SplitOk(s, t) && LocksOk(s, pc.p);
    var x :| FenceIs(s, pc.p, x) && Posted(s, At(s, pc.p).lvl + 1, x);
    PostedUntouched(s, s', At(s, pc.p).lvl + 1, x);
    LowPostedUntouched(s, s', pc.p);
  }

  lemma AcquireOther(s: State, t: Tid, p: PageNo)
    requires Inv(s) && Enabled(s, Acquire(t)) && p != PcOf(s, t).p
    ensures LocksOk(Step(s, Acquire(t)), p)
  {
    var s' := Step(s, Acquire(t));
    assert SplitOk(s, t) && LocksOk(s, p) && WriterOk(s, p);
    if p in s.pages && p != ROOT { LockUntouched(s, s', p); }
  }

  lemma AcquireKeeps(s: State, t: Tid)
    requires Inv(s) && Enabled(s, Acquire(t))
    ensures Inv(Step(s, Acquire(t)))
  {
    var s', pc := Step(s, Acquire(t)), PcOf(s, t);
    assert SplitOk(s, t);
    TreeUntouched(s, s');
    AcquireOwn(s, t);
    forall p ensures LocksOk(s', p) { if p != pc.p { AcquireOther(s, t, p); } }
    forall p ensures WriterOk(s', p) && OwnerOk(s', p) { assert WriterOk(s, p) && OwnerOk(s, p); }
    forall u ensures SplitOk(s', u) && SearchOk(s', u) {
      assert SplitOk(s, u) && SearchOk(s, u);
      if u != t { SplitUntouched(s, s', u); }
    }
  }

  lemma ReleaseOwn(s: State, t: Tid)
    requires Inv(s) && Enabled(s, Release(t))
    ensures var s', pc := Step(s, Release(t)), PcOf(s, t); LocksOk(s', pc.p) && LocksOk(s', pc.r)
  {
    var s', pc := Step(s, Release(t)), PcOf(s, t);
    assert SplitOk(s, t) && LocksOk(s, pc.p) && LocksOk(s, pc.r) && WriterOk(s, pc.p) && WriterOk(s, pc.r);
    PostedUntouched(s, s', At(s, pc.p).lvl + 1, pc.f);
    PostedUntouched(s, s', At(s, pc.p).lvl + 1, pc.hi);
    LowPostedUntouched(s, s', pc.p);
    assert FenceIs(s', pc.p, pc.f) && FenceIs(s', pc.r, pc.hi);
  }

  lemma ReleaseOther(s: State, t: Tid, p: PageNo)
    requires Inv(s) && Enabled(s, Release(t)) && p != PcOf(s, t).p && p != PcOf(s, t).r
    ensures LocksOk(Step(s, Release(t)), p)
  {
    var s' := Step(s, Release(t));
    assert LocksOk(s, p) && WriterOk(s, p);
    if p in s.pages && p != ROOT { LockUntouched(s, s', p); }
  }

  lemma ReleaseKeeps(s: State, t: Tid)
    requires Inv(s) && Enabled(s, Release(t))
    ensures Inv(Step(s, Release(t)))
  {
    var s', pc := Step(s, Release(t)), PcOf(s, t);
    assert SplitOk(s, t);
    TreeUntouched(s, s');
    ReleaseOwn(s, t);
    forall p ensures LocksOk(s', p) { if p != pc.p && p != pc.r { ReleaseOther(s, t, p); } }
    forall p ensures WriterOk(s', p) && OwnerOk(s', p) { assert WriterOk(s, p) && OwnerOk(s, p); }
    forall u ensures SplitOk(s', u) && SearchOk(s', u) {
      assert SplitOk(s, u) && SearchOk(s, u);
      if u != t { SplitUntouched(s, s', u); }
    }
  }

  // ----- cutting a page

  lemma Halves(pg: Page, top: int, i: nat, r: PageNo)
    requires KeysOk(pg, top) && i + 1 < |pg.keys| && r != 0
    ensures KeysOk(LeftHalf(pg, i, r), top) && KeysOk(RightHalf(pg, i), top)
    ensures High(LeftHalf(pg, i, r)) == pg.keys[i] < High(pg) == High(RightHalf(pg, i)) && Over(pg.low, pg.keys[i])
  {
    assert pg.keys[i] < pg.keys[|pg.keys| - 1];
    if i > 0 { assert pg.keys[0] < pg.keys[i]; }
  }

  lemma HalfMembers(pg: Page, i: nat, r: PageNo, x: int)
    requires i + 1 < |pg.keys| && |pg.ids| == |pg.keys| && x in pg.keys
    ensures x in LeftHalf(pg, i, r).keys || x in RightHalf(pg, i).keys
  {
    var j :| 0 <= j < |pg.keys| && pg.keys[j] == x;
    if j <= i { assert LeftHalf(pg, i, r).keys[j] == x; } else { assert RightHalf(pg, i).keys[j - i - 1] == x; }
  }

  /** Old pages keep their lower bound and, but for the root, their level; no key disappears from a level. */
  ghost predicate Extends(s: State, s': State) {
    && s'.top == s.top && (forall p :: Kept(s, s', p))
    && (forall lvl, x :: Posted(s, lvl, x) ==> Posted(s', lvl, x))
  }

  ghost predicate Kept(s: State, s': State, p: PageNo) {
    p in s.pages ==>
      && p in s'.pages && At(s', p).low == At(s, p).low && At(s', p).lvl >= At(s, p).lvl
      && (p != ROOT ==> At(s', p).lvl == At(s, p).lvl)
  }

  lemma HalfChildren(s: State, s': State, pg: Page, i: nat, r: PageNo)
    requires Extends(s, s') && i + 1 < |pg.keys| && |pg.ids| == |pg.keys| && pg.lvl > 0
    requires forall j :: 0 <= j < |pg.ids| ==> ChildOk(s, pg, j)
    ensures forall j :: 0 <= j < |LeftHalf(pg, i, r).ids| ==> ChildOk(s', LeftHalf(pg, i, r), j)
    ensures forall j :: 0 <= j < |RightHalf(pg, i).ids| ==> ChildOk(s', RightHalf(pg, i), j)
  {
    var a, b := LeftHalf(pg, i, r), RightHalf(pg, i);
    forall j | 0 <= j < |a.ids| ensures ChildOk(s', a, j) {
      assert ChildOk(s, pg, j) && Kept(s, s', pg.ids[j]);
    }
    forall j | 0 <= j < |b.ids| ensures ChildOk(s', b, j) {
      assert ChildOk(s, pg, j + i + 1) && Kept(s, s', pg.ids[j + i + 1]);
    }
  }

  /** A page that is not one of the halves stays in order. */
  lemma PageKept(s: State, s': State, p: PageNo)
    requires Extends(s, s') && PageOk(s, p) && p in s.pages && p != ROOT && ROOT in s.pages && At(s', p) == At(s, p)
    ensures PageOk(s', p)
  {
    var pg := At(s, p);
    assert Kept(s, s', pg.right) && Kept(s, s', ROOT);
    if pg.lvl > 0 {
      forall j | 0 <= j < |pg.ids| ensures ChildOk(s', pg, j) { assert ChildOk(s, pg, j) && Kept(s, s', pg.ids[j]); }
    }
  }

  lemma LowPostedKept(s: State, s': State, p: PageNo)
    requires Extends(s, s') && p in s.pages && p != ROOT && LowPosted(s, p)
    ensures LowPosted(s', p)
  {
    assert Kept(s, s', p);
  }

  lemma SearchKept(s: State, s': State, t: Tid)
    requires Extends(s, s') && SearchOk(s, t) && PcOf(s', t) == PcOf(s, t)
    ensures SearchOk(s', t)
  {
    if PcOf(s, t).Search? { assert Kept(s, s', PcOf(s, t).at); }
  }

  lemma SplitKept(s: State, s': State, u: Tid)
    requires Extends(s, s') && SplitOk(s, u) && PcOf(s', u) == PcOf(s, u)
    requires var pc := PcOf(s, u); Pending(pc) ==>
      && pc.r in s'.owner && s'.owner[pc.r] == u
      && (pc.Waiting? ==> pc.p in s'.writer && s'.writer[pc.p] == u)
      && (Holding(pc) ==> pc.p in s'.owner && s'.owner[pc.p] == u)
    ensures SplitOk(s', u)
  {
    var pc := PcOf(s, u);
    if Pending(pc) { assert Kept(s, s', pc.p) && Kept(s, s', pc.r); }
  }

  lemma CutExtends(s: State, t: Tid, p: PageNo, i: nat, r: PageNo)
    requires Tree(s) && Enabled(s, Cut(t, p, i, r))
    ensures Extends(s, CutStep(s, t, p, i, r))
  {
    var s', pg := CutStep(s, t, p, i, r), At(s, p);
    assert PageOk(s, p);
    forall q ensures Kept(s, s', q) {}
    forall lvl, x | Posted(s, lvl, x) ensures Posted(s', lvl, x) {
      var q :| PostedIn(s, lvl, x, q);
      if q == p {
        HalfMembers(pg, i, r, x);
        assert PostedIn(s', lvl, x, p) || PostedIn(s', lvl, x, r);
      } else {
        assert PostedIn(s', lvl, x, q);
      }
    }
  }

  lemma CutPages(s: State, t: Tid, p: PageNo, i: nat, r: PageNo)
    requires Tree(s) && Enabled(s, Cut(t, p, i, r))
    ensures forall q :: PageOk(CutStep(s, t, p, i, r), q)
  {
    var s', pg := CutStep(s, t, p, i, r), At(s, p);
    assert PageOk(s, p) && PageOk(s, ROOT);
    CutExtends(s, t, p, i, r);
    Halves(pg, s.top, i, r);
    assert Kept(s, s', pg.right) && Kept(s, s', ROOT);
    if pg.lvl > 0 { HalfChildren(s, s', pg, i, r); }
    forall q ensures PageOk(s', q) {
      if q in s.pages && q != p {
        assert PageOk(s, q);
        if q == ROOT { RootKept(s, s'); } else { PageKept(s, s', q); }
      }
    }
  }

  lemma RootKept(s: State, s': State)
    requires Extends(s, s') && PageOk(s, ROOT) && ROOT in s.pages && At(s', ROOT) == At(s, ROOT)
    ensures PageOk(s', ROOT)
  {
    var pg := At(s, ROOT);
    assert Kept(s, s', ROOT);
    if pg.lvl > 0 {
      forall j | 0 <= j < |pg.ids| ensures ChildOk(s', pg, j) { assert ChildOk(s, pg, j) && Kept(s, s', pg.ids[j]); }
    }
  }

  lemma CutApart(s: State, t: Tid, p: PageNo, i: nat, r: PageNo, x: PageNo, y: PageNo)
    requires Tree(s) && Enabled(s, Cut(t, p, i, r))
    ensures Apart(CutStep(s, t, p, i, r), x, y)
  {
    var pg := At(s, p);
    assert PageOk(s, p);
    Halves(pg, s.top, i, r);
    assert Apart(s, if x == r then p else x, if y == r then p else y);
  }

  /** The page that was cut: its splitter's `hi` is the fence it had. */
  lemma CutLocksLeft(s: State, t: Tid, p: PageNo, i: nat, r: PageNo)
    requires Inv(s) && Enabled(s, Cut(t, p, i, r))
    ensures LocksOk(CutStep(s, t, p, i, r), p)
  {
    var s', pg := CutStep(s, t, p, i, r), At(s, p);
    assert PageOk(s, p) && LocksOk(s, p) && OwnerOk(s, r);
    CutExtends(s, t, p, i, r);
    Halves(pg, s.top, i, r);
    assert FenceIs(s', p, High(pg));
    if p in s.owner {
      if PcOf(s, s.owner[p]).p == p { LowPostedKept(s, s', p); }
    } else {
      LowPostedKept(s, s', p);
    }
  }

  lemma CutLocksRight(s: State, t: Tid, p: PageNo, i: nat, r: PageNo)
    requires Inv(s) && Enabled(s, Cut(t, p, i, r))
    ensures LocksOk(CutStep(s, t, p, i, r), r)
  {
    assert PageOk(s, p) && WriterOk(s, r);
    Halves(At(s, p), s.top, i, r);
  }

  /** A page away from the cut. */
  lemma LockKept(s: State, s': State, q: PageNo)
    requires Extends(s, s') && LocksOk(s, q) && q in s.pages && q != ROOT && At(s', q) == At(s, q)
    requires (q in s'.owner <==> q in s.owner) && (q in s'.writer <==> q in s.writer)
    requires q in s.owner ==> s'.owner[q] == s.owner[q] && PcOf(s', s.owner[q]) == PcOf(s, s.owner[q])
    requires q in s.writer ==> s'.writer[q] == s.writer[q] && PcOf(s', s.writer[q]) == PcOf(s, s.writer[q])
    ensures LocksOk(s', q)
  {
    if q in s.owner {
      if PcOf(s, s.owner[q]).p == q { LowPostedKept(s, s', q); }
    } else {
      LowPostedKept(s, s', q);
      var x :| FenceIs(s, q, x) && Posted(s, At(s, q).lvl + 1, x);
      assert FenceIs(s', q, x);
    }
  }

  lemma CutLocks(s: State, t: Tid, p: PageNo, i: nat, r: PageNo, q: PageNo)
    requires Inv(s) && Enabled(s, Cut(t, p, i, r))
    ensures var s' := CutStep(s, t, p, i, r); LocksOk(s', q) && WriterOk(s', q) && OwnerOk(s', q)
  {
    var s' := CutStep(s, t, p, i, r);
    assert PageOk(s, p) && LocksOk(s, q) && WriterOk(s, q) && OwnerOk(s, q);
    if q == p {
      CutLocksLeft(s, t, p, i, r);
    } else if q == r {
      CutLocksRight(s, t, p, i, r);
    } else if q in s.pages && q != ROOT {
      CutExtends(s, t, p, i, r);
      LockKept(s, s', q);
    }
  }

  lemma CutKeeps(s: State, t: Tid, p: PageNo, i: nat, r: PageNo)
    requires Inv(s) && Enabled(s, Cut(t, p, i, r))
    ensures Inv(CutStep(s, t, p, i, r))
  {
    var s' := CutStep(s, t, p, i, r);
    CutExtends(s, t, p, i, r);
    CutPages(s, t, p, i, r);
    forall x, y ensures Apart(s', x, y) { CutApart(s, t, p, i, r, x, y); }
    forall q ensures LocksOk(s', q) && WriterOk(s', q) && OwnerOk(s', q) { CutLocks(s, t, p, i, r, q); }
    forall u ensures SplitOk(s', u) && SearchOk(s', u) { CutThread(s, t, p, i, r, u); }
  }

  lemma CutThread(s: State, t: Tid, p: PageNo, i: nat, r: PageNo, u: Tid)
    requires Inv(s) && Enabled(s, Cut(t, p, i, r))
    ensures var s' := CutStep(s, t, p, i, r); SplitOk(s', u) && SearchOk(s', u)
  {
    if u == t {
      CutSelf(s, t, p, i, r);
    } else {
      var s' := CutStep(s, t, p, i, r);
      assert PageOk(s, p) && SplitOk(s, u) && SearchOk(s, u);
      CutExtends(s, t, p, i, r);
      SplitKept(s, s', u);
      SearchKept(s, s', u);
    }
  }

  lemma CutSelf(s: State, t: Tid, p: PageNo, i: nat, r: PageNo)
    requires Tree(s) && Enabled(s, Cut(t, p, i, r))
    ensures var s' := CutStep(s, t, p, i, r); SplitOk(s', t) && SearchOk(s', t)
  {
    assert PageOk(s, p);
    Halves(At(s, p), s.top, i, r);
  }

  // ----- splitting the root

  lemma RootExtends(s: State, i: nat, a: PageNo, b: PageNo)
    requires Tree(s) && Enabled(s, SplitRoot(i, a, b))
    ensures Extends(s, RootStep(s, i, a, b))
  {
    var s', pg := RootStep(s, i, a, b), At(s, ROOT);
    assert PageOk(s, ROOT);
    forall q ensures Kept(s, s', q) {}
    forall lvl, x | Posted(s, lvl, x) ensures Posted(s', lvl, x) {
      var q :| PostedIn(s, lvl, x, q);
      if q == ROOT {
        HalfMembers(pg, i, b, x);
        assert PostedIn(s', lvl, x, a) || PostedIn(s', lvl, x, b);
      } else {
        assert PostedIn(s', lvl, x, q);
      }
    }
  }

  lemma RootPages(s: State, i: nat, a: PageNo, b: PageNo)
    requires Tree(s) && Enabled(s, SplitRoot(i, a, b))
    ensures forall q :: PageOk(RootStep(s, i, a, b), q)
  {
    forall q ensures PageOk(RootStep(s, i, a, b), q) {
      if q == ROOT || q == a || q == b { RootNewPages(s, i, a, b); } else { RootOldPage(s, i, a, b, q); }
    }
  }

  lemma RootOldPage(s: State, i: nat, a: PageNo, b: PageNo, q: PageNo)
    requires Tree(s) && Enabled(s, SplitRoot(i, a, b)) && q != ROOT && q != a && q != b
    ensures PageOk(RootStep(s, i, a, b), q)
  {
    assert PageOk(s, q);
    RootExtends(s, i, a, b);
    if q in s.pages { PageKept(s, RootStep(s, i, a, b), q); }
  }

  /** The new root and the two pages that take its keys. */
  lemma RootNewPages(s: State, i: nat, a: PageNo, b: PageNo)
    requires Tree(s) && Enabled(s, SplitRoot(i, a, b))
    ensures var s' := RootStep(s, i, a, b); PageOk(s', ROOT) && PageOk(s', a) && PageOk(s', b)
  {
    var s', pg := RootStep(s, i, a, b), At(s, ROOT);
    assert PageOk(s, ROOT);
    Halves(pg, s.top, i, b);
    NewRootOk(s', pg.lvl, pg.keys[i], a, b);
    RootExtends(s, i, a, b);
    if pg.lvl > 0 { HalfChildren(s, s', pg, i, b); }
    HalfPages(s', pg, i, a, b);
  }

  lemma HalfPages(s: State, pg: Page, i: nat, a: PageNo, b: PageNo)
    requires i + 1 < |pg.keys| && |pg.ids| == |pg.keys| && a in s.pages && b in s.pages && a != ROOT && b != ROOT
    requires At(s, a) == LeftHalf(pg, i, b) && At(s, b) == RightHalf(pg, i) && pg.lvl < At(s, ROOT).lvl && pg.right == 0
    requires KeysOk(LeftHalf(pg, i, b), s.top) && KeysOk(RightHalf(pg, i), s.top)
      && High(LeftHalf(pg, i, b)) == pg.keys[i]
    requires pg.lvl > 0 ==> forall j :: 0 <= j < |LeftHalf(pg, i, b).ids| ==> ChildOk(s, LeftHalf(pg, i, b), j)
    requires pg.lvl > 0 ==> forall j :: 0 <= j < |RightHalf(pg, i).ids| ==> ChildOk(s, RightHalf(pg, i), j)
    ensures PageOk(s, a) && PageOk(s, b)
  {
  }

  lemma NewRootOk(s: State, lvl: nat, f: int, a: PageNo, b: PageNo)
    requires At(s, ROOT) == Page(lvl + 1, None, [f, s.top], [a, b], 0) && f < s.top && a != ROOT && b != ROOT
    requires a in s.pages && b in s.pages && At(s, a).lvl == At(s, b).lvl == lvl
    requires At(s, a).low == None && At(s, b).low == Some(f)
    ensures PageOk(s, ROOT)
  {
    var root := At(s, ROOT);
    assert ChildOk(s, root, 0) && ChildOk(s, root, 1);
  }

  lemma RootApart(s: State, i: nat, a: PageNo, b: PageNo, x: PageNo, y: PageNo)
    requires Tree(s) && Enabled(s, SplitRoot(i, a, b))
    ensures Apart(RootStep(s, i, a, b), x, y)
  {
    assert PageOk(s, ROOT) && PageOk(s, x) && PageOk(s, y) && Apart(s, x, y);
    Halves(At(s, ROOT), s.top, i, b);
  }

  lemma RootLocks(s: State, i: nat, a: PageNo, b: PageNo, q: PageNo)
    requires Inv(s) && Enabled(s, SplitRoot(i, a, b))
    ensures var s' := RootStep(s, i, a, b); LocksOk(s', q) && WriterOk(s', q) && OwnerOk(s', q)
  {
    if q == a || q == b {
      RootHalfLocks(s, i, a, b);
    } else {
      var s' := RootStep(s, i, a, b);
      assert PageOk(s, ROOT) && LocksOk(s, q) && WriterOk(s, q) && OwnerOk(s, q);
      RootExtends(s, i, a, b);
      if q in s.pages && q != ROOT { LockKept(s, s', q); }
    }
  }

  /** The bounds of the two pages that take the root's keys are posted in the new root. */
  lemma RootHalfLocks(s: State, i: nat, a: PageNo, b: PageNo)
    requires Inv(s) && Enabled(s, SplitRoot(i, a, b))
    ensures var s' := RootStep(s, i, a, b);
      && LocksOk(s', a) && WriterOk(s', a) && OwnerOk(s', a) && LocksOk(s', b) && WriterOk(s', b) && OwnerOk(s', b)
  {
    var s', pg := RootStep(s, i, a, b), At(s, ROOT);
    assert PageOk(s, ROOT) && WriterOk(s, a) && OwnerOk(s, a) && WriterOk(s, b) && OwnerOk(s, b);
    Halves(pg, s.top, i, b);
    var f := pg.keys[i];
    assert At(s', ROOT).keys[0] == f && At(s', ROOT).keys[1] == s.top;
    assert PostedIn(s', pg.lvl + 1, f, ROOT) && PostedIn(s', pg.lvl + 1, s.top, ROOT);
    assert FenceIs(s', a, f) && FenceIs(s', b, s.top);
  }

  lemma RootKeeps(s: State, i: nat, a: PageNo, b: PageNo)
    requires Inv(s) && Enabled(s, SplitRoot(i, a, b))
    ensures Inv(RootStep(s, i, a, b))
  {
    var s' := RootStep(s, i, a, b);
    assert PageOk(s, ROOT);
    RootExtends(s, i, a, b);
    RootPages(s, i, a, b);
    forall x, y ensures Apart(s', x, y) { RootApart(s, i, a, b, x, y); }
    forall q ensures LocksOk(s', q) && WriterOk(s', q) && OwnerOk(s', q) { RootLocks(s, i, a, b, q); }
    forall u ensures SplitOk(s', u) && SearchOk(s', u) {
      assert SplitOk(s, u) && SearchOk(s, u);
      SplitKept(s, s', u);
      SearchKept(s, s', u);
    }
  }

  lemma StepKeeps(s: State, a: Act)
    requires Inv(s) && Enabled(s, a)
    ensures Inv(Step(s, a))
  {
    match a
    case StartSearch(t, k, lvl) => assert PageOk(s, ROOT); PcOnlyKeeps(s, t, Search(k, lvl, ROOT));
    case SearchStep(t) => SearchKeeps(s, t);
    case InsertLeaf(u, q, k, id) => LatchedIsTarget(s, u, k, 0, q); LeafKeeps(Goto(s, u, Idle), q, k, id);
    case Cut(t, p, i, r) => CutKeeps(s, t, p, i, r);
    case Acquire(t) => AcquireKeeps(s, t);
    case Post(t, u, q) =>
      LatchedIsTarget(s, u, PcOf(s, t).f, At(s, PcOf(s, t).p).lvl + 1, q);
      PostKeeps(Goto(s, u, Idle), t, q);
    case Redirect(t, u, q) =>
      LatchedIsTarget(s, u, PcOf(s, t).hi, At(s, PcOf(s, t).p).lvl + 1, q);
      RedirectKeeps(Goto(s, u, Idle), t, q);
    case Release(t) => ReleaseKeeps(s, t);
    case SplitRoot(i, a, b) => RootKeeps(s, i, a, b);
  }

  // ----- whole runs

  const LEAF: PageNo := 2

  /** The tree `bt_open` creates: a root over one leaf, each with the stopper key alone. */
  ghost predicate Init(s: State) {
    && s.pages == map[ROOT := Page(1, None, [s.top], [LEAF], 0), LEAF := Page(0, None, [s.top], [0], 0)]
    && s.owner == map[] && s.writer == map[] && forall t :: PcOf(s, t).Idle?
  }

  ghost predicate MovesAt(run: seq<State>, acts: seq<Act>, i: int)
    requires 0 <= i < |acts| && |run| == |acts| + 1
  {
    Enabled(run[i], acts[i]) && run[i + 1] == Step(run[i], acts[i])
  }

  ghost predicate IsRun(run: seq<State>, acts: seq<Act>) {
    |run| == |acts| + 1 && Init(run[0]) && forall i :: 0 <= i < |acts| ==> MovesAt(run, acts, i)
  }

  lemma InitOk(s: State)
    requires Init(s)
    ensures Inv(s)
  {
    assert ChildOk(s, At(s, ROOT), 0);
    assert At(s, ROOT).keys[0] == s.top;
    assert PostedIn(s, 1, s.top, ROOT);
    assert FenceIs(s, LEAF, s.top);
    forall t ensures SplitOk(s, t) && SearchOk(s, t) { assert PcOf(s, t).Idle?; }
  }

  lemma {:induction false} RunKeeps(run: seq<State>, acts: seq<Act>, i: nat)
    requires IsRun(run, acts) && i < |run|
    ensures Inv(run[i])
  {
    if i == 0 {
      InitOk(run[0]);
    } else {
      RunKeeps(run, acts, i - 1);
      assert MovesAt(run, acts, i - 1);
      StepKeeps(run[i - 1], acts[i - 1]);
    }
  }

  /** Whatever splits are half done, a search that stops has stopped on the one page of its level that covers the
      key at that moment. */
  lemma SearchFindsPage(run: seq<State>, acts: seq<Act>, i: nat, t: Tid)
    requires IsRun(run, acts) && i < |acts| && acts[i] == SearchStep(t)
    requires PcOf(run[i], t).Search? && PcOf(run[i + 1], t).Found?
    ensures var s, pc := run[i], PcOf(run[i], t);
      && pc.at in s.pages && At(s, pc.at).lvl == pc.lvl && Covers(At(s, pc.at), pc.k)
      && forall q :: q in s.pages && At(s, q).lvl == pc.lvl && Covers(At(s, q), pc.k) ==> q == pc.at
  {
    var s, pc := run[i], PcOf(run[i], t);
    RunKeeps(run, acts, i);
    assert MovesAt(run, acts, i) && SearchOk(s, t);
    SearchTurn(s, pc.k, pc.lvl, pc.at);
    forall q | q in s.pages && At(s, q).lvl == pc.lvl && Covers(At(s, q), pc.k) ensures q == pc.at {
      CoverUnique(s, q, pc.at, pc.k);
    }
  }

  /** Whatever has happened since its search began, an insertion writes the one page of its level that covers
      the key. */
  lemma InsertionFindsPage(run: seq<State>, acts: seq<Act>, i: nat, u: Tid, k: int, lvl: nat, q: PageNo)
    requires IsRun(run, acts) && i < |run| && Latches(run[i], u, k, lvl, q)
    ensures Target(run[i], q, lvl, k)
    ensures forall p :: p in run[i].pages && At(run[i], p).lvl == lvl && Covers(At(run[i], p), k) ==> p == q
  {
    var s := run[i];
    RunKeeps(run, acts, i);
    LatchedIsTarget(s, u, k, lvl, q);
    forall p | p in s.pages && At(s, p).lvl == lvl && Covers(At(s, p), k) ensures p == q { CoverUnique(s, p, q, k); }
  }

  /** A search never falls off the end of a right chain or meets a page of the wrong level. */
  lemma SearchStaysInTree(run: seq<State>, acts: seq<Act>, i: nat, t: Tid)
    requires IsRun(run, acts) && i < |run| && PcOf(run[i], t).Search?
    ensures var s, pc := run[i], PcOf(run[i], t);
      pc.at in s.pages && pc.lvl <= At(s, pc.at).lvl && Over(At(s, pc.at).low, pc.k)
  {
    RunKeeps(run, acts, i);
    assert SearchOk(run[i], t);
  }

  lemma {:induction false} LowerThanAll(s: State, ps: set<PageNo>) returns (k: int)
    requires ps <= s.pages.Keys
    ensures k <= s.top && forall p :: p in ps && At(s, p).low.Some? ==> k <= At(s, p).low.value
    decreases |ps|
  {
    if ps == {} {
      k := s.top;
    } else {
      var p :| p in ps;
      k := LowerThanAll(s, ps - {p});
      if At(s, p).low.Some? && At(s, p).low.value < k { k := At(s, p).low.value; }
    }
  }

  /** In every state of every run each level begins at the left end: descending with a key below all bounds gets
      there. */
  lemma LevelsBegin(run: seq<State>, acts: seq<Act>, i: nat, lvl: nat) returns (p: PageNo)
    requires IsRun(run, acts) && i < |run| && lvl <= At(run[i], ROOT).lvl
    ensures p in run[i].pages && At(run[i], p).lvl == lvl && At(run[i], p).low.None?
  {
    var s := run[i];
    RunKeeps(run, acts, i);
    assert PageOk(s, ROOT);
    var k := LowerThanAll(s, s.pages.Keys);
    p := Descend(s, k, lvl, ROOT);
  }

  /** In every state of every run each level is a chain of pages without gap or overlap that ends at the stopper. */
  lemma LevelsAreChains(run: seq<State>, acts: seq<Act>, i: nat, p: PageNo)
    requires IsRun(run, acts) && i < |run| && p in run[i].pages
    ensures RightOk(run[i], At(run[i], p)) && (At(run[i], p).right == 0 <==> High(At(run[i], p)) == run[i].top)
    ensures forall q :: Apart(run[i], p, q)
  {
    RunKeeps(run, acts, i);
    assert PageOk(run[i], p);
    forall q ensures Apart(run[i], p, q) {}
  }

  // ----- a search comes to an end

  /** The pages of the level that begin further right. */
  ghost function Rightward(s: State, p: PageNo): set<PageNo> {
    set q | q in s.pages && At(s, q).lvl == At(s, p).lvl && At(s, q).low.Some? && Over(At(s, p).low, At(s, q).low.value)
  }

  lemma FewerRightward(s: State, p: PageNo)
    requires Tree(s) && p in s.pages && At(s, p).right != 0
    ensures |Rightward(s, At(s, p).right)| < |Rightward(s, p)|
  {
    var r := At(s, p).right;
    assert PageOk(s, p);
    KeyIsCovered(s, p, High(At(s, p)));
    assert r in Rightward(s, p) && r !in Rightward(s, r) && Rightward(s, r) <= Rightward(s, p);
    var rest := Rightward(s, p) - Rightward(s, r);
    assert r in rest && Rightward(s, p) == Rightward(s, r) + rest;
  }

  /** The whole of `bt_loadpage` on a tree that holds still: down and to the right, with (level, pages to the right)
      going down, it reaches the page of the wanted level that covers the key. */
  ghost function Descend(s: State, k: int, lvl: nat, at: PageNo): (r: PageNo)
    requires Tree(s) && at in s.pages && k <= s.top && lvl <= At(s, at).lvl && Over(At(s, at).low, k)
    ensures r in s.pages && At(s, r).lvl == lvl && Covers(At(s, r), k)
    decreases At(s, at).lvl, |Rightward(s, at)|
  {
    var pg := At(s, at);
    var i := FindSlot(pg.keys, k);
    SearchTurn(s, k, lvl, at);
    if i == |pg.keys| then
      NotLast(s, at, k);
      FewerRightward(s, at);
      Descend(s, k, lvl, pg.right)
    else if pg.lvl == lvl then at
    else Descend(s, k, lvl, pg.ids[i])
  }

  lemma NotLast(s: State, at: PageNo, k: int)
    requires Tree(s) && at in s.pages && k <= s.top && FindSlot(At(s, at).keys, k) == |At(s, at).keys|
    ensures At(s, at).right != 0
  {
    assert PageOk(s, at);
  }
}
