/** What the callers of the stack of basic/lf_stack.c and the freelist of basic/lf_freelist.c see, from the acts that
    begin their calls: each push pushes its argument exactly once, each pop that returns has taken exactly one element
    or found the stack empty, and what a call that runs alone does, whatever the others were in the middle of. */
module TaggedStackCalls {
  import opened Prelude
  import opened TaggedStack

  predicate Begins(a: Act, t: Tid) { (a.StartPush? || a.StartPop?) && a.t == t }

  /** The latest of the first `i` acts that began a call of `t`; -1 if there is none. */
  ghost function CallOf(acts: seq<Act>, i: nat, t: Tid): (c: int)
    requires i <= |acts|
    ensures -1 <= c < i && (c >= 0 ==> Begins(acts[c], t))
  {
    if i == 0 then -1 else if Begins(acts[i - 1], t) then i - 1 else CallOf(acts, i - 1, t)
  }

  /** What a push is to push: the element with its data, which for the stack is an argument. */
  function Wanted(s: State, a: Act): Item
    requires a.StartPush?
  {
    Item(a.n, if s.kind.Stack? then a.d else At(s, a.n).data)
  }

  /** How many operations thread `t` has completed since it began its call. */
  ghost function DoneSince(run: seq<State>, acts: seq<Act>, i: nat, t: Tid): nat
    requires |run| == |acts| + 1 && i < |run|
  {
    if i == 0 || Begins(acts[i - 1], t) then 0
    else
      var before := DoneSince(run, acts, i - 1, t);
      if acts[i - 1].Run? && acts[i - 1].t == t && run[i].events != run[i - 1].events then before + 1 else before
  }

  /** A push of item `x` that has completed `n` operations. */
  predicate FitsPush(pc: Pc, x: Item, n: nat) {
    if pc.Idle? then n == 1 else InPush(pc) && pc.n == x.node && pc.d == x.data && n == 0
  }

  /** A pop that has completed `n` operations. */
  predicate FitsPop(pc: Pc, n: nat) {
    if pc.Idle? then n <= 1 else InPop(pc) && n == if pc.Got? then 1 else 0
  }

  lemma PushOn(s: State, t: Tid, x: Item, n: nat)
    requires Enabled(s, Run(t)) && FitsPush(PcOf(s, t), x, n)
    ensures var s' := Step(s, Run(t));
      if s'.events == s.events then FitsPush(PcOf(s', t), x, n)
      else FitsPush(PcOf(s', t), x, n + 1) && s'.events == s.events + [Pushed(x)]
  {
  }

  /** A pop takes the item that is on top. */
  lemma PopOn(s: State, t: Tid, n: nat)
    requires Chain(s) && Enabled(s, Run(t)) && FitsPop(PcOf(s, t), n)
    ensures var s' := Step(s, Run(t));
      if s'.events == s.events then FitsPop(PcOf(s', t), n)
      else
        && FitsPop(PcOf(s', t), n + 1) && |s.list| > 0
        && s'.events == s.events + [Popped(Item(s.list[|s.list| - 1].node, At(s, s.list[|s.list| - 1].node).data))]
  {
  }

  lemma OthersStay(s: State, a: Act, t: Tid)
    requires Enabled(s, a) && (a.SetData? || a.t != t)
    ensures PcOf(Step(s, a), t) == PcOf(s, t)
  {
  }

  lemma BeginsWell(s: State, a: Act)
    requires Enabled(s, a) && (a.StartPush? || a.StartPop?)
    ensures if a.StartPush? then FitsPush(PcOf(Step(s, a), a.t), Wanted(s, a), 0) else FitsPop(PcOf(Step(s, a), a.t), 0)
    ensures Step(s, a).events == s.events
  {
  }

  ghost predicate InCall(run: seq<State>, acts: seq<Act>, i: nat, t: Tid)
    requires |run| == |acts| + 1 && i < |run|
  {
    var c, n := CallOf(acts, i, t), DoneSince(run, acts, i, t);
    if c < 0 then PcOf(run[i], t).Idle?
    else if acts[c].StartPush? then FitsPush(PcOf(run[i], t), Wanted(run[c], acts[c]), n)
    else FitsPop(PcOf(run[i], t), n)
  }

  lemma {:induction false} AlwaysInCall(run: seq<State>, acts: seq<Act>, i: nat, t: Tid)
    requires IsRun(run, acts) && i < |run|
    ensures InCall(run, acts, i, t)
  {
    if i == 0 {
      assert PcOf(run[0], t).Idle?;
    } else {
      AlwaysInCall(run, acts, i - 1, t);
      assert MovesAt(run, acts, i - 1);
      var s, a, c := run[i - 1], acts[i - 1], CallOf(acts, i - 1, t);
      if Begins(a, t) {
        BeginsWell(s, a);
      } else if a.SetData? || a.t != t {
        OthersStay(s, a, t);
      } else if c >= 0 && acts[c].StartPush? {
        PushOn(s, t, Wanted(run[c], acts[c]), DoneSince(run, acts, i - 1, t));
      } else if c >= 0 {
        RunKeeps(run, acts, i - 1);
        PopOn(s, t, DoneSince(run, acts, i - 1, t));
      }
    }
  }

  /** What the log gains at act `i` is the push of what the call of its thread is to push, or the pop of
      the top item. */
  lemma LogsCall(run: seq<State>, acts: seq<Act>, i: nat)
    requires IsRun(run, acts) && i < |acts| && run[i + 1].events != run[i].events
    ensures acts[i].Run? && CallOf(acts, i, acts[i].t) >= 0
    ensures var s, c := run[i], CallOf(acts, i, acts[i].t);
      if acts[c].StartPush? then run[i + 1].events == s.events + [Pushed(Wanted(run[c], acts[c]))]
      else
        && |s.list| > 0
        && run[i + 1].events ==
             s.events + [Popped(Item(s.list[|s.list| - 1].node, At(s, s.list[|s.list| - 1].node).data))]
  {
    assert MovesAt(run, acts, i);
    var s, a := run[i], acts[i];
    if a.Run? {
      AlwaysInCall(run, acts, i, a.t);
      RunKeeps(run, acts, i);
      var c, n := CallOf(acts, i, a.t), DoneSince(run, acts, i, a.t);
      if acts[c].StartPush? { PushOn(s, a.t, Wanted(run[c], acts[c]), n); } else { PopOn(s, a.t, n); }
    }
  }

  /** The call of `t` returns at act `i`. */
  ghost predicate ReturnsAt(run: seq<State>, acts: seq<Act>, i: nat, t: Tid) {
    && |run| == |acts| + 1 && i < |acts| && acts[i] == Run(t) && CallOf(acts, i, t) >= 0
    && !PcOf(run[i], t).Idle? && PcOf(run[i + 1], t).Idle?
  }

  /** A push that returns has pushed its element with its data exactly once. */
  lemma PushTakesEffect(run: seq<State>, acts: seq<Act>, i: nat, t: Tid)
    requires IsRun(run, acts) && ReturnsAt(run, acts, i, t) && acts[CallOf(acts, i, t)].StartPush?
    ensures DoneSince(run, acts, i + 1, t) == 1
    ensures run[i + 1].events == run[i].events + [Pushed(Wanted(run[CallOf(acts, i, t)], acts[CallOf(acts, i, t)]))]
  {
    AlwaysInCall(run, acts, i, t);
    AlwaysInCall(run, acts, i + 1, t);
    assert run[i + 1].events != run[i].events;
    LogsCall(run, acts, i);
  }

  /** A pop that returns has taken exactly one element, or none, and then the stack was empty at an instant of the
      call. */
  lemma PopTakesEffect(run: seq<State>, acts: seq<Act>, i: nat, t: Tid)
    requires IsRun(run, acts) && ReturnsAt(run, acts, i, t) && acts[CallOf(acts, i, t)].StartPop?
    ensures DoneSince(run, acts, i + 1, t) <= 1
    ensures DoneSince(run, acts, i + 1, t) == 0 ==>
      exists k :: 0 <= k <= i && run[k].list == [] && forall h :: k <= h <= i ==> InPop(PcOf(run[h], t))
  {
    AlwaysInCall(run, acts, i, t);
    AlwaysInCall(run, acts, i + 1, t);
    if !PcOf(run[i], t).Got? { EmptyAnswerWasTrue(run, acts, i, t); }
  }

  // ----- calls that run alone

  /** The state after `n` steps of thread `t` alone. */
  ghost function Alone(s: State, t: Tid, n: nat): State
    decreases n
  {
    if n == 0 || !Enabled(s, Run(t)) then s else Alone(Step(s, Run(t)), t, n - 1)
  }

  /** Alone, a pop takes the top item; on an empty stack it returns empty-handed. */
  lemma PopAlone(s: State, t: Tid, n: nat)
    requires Chain(s) && Enabled(s, StartPop(t)) && n >= 6
    ensures var s' := Alone(Step(s, StartPop(t)), t, n);
      && PcOf(s', t).Idle?
      && if s.list == [] then s'.list == [] && s'.events == s.events
         else
           var m := s.list[|s.list| - 1].node;
           && s'.list == s.list[..|s.list| - 1] && s'.events == s.events + [Popped(Item(m, At(s, m).data))]
           && At(s', m).role.User?
  {
    var s0 := Step(s, StartPop(t));
    var s1 := Step(s0, Run(t));
    var s2 := Step(s1, Run(t));
    assert Alone(s0, t, n) == Alone(s1, t, n - 1) == Alone(s2, t, n - 2);
    if s.list != [] {
      var m, c := s.list[|s.list| - 1].node, s.list[|s.list| - 1].tag;
      assert PcOf(s2, t) == NextPtr(m, c);
      TakesTop(s2, t, m, c, n - 2);
    }
  }

  lemma TakesTop(s: State, t: Tid, m: Node, c: nat, n: nat)
    requires PcOf(s, t) == NextPtr(m, c) && s.top == Pair(Some(m), c) && n >= 4 && s.list != []
    ensures var s' := Alone(s, t, n);
      && PcOf(s', t).Idle? && s'.list == s.list[..|s.list| - 1] && At(s', m).role.User?
      && s'.events == s.events + [Popped(Item(m, At(s, m).data))]
  {
    var s1 := Step(s, Run(t));
    var s2 := Step(s1, Run(t));
    assert PcOf(s2, t) == PopSwap(m, c, At(s, m).next.ptr, At(s, m).next.ctr) && s2.top == s.top;
    assert Alone(s, t, n) == Alone(s1, t, n - 1) == Alone(s2, t, n - 2);
    SwapsTop(s2, t, m, c, n - 2);
  }

  lemma SwapsTop(s: State, t: Tid, m: Node, c: nat, n: nat)
    requires PcOf(s, t).PopSwap? && PcOf(s, t).m == m && PcOf(s, t).c == c && s.top == Pair(Some(m), c)
    requires n >= 2 && s.list != []
    ensures var s' := Alone(s, t, n);
      && PcOf(s', t).Idle? && s'.list == s.list[..|s.list| - 1] && At(s', m).role.User?
      && s'.events == s.events + [Popped(Item(m, At(s, m).data))]
  {
    var s1 := Step(s, Run(t));
    assert PcOf(s1, t) == Got(m, At(s, m).data);
    var s2 := Step(s1, Run(t));
    assert Alone(s, t, n) == Alone(s1, t, n - 1) == Alone(s2, t, n - 2) == s2;
  }

  /** From its loads on, a push that runs alone puts its element on top. */
  lemma PushesOn(s: State, t: Tid, x: Node, d: Data, tag: nat, n: nat)
    requires PcOf(s, t) == PushPtr(x, d, tag) && n >= 5
    ensures var s' := Alone(s, t, n);
      PcOf(s', t).Idle? && s'.list == s.list + [Entry(x, tag)] && s'.events == s.events + [Pushed(Item(x, d))]
  {
    var s1 := Step(s, Run(t));
    var s2 := Step(s1, Run(t));
    assert PcOf(s2, t) == StorePtr(x, d, tag, s.top.ptr, s.top.ctr) && s2.top == s.top;
    var s3 := Step(s2, Run(t));
    var s4 := Step(s3, Run(t));
    assert PcOf(s4, t) == PushSwap(x, d, tag, s.top.ptr, s.top.ctr) && s4.top == s.top;
    var s5 := Step(s4, Run(t));
    assert Alone(s, t, n) == Alone(s1, t, n - 1) == Alone(s2, t, n - 2) == Alone(s3, t, n - 3) == Alone(s4, t, n - 4)
        == Alone(s5, t, n - 5) == s5;
  }

  /** Alone, a push puts its element, with its data, on top. */
  lemma PushAlone(s: State, t: Tid, x: Node, d: Data, n: nat)
    requires Enabled(s, StartPush(t, x, d)) && n >= 9
    ensures var s' := Alone(Step(s, StartPush(t, x, d)), t, n);
      && PcOf(s', t).Idle? && s'.list == s.list + [Entry(x, s.aba + 1)]
      && s'.events == s.events + [Pushed(Wanted(s, StartPush(t, x, d)))]
  {
    var s0 := Step(s, StartPush(t, x, d));
    var s1 := Step(s0, Run(t));
    assert Alone(s0, t, n) == Alone(s1, t, n - 1);
    var data := Wanted(s, StartPush(t, x, d)).data;
    if s.kind.Stack? {
      var s2 := Step(s1, Run(t));
      var s3 := Step(s2, Run(t));
      var s4 := Step(s3, Run(t));
      assert Alone(s1, t, n - 1) == Alone(s2, t, n - 2) == Alone(s3, t, n - 3) == Alone(s4, t, n - 4);
      PushesOn(s4, t, x, data, s.aba + 1, n - 4);
    } else {
      PushesOn(s1, t, x, data, s.aba + 1, n - 1);
    }
  }
}
