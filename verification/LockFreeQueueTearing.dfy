/** Two concurrent enqueuers can hide an element: a run of basic/lf_queue.c in which a `next` pair is read in two
    halves, the node is recycled, and the stale DCAS of line 74 then succeeds on a node that another enqueue is still
    initialising.  The first enqueue returns, and the same thread's dequeue answers "empty" although nobody has
    dequeued its element.  With at most one enqueuer at a time this cannot happen. */
module LockFreeQueueTearing {
  import opened LockFreeQueue
  import opened LockFreeQueueEveryRun
  import opened Prelude

  /** Three nodes (0 is the first dummy) and two threads. */
  function St(enq: Pair, deq: Pair, m0: Cell, m1: Cell, m2: Cell, aba: nat, free: set<Node>,
              pc0: Pc, pc1: Pc, enqLog: seq<Data>, deqLog: seq<Data>): State {
    State(enq, deq, map[0 := m0, 1 := m1, 2 := m2], aba, free, map[0 := pc0, 1 := pc1], enqLog, deqLog)
  }

  const A := Elem(1, 10)
  const B := Elem(2, 20)
  const C := Elem(0, 30)

  ghost predicate ScriptMoves(i: nat) {
    Moves(Script(i), ScriptAct(i), Script(i + 1))
  }

  const LENGTH: nat := 53

  /** Thread 0 takes node 1 and reads the pointer half of the dummy's `next`: null. */
  function ReadHalf(i: nat): State {
    match i
    case 0 =>
      St(Pair(0, 0), Pair(0, 0), Cell(None, 0, 0), Cell(None, 0, 0), Cell(None, 0, 0), 0, {1, 2},
         Idle, Idle, [], [])
    case 1 =>
      St(Pair(0, 0), Pair(0, 0), Cell(None, 0, 0), Cell(None, 0, 0), Cell(None, 0, 0), 0, {1, 2},
         Pop238(10), Idle, [], [])
    case 2 =>
      St(Pair(0, 0), Pair(0, 0), Cell(None, 0, 0), Cell(None, 0, 0), Cell(None, 0, 0), 0, {2},
         Inc260(A), Idle, [], [])
    case 3 =>
      St(Pair(0, 0), Pair(0, 0), Cell(None, 0, 0), Cell(None, 0, 0), Cell(None, 0, 0), 1, {2},
         Clear261(A), Idle, [], [])
    case 4 =>
      St(Pair(0, 0), Pair(0, 0), Cell(None, 0, 0), Cell(None, 0, 0), Cell(None, 0, 0), 1, {2},
         Inc262(A), Idle, [], [])
    case 5 =>
      St(Pair(0, 0), Pair(0, 0), Cell(None, 0, 0), Cell(None, 0, 0), Cell(None, 0, 0), 2, {2},
         Store262(A, 2), Idle, [], [])
    case 6 =>
      St(Pair(0, 0), Pair(0, 0), Cell(None, 0, 0), Cell(None, 2, 0), Cell(None, 0, 0), 2, {2},
         Store264(A), Idle, [], [])
    case 7 =>
      St(Pair(0, 0), Pair(0, 0), Cell(None, 0, 0), Cell(None, 2, 10), Cell(None, 0, 0), 2, {2},
         E66(A), Idle, [], [])
    case 8 =>
      St(Pair(0, 0), Pair(0, 0), Cell(None, 0, 0), Cell(None, 2, 10), Cell(None, 0, 0), 2, {2},
         E67(A, 0), Idle, [], [])
    case 9 =>
      St(Pair(0, 0), Pair(0, 0), Cell(None, 0, 0), Cell(None, 2, 10), Cell(None, 0, 0), 2, {2},
         E68(A, 0, 0), Idle, [], [])
    case _ =>
      St(Pair(0, 0), Pair(0, 0), Cell(None, 0, 0), Cell(None, 2, 10), Cell(None, 0, 0), 2, {2},
         E69(A, 0, 0, None), Idle, [], [])
  }

  /** Thread 1 takes node 2 and goes as far as its swap. */
  function TakeTwo(i: nat): State {
    match i
    case 11 =>
      St(Pair(0, 0), Pair(0, 0), Cell(None, 0, 0), Cell(None, 2, 10), Cell(None, 0, 0), 2, {2},
         E69(A, 0, 0, None), Pop238(20), [], [])
    case 12 =>
      St(Pair(0, 0), Pair(0, 0), Cell(None, 0, 0), Cell(None, 2, 10), Cell(None, 0, 0), 2, {},
         E69(A, 0, 0, None), Inc260(B), [], [])
    case 13 =>
      St(Pair(0, 0), Pair(0, 0), Cell(None, 0, 0), Cell(None, 2, 10), Cell(None, 0, 0), 3, {},
         E69(A, 0, 0, None), Clear261(B), [], [])
    case 14 =>
      St(Pair(0, 0), Pair(0, 0), Cell(None, 0, 0), Cell(None, 2, 10), Cell(None, 0, 0), 3, {},
         E69(A, 0, 0, None), Inc262(B), [], [])
    case 15 =>
      St(Pair(0, 0), Pair(0, 0), Cell(None, 0, 0), Cell(None, 2, 10), Cell(None, 0, 0), 4, {},
         E69(A, 0, 0, None), Store262(B, 4), [], [])
    case 16 =>
      St(Pair(0, 0), Pair(0, 0), Cell(None, 0, 0), Cell(None, 2, 10), Cell(None, 4, 0), 4, {},
         E69(A, 0, 0, None), Store264(B), [], [])
    case 17 =>
      St(Pair(0, 0), Pair(0, 0), Cell(None, 0, 0), Cell(None, 2, 10), Cell(None, 4, 20), 4, {},
         E69(A, 0, 0, None), E66(B), [], [])
    case 18 =>
      St(Pair(0, 0), Pair(0, 0), Cell(None, 0, 0), Cell(None, 2, 10), Cell(None, 4, 20), 4, {},
         E69(A, 0, 0, None), E67(B, 0), [], [])
    case 19 =>
      St(Pair(0, 0), Pair(0, 0), Cell(None, 0, 0), Cell(None, 2, 10), Cell(None, 4, 20), 4, {},
         E69(A, 0, 0, None), E68(B, 0, 0), [], [])
    case 20 =>
      St(Pair(0, 0), Pair(0, 0), Cell(None, 0, 0), Cell(None, 2, 10), Cell(None, 4, 20), 4, {},
         E69(A, 0, 0, None), E69(B, 0, 0, None), [], [])
    case 21 =>
      St(Pair(0, 0), Pair(0, 0), Cell(None, 0, 0), Cell(None, 2, 10), Cell(None, 4, 20), 4, {},
         E69(A, 0, 0, None), E71p(B, 0, 0, None, 0), [], [])
    case 22 =>
      St(Pair(0, 0), Pair(0, 0), Cell(None, 0, 0), Cell(None, 2, 10), Cell(None, 4, 20), 4, {},
         E69(A, 0, 0, None), E71c(B, 0, 0, None, 0), [], [])
    case _ =>
      St(Pair(0, 0), Pair(0, 0), Cell(None, 0, 0), Cell(None, 2, 10), Cell(None, 4, 20), 4, {},
         E69(A, 0, 0, None), E74(B, 0, 0, 0), [], [])
  }

  /** Thread 1 links node 2; thread 0 reads the counter half, after the link, and passes the checks of line 71. */
  function LinkTwo(i: nat): State {
    match i
    case 24 =>
      St(Pair(0, 0), Pair(0, 0), Cell(Some(2), 32, 0), Cell(None, 2, 10), Cell(None, 4, 20), 4, {},
         E69(A, 0, 0, None), E83(B, 0, 0), [20], [])
    case 25 =>
      St(Pair(0, 0), Pair(0, 0), Cell(Some(2), 32, 0), Cell(None, 2, 10), Cell(None, 4, 20), 4, {},
         E71p(A, 0, 0, None, 32), E83(B, 0, 0), [20], [])
    case 26 =>
      St(Pair(0, 0), Pair(0, 0), Cell(Some(2), 32, 0), Cell(None, 2, 10), Cell(None, 4, 20), 4, {},
         E71c(A, 0, 0, None, 32), E83(B, 0, 0), [20], [])
    case 27 =>
      St(Pair(0, 0), Pair(0, 0), Cell(Some(2), 32, 0), Cell(None, 2, 10), Cell(None, 4, 20), 4, {},
         E74(A, 0, 0, 32), E83(B, 0, 0), [20], [])
    case 28 =>
      St(Pair(2, 32), Pair(0, 0), Cell(Some(2), 32, 0), Cell(None, 2, 10), Cell(None, 4, 20), 4, {},
         E74(A, 0, 0, 32), Idle, [20], [])
    case 29 =>
      St(Pair(2, 32), Pair(0, 0), Cell(Some(2), 32, 0), Cell(None, 2, 10), Cell(None, 4, 20), 4, {},
         E74(A, 0, 0, 32), D95, [20], [])
    case _ =>
      St(Pair(2, 32), Pair(0, 0), Cell(Some(2), 32, 0), Cell(None, 2, 10), Cell(None, 4, 20), 4, {},
         E74(A, 0, 0, 32), D96(0), [20], [])
  }

  /** Thread 1 dequeues, which retires node 0. */
  function Retire(i: nat): State {
    match i
    case 31 =>
      St(Pair(2, 32), Pair(0, 0), Cell(Some(2), 32, 0), Cell(None, 2, 10), Cell(None, 4, 20), 4, {},
         E74(A, 0, 0, 32), D97(0, 0), [20], [])
    case 32 =>
      St(Pair(2, 32), Pair(0, 0), Cell(Some(2), 32, 0), Cell(None, 2, 10), Cell(None, 4, 20), 4, {},
         E74(A, 0, 0, 32), D98(0, 0, 2), [20], [])
    case 33 =>
      St(Pair(2, 32), Pair(0, 0), Cell(Some(2), 32, 0), Cell(None, 2, 10), Cell(None, 4, 20), 4, {},
         E74(A, 0, 0, 32), D99(0, 0, 2, 32), [20], [])
    case 34 =>
      St(Pair(2, 32), Pair(0, 0), Cell(Some(2), 32, 0), Cell(None, 2, 10), Cell(None, 4, 20), 4, {},
         E74(A, 0, 0, 32), D102p(0, 0, 2, 32, Some(2)), [20], [])
    case 35 =>
      St(Pair(2, 32), Pair(0, 0), Cell(Some(2), 32, 0), Cell(None, 2, 10), Cell(None, 4, 20), 4, {},
         E74(A, 0, 0, 32), D102c(0, 0, 2, 32, Some(2)), [20], [])
    case 36 =>
      St(Pair(2, 32), Pair(0, 0), Cell(Some(2), 32, 0), Cell(None, 2, 10), Cell(None, 4, 20), 4, {},
         E74(A, 0, 0, 32), D120(0, 0, Some(2)), [20], [])
    case 37 =>
      St(Pair(2, 32), Pair(0, 0), Cell(Some(2), 32, 0), Cell(None, 2, 10), Cell(None, 4, 20), 4, {},
         E74(A, 0, 0, 32), D122(0, 0, 2, 20), [20], [])
    case 38 =>
      St(Pair(2, 32), Pair(2, 32), Cell(Some(2), 32, 0), Cell(None, 2, 10), Cell(None, 4, 20), 4, {},
         E74(A, 0, 0, 32), D130(0), [20], [20])
    case _ =>
      St(Pair(2, 32), Pair(2, 32), Cell(Some(2), 32, 0), Cell(None, 2, 10), Cell(None, 4, 20), 4, {0},
         E74(A, 0, 0, 32), Idle, [20], [20])
  }

  /** Thread 1 takes node 0 for another enqueue and clears its pointer; thread 0's swap succeeds on it. */
  function Hang(i: nat): State {
    match i
    case 40 =>
      St(Pair(2, 32), Pair(2, 32), Cell(Some(2), 32, 0), Cell(None, 2, 10), Cell(None, 4, 20), 4, {0},
         E74(A, 0, 0, 32), Pop238(30), [20], [20])
    case 41 =>
      St(Pair(2, 32), Pair(2, 32), Cell(Some(2), 32, 0), Cell(None, 2, 10), Cell(None, 4, 20), 4, {},
         E74(A, 0, 0, 32), Inc260(C), [20], [20])
    case 42 =>
      St(Pair(2, 32), Pair(2, 32), Cell(Some(2), 32, 0), Cell(None, 2, 10), Cell(None, 4, 20), 5, {},
         E74(A, 0, 0, 32), Clear261(C), [20], [20])
    case 43 =>
      St(Pair(2, 32), Pair(2, 32), Cell(None, 32, 0), Cell(None, 2, 10), Cell(None, 4, 20), 5, {},
         E74(A, 0, 0, 32), Inc262(C), [20], [20])
    case _ =>
      St(Pair(2, 32), Pair(2, 32), Cell(Some(1), 64, 0), Cell(None, 2, 10), Cell(None, 4, 20), 5, {},
         E83(A, 0, 0), Inc262(C), [20, 10], [20])
  }

  /** Thread 0's enqueue has returned, and its dequeue finds the queue empty. */
  function AnswerEmpty(i: nat): State {
    match i
    case 45 =>
      St(Pair(2, 32), Pair(2, 32), Cell(Some(1), 64, 0), Cell(None, 2, 10), Cell(None, 4, 20), 5, {},
         Idle, Inc262(C), [20, 10], [20])
    case 46 =>
      St(Pair(2, 32), Pair(2, 32), Cell(Some(1), 64, 0), Cell(None, 2, 10), Cell(None, 4, 20), 5, {},
         D95, Inc262(C), [20, 10], [20])
    case 47 =>
      St(Pair(2, 32), Pair(2, 32), Cell(Some(1), 64, 0), Cell(None, 2, 10), Cell(None, 4, 20), 5, {},
         D96(2), Inc262(C), [20, 10], [20])
    case 48 =>
      St(Pair(2, 32), Pair(2, 32), Cell(Some(1), 64, 0), Cell(None, 2, 10), Cell(None, 4, 20), 5, {},
         D97(2, 32), Inc262(C), [20, 10], [20])
    case 49 =>
      St(Pair(2, 32), Pair(2, 32), Cell(Some(1), 64, 0), Cell(None, 2, 10), Cell(None, 4, 20), 5, {},
         D98(2, 32, 2), Inc262(C), [20, 10], [20])
    case 50 =>
      St(Pair(2, 32), Pair(2, 32), Cell(Some(1), 64, 0), Cell(None, 2, 10), Cell(None, 4, 20), 5, {},
         D99(2, 32, 2, 32), Inc262(C), [20, 10], [20])
    case 51 =>
      St(Pair(2, 32), Pair(2, 32), Cell(Some(1), 64, 0), Cell(None, 2, 10), Cell(None, 4, 20), 5, {},
         D102p(2, 32, 2, 32, None), Inc262(C), [20, 10], [20])
    case 52 =>
      St(Pair(2, 32), Pair(2, 32), Cell(Some(1), 64, 0), Cell(None, 2, 10), Cell(None, 4, 20), 5, {},
         D102c(2, 32, 2, 32, None), Inc262(C), [20, 10], [20])
    case _ =>
      St(Pair(2, 32), Pair(2, 32), Cell(Some(1), 64, 0), Cell(None, 2, 10), Cell(None, 4, 20), 5, {},
         Idle, Inc262(C), [20, 10], [20])
  }

  /** The states of the run, in order. */
  function Script(i: nat): State {
    if i < 11 then ReadHalf(i)
    else if i < 24 then TakeTwo(i)
    else if i < 31 then LinkTwo(i)
    else if i < 40 then Retire(i)
    else if i < 45 then Hang(i)
    else AnswerEmpty(i)
  }

  /** The thread that moves in state `i`, and its choice. */
  function ScriptAct(i: nat): Act {
    match i
    case 0 => Act(0, StartEnqueue(10))
    case 1 => Act(0, TakeFree(1))
    case 10 => Act(1, StartEnqueue(20))
    case 11 => Act(1, TakeFree(2))
    case 28 => Act(1, StartDequeue)
    case 39 => Act(1, StartEnqueue(30))
    case 40 => Act(1, TakeFree(0))
    case 45 => Act(0, StartDequeue)
    case _ => Act(if i < 10 || 24 <= i < 27 || i >= 43 then 0 else 1, Go)
  }

  lemma Move0(i: nat) requires i == 0 ensures ScriptMoves(i) { assert ScriptMoves(0); }
  lemma Move1(i: nat) requires i == 1 ensures ScriptMoves(i) { assert ScriptMoves(1); }
  lemma Move2(i: nat) requires i == 2 ensures ScriptMoves(i) { assert ScriptMoves(2); }
  lemma Move3(i: nat) requires i == 3 ensures ScriptMoves(i) { assert ScriptMoves(3); }
  lemma Move4(i: nat) requires i == 4 ensures ScriptMoves(i) { assert ScriptMoves(4); }
  lemma Move5(i: nat) requires i == 5 ensures ScriptMoves(i) { assert ScriptMoves(5); }
  lemma Move6(i: nat) requires i == 6 ensures ScriptMoves(i) { assert ScriptMoves(6); }
  lemma Move7(i: nat) requires i == 7 ensures ScriptMoves(i) { assert ScriptMoves(7); }
  lemma Move8(i: nat) requires i == 8 ensures ScriptMoves(i) { assert ScriptMoves(8); }
  lemma Move9(i: nat) requires i == 9 ensures ScriptMoves(i) { assert ScriptMoves(9); }
  lemma Move10(i: nat) requires i == 10 ensures ScriptMoves(i) { assert ScriptMoves(10); }
  lemma Move11(i: nat) requires i == 11 ensures ScriptMoves(i) { assert ScriptMoves(11); }
  lemma Move12(i: nat) requires i == 12 ensures ScriptMoves(i) { assert ScriptMoves(12); }
  lemma Move13(i: nat) requires i == 13 ensures ScriptMoves(i) { assert ScriptMoves(13); }
  lemma Move14(i: nat) requires i == 14 ensures ScriptMoves(i) { assert ScriptMoves(14); }
  lemma Move15(i: nat) requires i == 15 ensures ScriptMoves(i) { assert ScriptMoves(15); }
  lemma Move16(i: nat) requires i == 16 ensures ScriptMoves(i) { assert ScriptMoves(16); }
  lemma Move17(i: nat) requires i == 17 ensures ScriptMoves(i) { assert ScriptMoves(17); }
  lemma Move18(i: nat) requires i == 18 ensures ScriptMoves(i) { assert ScriptMoves(18); }
  lemma Move19(i: nat) requires i == 19 ensures ScriptMoves(i) { assert ScriptMoves(19); }
  lemma Move20(i: nat) requires i == 20 ensures ScriptMoves(i) { assert ScriptMoves(20); }
  lemma Move21(i: nat) requires i == 21 ensures ScriptMoves(i) { assert ScriptMoves(21); }
  lemma Move22(i: nat) requires i == 22 ensures ScriptMoves(i) { assert ScriptMoves(22); }
  lemma Move23(i: nat) requires i == 23 ensures ScriptMoves(i) { assert ScriptMoves(23); }
  lemma Move24(i: nat) requires i == 24 ensures ScriptMoves(i) { assert ScriptMoves(24); }
  lemma Move25(i: nat) requires i == 25 ensures ScriptMoves(i) { assert ScriptMoves(25); }
  lemma Move26(i: nat) requires i == 26 ensures ScriptMoves(i) { assert ScriptMoves(26); }
  lemma Move27(i: nat) requires i == 27 ensures ScriptMoves(i) { assert ScriptMoves(27); }
  lemma Move28(i: nat) requires i == 28 ensures ScriptMoves(i) { assert ScriptMoves(28); }
  lemma Move29(i: nat) requires i == 29 ensures ScriptMoves(i) { assert ScriptMoves(29); }
  lemma Move30(i: nat) requires i == 30 ensures ScriptMoves(i) { assert ScriptMoves(30); }
  lemma Move31(i: nat) requires i == 31 ensures ScriptMoves(i) { assert ScriptMoves(31); }
  lemma Move32(i: nat) requires i == 32 ensures ScriptMoves(i) { assert ScriptMoves(32); }
  lemma Move33(i: nat) requires i == 33 ensures ScriptMoves(i) { assert ScriptMoves(33); }
  lemma Move34(i: nat) requires i == 34 ensures ScriptMoves(i) { assert ScriptMoves(34); }
  lemma Move35(i: nat) requires i == 35 ensures ScriptMoves(i) { assert ScriptMoves(35); }
  lemma Move36(i: nat) requires i == 36 ensures ScriptMoves(i) { assert ScriptMoves(36); }
  lemma Move37(i: nat) requires i == 37 ensures ScriptMoves(i) { assert ScriptMoves(37); }
  lemma Move38(i: nat) requires i == 38 ensures ScriptMoves(i) { assert ScriptMoves(38); }
  lemma Move39(i: nat) requires i == 39 ensures ScriptMoves(i) { assert ScriptMoves(39); }
  lemma Move40(i: nat) requires i == 40 ensures ScriptMoves(i) { assert ScriptMoves(40); }
  lemma Move41(i: nat) requires i == 41 ensures ScriptMoves(i) { assert ScriptMoves(41); }
  lemma Move42(i: nat) requires i == 42 ensures ScriptMoves(i) { assert ScriptMoves(42); }
  lemma Move43(i: nat) requires i == 43 ensures ScriptMoves(i) { assert ScriptMoves(43); }
  lemma Move44(i: nat) requires i == 44 ensures ScriptMoves(i) { assert ScriptMoves(44); }
  lemma Move45(i: nat) requires i == 45 ensures ScriptMoves(i) { assert ScriptMoves(45); }
  lemma Move46(i: nat) requires i == 46 ensures ScriptMoves(i) { assert ScriptMoves(46); }
  lemma Move47(i: nat) requires i == 47 ensures ScriptMoves(i) { assert ScriptMoves(47); }
  lemma Move48(i: nat) requires i == 48 ensures ScriptMoves(i) { assert ScriptMoves(48); }
  lemma Move49(i: nat) requires i == 49 ensures ScriptMoves(i) { assert ScriptMoves(49); }
  lemma Move50(i: nat) requires i == 50 ensures ScriptMoves(i) { assert ScriptMoves(50); }
  lemma Move51(i: nat) requires i == 51 ensures ScriptMoves(i) { assert ScriptMoves(51); }
  lemma Move52(i: nat) requires i == 52 ensures ScriptMoves(i) { assert ScriptMoves(52); }

  lemma MovesFrom0(i: nat)
    requires 0 <= i < 11
    ensures ScriptMoves(i)
  {
    match i
    case 0 => Move0(i);
    case 1 => Move1(i);
    case 2 => Move2(i);
    case 3 => Move3(i);
    case 4 => Move4(i);
    case 5 => Move5(i);
    case 6 => Move6(i);
    case 7 => Move7(i);
    case 8 => Move8(i);
    case 9 => Move9(i);
    case _ => Move10(i);
  }

  lemma MovesFrom11(i: nat)
    requires 11 <= i < 22
    ensures ScriptMoves(i)
  {
    match i
    case 11 => Move11(i);
    case 12 => Move12(i);
    case 13 => Move13(i);
    case 14 => Move14(i);
    case 15 => Move15(i);
    case 16 => Move16(i);
    case 17 => Move17(i);
    case 18 => Move18(i);
    case 19 => Move19(i);
    case 20 => Move20(i);
    case _ => Move21(i);
  }

  lemma MovesFrom22(i: nat)
    requires 22 <= i < 33
    ensures ScriptMoves(i)
  {
    match i
    case 22 => Move22(i);
    case 23 => Move23(i);
    case 24 => Move24(i);
    case 25 => Move25(i);
    case 26 => Move26(i);
    case 27 => Move27(i);
    case 28 => Move28(i);
    case 29 => Move29(i);
    case 30 => Move30(i);
    case 31 => Move31(i);
    case _ => Move32(i);
  }

  lemma MovesFrom33(i: nat)
    requires 33 <= i < 43
    ensures ScriptMoves(i)
  {
    match i
    case 33 => Move33(i);
    case 34 => Move34(i);
    case 35 => Move35(i);
    case 36 => Move36(i);
    case 37 => Move37(i);
    case 38 => Move38(i);
    case 39 => Move39(i);
    case 40 => Move40(i);
    case 41 => Move41(i);
    case _ => Move42(i);
  }

  lemma MovesFrom43(i: nat)
    requires 43 <= i < 53
    ensures ScriptMoves(i)
  {
    match i
    case 43 => Move43(i);
    case 44 => Move44(i);
    case 45 => Move45(i);
    case 46 => Move46(i);
    case 47 => Move47(i);
    case 48 => Move48(i);
    case 49 => Move49(i);
    case 50 => Move50(i);
    case 51 => Move51(i);
    case _ => Move52(i);
  }

  lemma ScriptIsRun(i: nat)
    requires i < LENGTH
    ensures ScriptMoves(i)
  {
    if i < 11 { MovesFrom0(i); } else if i < 22 { MovesFrom11(i); } else if i < 33 { MovesFrom22(i); }
    else if i < 43 { MovesFrom33(i); } else { MovesFrom43(i); }
  }

  lemma TwoAtMost(s: State)
    requires s.pcs.Keys == {0, 1}
    ensures AtMost(s, 2)
  {
    forall ts: set<Tid> | forall t :: t in ts ==> InEnqueue(PcOf(s, t)) ensures |ts| <= 2 {
      assert ts <= {0, 1};
      SubsetSize(ts, {0, 1});
    }
  }

  // ----- what a caller sees

  /** Step `h` is the return of an enqueue of `x`. */
  ghost predicate Returns(run: seq<State>, acts: seq<Act>, h: nat, x: Data) {
    h < |acts| < |run| && var pc := PcOf(run[h], acts[h].t); pc.E83? && pc.e.data == x
  }

  /** Thread `t` is in one dequeue in the states after `j` up to `i`. */
  ghost predicate InDequeueFrom(run: seq<State>, t: Tid, j: nat, i: nat) {
    i < |run| && forall k :: j < k <= i ==> InDequeue(PcOf(run[k], t))
  }

  /** A dequeue is called in step `j` and answers "empty" in step `i`. */
  ghost predicate AnswersEmpty(run: seq<State>, acts: seq<Act>, j: nat, i: nat) {
    && j < i < |acts| < |run| && var t := acts[i].t;
    && acts[j] == Act(t, StartDequeue) && PcOf(run[j], t).Idle?
    && InDequeueFrom(run, t, j, i)
    && PcOf(run[i], t).D102c? && PcOf(run[i + 1], t).Idle?
  }

  /** An enqueue of `x` returned before a dequeue was called, which answered "empty"; nobody had dequeued `x`. */
  ghost predicate Hidden(run: seq<State>, acts: seq<Act>, h: nat, j: nat, i: nat, x: Data) {
    h < j && Returns(run, acts, h, x) && AnswersEmpty(run, acts, j, i) && x !in run[i].deqLog
  }

  /** Callers never find an element hidden. */
  ghost predicate Honest(run: seq<State>, acts: seq<Act>) {
    forall h: nat, j: nat, i: nat, x :: !Hidden(run, acts, h, j, i, x)
  }

  // ----- one enqueuer at a time

  lemma StepLogs(s: State, t: Tid, ch: Choice)
    requires Enabled(s, t, ch)
    ensures s.enqLog <= Advance(s, t, ch).enqLog && s.deqLog <= Advance(s, t, ch).deqLog
  {
    if PcOf(s, t).E74? { Swap74Is(s, [], t); } else if PcOf(s, t).D122? { Swap122Is(s, t); }
  }

  lemma {:induction false} LogsGrow(run: seq<State>, acts: seq<Act>, a: nat, b: nat)
    requires IsRun(run, acts) && a <= b < |run|
    ensures run[a].enqLog <= run[b].enqLog && run[a].deqLog <= run[b].deqLog
  {
    if a < b {
      LogsGrow(run, acts, a, b - 1);
      assert Moves(run[b - 1], acts[b - 1], run[b]);
      StepLogs(run[b - 1], acts[b - 1].t, acts[b - 1].ch);
    }
  }

  /** A thread comes to line 83 by logging its element. */
  lemma LinkLogs(s: State, t: Tid, ch: Choice)
    requires Enabled(s, t, ch) && PcOf(Advance(s, t, ch), t).E83?
    ensures PcOf(Advance(s, t, ch), t).e.data in Advance(s, t, ch).enqLog
  {
    if PcOf(s, t).E74? { Swap74Is(s, [], t); }
  }

  /** An enqueue that has passed line 74 is logged. */
  lemma {:induction false} PastIsLogged(run: seq<State>, acts: seq<Act>, h: nat, t: Tid)
    requires IsRun(run, acts) && h < |run| && PcOf(run[h], t).E83?
    ensures PcOf(run[h], t).e.data in run[h].enqLog
  {
    assert h > 0 by { assert Init(run[0]); }
    var a := acts[h - 1];
    assert Moves(run[h - 1], a, run[h]);
    if a.t == t {
      LinkLogs(run[h - 1], t, a.ch);
    } else {
      OthersStay(run[h - 1], t, a);
      PastIsLogged(run, acts, h - 1, t);
      LogsGrow(run, acts, h - 1, h);
    }
  }

  lemma OneIsHonest(run: seq<State>, acts: seq<Act>)
    requires IsRun(run, acts) && Bounded(run, 1)
    ensures Honest(run, acts)
  {
    SingleEnqueuerNeverTorn(run, acts);
    forall h: nat, j: nat, i: nat, x | h < j && Returns(run, acts, h, x) && AnswersEmpty(run, acts, j, i)
      ensures x in run[i].deqLog
    {
      var k := EmptyMeansAllTaken(run, acts, i);
      assert k > j;
      PastIsLogged(run, acts, h, acts[h].t);
      LogsGrow(run, acts, h, k);
      LogsGrow(run, acts, k, i);
    }
  }

  /** Two enqueuers suffice: thread 0's enqueue of 10 returns, and its next call, a dequeue, answers "empty" although 10
      has not been dequeued.  At line 74 already the element was logged and not in the queue. */
  lemma TwoEnqueuersHideAnElement() returns (run: seq<State>, acts: seq<Act>)
    ensures IsRun(run, acts) && Bounded(run, 2) && |run| > 44 && !Correct(run[44])
    ensures Hidden(run, acts, 44, 45, 52, 10) && acts[44].t == acts[45].t == acts[52].t
  {
    run, acts := ScriptRun();
    assert forall i :: 0 <= i <= LENGTH ==> run[i] == Script(i);
    NotInQueue();
    ReturnsInScript();
    EmptyInScript();
    assert InDequeueFrom(run, 0, 45, 52);
  }

  lemma ScriptRun() returns (run: seq<State>, acts: seq<Act>)
    ensures IsRun(run, acts) && Bounded(run, 2) && |acts| == LENGTH
    ensures forall i :: 0 <= i <= LENGTH ==> run[i] == Script(i)
    ensures forall i :: 0 <= i < LENGTH ==> acts[i] == ScriptAct(i)
  {
    run, acts := seq(LENGTH + 1, i requires 0 <= i <= LENGTH => Script(i)),
      seq(LENGTH, i requires 0 <= i < LENGTH => ScriptAct(i));
    forall i | 0 <= i < |acts| ensures Moves(run[i], acts[i], run[i + 1]) {
      ScriptIsRun(i);
    }
    forall i | 0 <= i < |run| ensures AtMost(run[i], 2) {
      ScriptThreads(i);
      TwoAtMost(Script(i));
    }
    ScriptStart();
  }

  lemma ScriptThreads(i: nat)
    ensures Script(i).pcs.Keys == {0, 1}
  {
  }

  lemma ScriptStart()
    ensures Init(Script(0))
  {
  }

  lemma ReturnsInScript()
    ensures ScriptAct(44) == Act(0, Go) && PcOf(Script(44), 0) == E83(A, 0, 0) && A.data == 10
    ensures ScriptAct(45) == Act(0, StartDequeue) && PcOf(Script(45), 0) == Idle
  {
  }

  lemma EmptyInScript()
    ensures ScriptAct(52) == Act(0, Go) && PcOf(Script(52), 0).D102c? && PcOf(Script(53), 0).Idle?
      && Script(52).deqLog == [20]
    ensures forall k: nat :: 45 < k <= 52 ==> InDequeue(PcOf(Script(k), 0))
  {
    forall k: nat | 45 < k <= 52 ensures InDequeue(PcOf(Script(k), 0)) {
      assert k == 46 || k == 47 || k == 48 || k == 49 || k == 50 || k == 51 || k == 52;
    }
  }

  lemma NotInQueue()
    ensures !Correct(Script(44))
  {
    var s := Script(44);
    forall q | Chain(s, q) ensures !Fifo(s, q) {
      assert At(s.mem, q[0]).next.None?;
    }
  }

  ghost predicate AllCorrect(run: seq<State>) { forall i :: 0 <= i < |run| ==> Correct(run[i]) }

  /** Exactly when `queue_enqueue` is safe: in every run that lets at most `m` threads enqueue at once the queue in
      memory is a correct FIFO, and no caller finds an element hidden, if and only if `m` is at most one. */
  lemma SafeIffOneEnqueuer(m: nat)
    ensures m <= 1 <==> forall run, acts :: IsRun(run, acts) && Bounded(run, m) ==> AllCorrect(run)
    ensures m <= 1 <==> forall run, acts :: IsRun(run, acts) && Bounded(run, m) ==> Honest(run, acts)
  {
    if m <= 1 {
      forall run, acts | IsRun(run, acts) && Bounded(run, m) ensures AllCorrect(run) && Honest(run, acts) {
        assert forall k :: 0 <= k < |run| ==> AtMost(run[k], m);
        SingleEnqueuerNeverTorn(run, acts);
        forall i | 0 <= i < |run| ensures Correct(run[i]) { LockFreeQueue.RunKeeps(run, acts, i); }
        OneIsHonest(run, acts);
      }
    } else {
      var run, acts := TwoEnqueuersHideAnElement();
      assert forall k :: 0 <= k < |run| ==> AtMost(run[k], 2);
      assert Bounded(run, m);
      assert !AllCorrect(run) && !Honest(run, acts);
    }
  }
}
