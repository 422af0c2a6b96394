# Verified models of the lock-free containers, B-link tree, allocator and transaction control

This project models the parts of the repository whose correctness depends on whole runs rather than on single
calls, and proves what those parts are for. Concurrent code is a state machine: every load, store, compare-and-swap,
fetch-and-add or critical section is one step, threads are unbounded in number, and theorems quantify over every
run and every state in it. Sequential code that updates fields, arrays or linked structures is a class (or a method
with loops) proved against a sequence, map or set that says what the memory stands for.

| module | what it covers |
|---|---|
| `LockFreeQueue`, `LockFreeQueueEveryRun`, `LockFreeQueueTearing`, `LockFreeQueueCalls` | the Michael-Scott queue with recycled nodes and two-part reads of (pointer, counter) pairs: its order, what it keeps in every run, exactly when the order holds, and what its callers get |
| `TaggedStack`, `TaggedStackCalls` | the tagged Treiber stack behind the freelist and the stack, and what its callers get |
| `RingBuffer`, `RingBufferCalls` | the ring buffer made of a freelist and a queue, and what its callers get |
| `DequeueCounters`, `DequeueCountersCalls` | optimistic reservation and overcommit of `dequeue` and `dequeue_bulk`, and how many elements a call gets |
| `RefCountFreeList`, `RefCountFreeListCalls` | the reference-counted free list, and what its callers get |
| `ImplicitBlockIndex`, `RingSlots` | the growing ring that maps element indices to blocks, and ring arithmetic |
| `BlinkTree`, `BlinkTreeMap`, `BlinkTreeExact`, `BlinkTreeProgress` | searches and splits of the B-link tree, interleaved, the map its leaves hold, how exactly its pages describe each other, and that its splits and searches go on |
| `SlottedPage` | binary search, cleaning, insertion and splitting of a page of bytes |
| `PageCache`, `LeastRecentlyUsed`, `LinkedLists` | hash chains and LRU list of the page cache, over doubly linked lists |
| `PhaseFairLock`, `PhaseFairLockProgress` | the phase-fair reader/writer ticket lock on 16-bit words: exclusion, and that it is granted |
| `SmallMalloc`, `SmallMallocLimits`, `SizeClasses`, `HugeMalloc` | the allocator's folio lists, when it allocates from the fullest folio, address arithmetic and chunk cutting |
| `OptimisticValidation`, `OptimisticValidationLimits`, `OptimisticValidationVerdict`, `OptimisticValidationCode` | parallel validation as a protocol, exactly when it is serializable, exactly which transactions commit, and the code of its parts |
| `DeadlockDetection` | depth-first deadlock detection, the choice of a victim and who is told to abort |
| `VersionRing` | the ring of row versions |
| `Prelude` | optional values, sequences without repetition, powers of two |

## Where the code falls short of its promise

Each of these is stated as an exact condition.

- The queue keeps its promise if and only if at most one enqueue is in progress at a time
  (`LockFreeQueueTearing.SafeIffOneEnqueuer`). Lines 68-69 of `basic/lf_queue.c` read a node's `next` in two halves.
  If another enqueue links a successor between them and the node is then retired and taken again, the pair that was
  read can become current while the node is being filled in, and the swap of line 74 hangs an element behind a node
  that is not in the queue. A thread whose enqueue has returned can then find the queue empty although nobody has
  dequeued its element. Order is lost with two enqueuers, but nothing else is: in every run the queue in memory stays a
  well-formed list, line 120 never faults, and no element is lost or invented
  (`LockFreeQueueEveryRun.ElementsConserved`); the hanging element joins the queue with the node it hangs from.
- The phase-fair lock excludes if and only if fewer than 2^14 readers can be inside and at most 2^16 tickets be
  outstanding at once, or there are no writers at all (`PhaseFairLock.SafeIffCountsFit`). At 2^14 readers the count
  wraps to zero; at 2^16 + 1 tickets two writers hold equal ones and can be inside together.
- Optimistic validation is serializable if and only if no transaction begins with a `start_tn` above the transaction
  counter and every transaction has read the rows it updates (`OptimisticValidationLimits.SerializableIff`). Where
  `central_validate` is compiled in, which `bench/cc/occ.cpp:30-34` does only with PER_ROW_VALID off
  (`bench/config.h:88` turns it on), the repository meets neither condition: `bench/misc/thread.cpp:134` starts transactions with the global timestamp,
  which runs ahead of the counter, so lines 121-124 of `bench/cc/occ.cpp` skip writers that matter (write skew); and
  a row accessed for updating is copied (`bench/storage/row.cpp:252-258`) but left out of the read set by
  `get_rw_set`, so an update from a stale copy passes (lost update).
- Deadlock detection is exact for all tables with ids below 2^31 and not beyond: line 69 of `bench/cc/dl_detect.cpp`
  casts an id to 32 bits, and with ids up to 2^31 two transactions that wait for each other can go unnoticed
  (`DeadlockDetection.LargeIdIsMissed`). For every table, a reachable cycle whose ids are all below 2^31 is reported,
  and what is reported is a path of live waits that the cast test closes (`DeadlockDetection.DetectCycle`).
- A reported deadlock is broken if one transaction on the loop holds fewer than 1000 locks: one that holds the fewest is
  told to abort. If all hold 1000 or more, none of them is chosen: the victim is -1, line 127 takes it for the number
  2^64 - 1, and the thread of that number is told to abort exactly if it runs nothing (`DeadlockDetection.TellVictim`).
- A prewrite overwrites the row of a version in the ring that a reader may still hold if and only if the ring is full,
  may not grow, and the version is its oldest (`VersionRing.RowHistory.Prewrite`); with four threads or fewer, three
  updates lead there (`VersionRing.ReaderLosesItsRow`).
- `bt_cleanpage` tests for room with the slot count from before cleaning. A page that stays "full" may therefore be
  left with a single key, which `bt_splitpage` cannot split; this is impossible if and only if pages are 4096 bytes
  or larger, among the power-of-two sizes the tree allows (`SlottedPage.SplittableIffLarge`).
- `bt_findslot` treats the stopper key as larger than every key. On the last page of a level an insertion keeps the
  slots sorted if and only if the new key is below the stopper in byte order (`SlottedPage.SortedIffBelowStopper`);
  three bytes 0xff break it (`SlottedPage.AboveStopper`).
- `do_small_malloc` promises an object "out of the fullest nonempty page" and NULL only if there is none
  (`memory/small_malloc.cpp:177-178`); the disabled checker of lines 51-91 asserts as much of `fullest_offset`. Three
  things can fail, each exactly when stated:
  - An allocation takes the fullest folio with room if and only if no list below `fullest` has a folio
    (`SmallMalloc.SmallBin.Malloc`). Allocating, adding a chunk and returning from madvise keep that. A free keeps it if
    and only if the folio is not the last of several in list `fullest` (`SmallMalloc.SmallBin.Free`): line 475 takes
    "last" for "only". With one object per folio it always holds; for every larger number there is a run that breaks it
    (`SmallMallocLimits.FullestIsPassedOver`).
  - The list that `fullest` names becomes empty exactly when a chunk is added while `fullest` is 0
    (`SmallMalloc.SmallBin.AddChunk`, `SmallMallocLimits.NewBin`) or an allocation uses up the last committed folio with
    room while uncommitted ones are left (`SmallMalloc.SmallBin.Malloc`); a free of an object in a full folio, or in one
    with a single object, mends it (`SmallMalloc.SmallBin.Free`).
  - NULL means that no listed folio has room (`SmallMalloc.SmallBin.NullIff`), unless a folio comes back from madvise
    while `fullest` is 0 (`SmallMalloc.SmallBin.PostMadvise`, `SmallMallocLimits.UncommittedIsPassedOver`); this lasts
    until something is freed or a chunk is added.

## Model

| member | source | states |
|---|---|---|
| `LockFreeQueue.StepKeeps` | basic/lf_queue.c:59-132 | every load, store and DCAS of enqueue, dequeue and node recycling keeps the queue invariant with its FIFO order, unless the moving thread's two-part `next` read has been torn; what calls yield is stated from `LockFreeQueueCalls.LinksArgument` on |
| `LockFreeQueue.LinkStep` | basic/lf_queue.c:72-75 | a successful DCAS of line 74 finds the true last node, and its effect is to append one element to the queue |
| `LockFreeQueue.TakeStep` | basic/lf_queue.c:119-130 | a successful DCAS of line 122 retires the current dummy and yields the first element's data, although data and `next` were read from a node that may since have been recycled |
| `LockFreeQueue.RunKeeps` | basic/lf_queue.c:59-132 | the invariant with its order holds in every state of every tear-free run, for the chain of nodes obtained by replaying the link and take steps |
| `LockFreeQueue.RunIsFifo` | basic/lf_queue.c:59-132 | in every state of every tear-free run the elements enqueued so far are those dequeued, in the same order, followed by the contents of the linked chain in memory; in terms of what callers passed in: `LockFreeQueueCalls.CallersSeeFifo` |
| `LockFreeQueueEveryRun.StepKeeps` | basic/lf_queue.c:59-132 | every step of every thread, torn reads included, keeps the queue a list without cycles, every held node at the head of a list of its own, and the elements conserved |
| `LockFreeQueueEveryRun.LinksWhere` | basic/lf_queue.c:72-75 | a swap of line 74 can succeed only at the true last node of the queue or at the end of the tail hanging from a node that another enqueue holds and that was retired after the swapper took its own |
| `LockFreeQueueEveryRun.AppendStep` | basic/lf_queue.c:72-75 | at the last node, the swapper's node joins the queue together with everything that hangs from it |
| `LockFreeQueueEveryRun.HangStep` | basic/lf_queue.c:72-75 | otherwise it joins the tail of the other enqueue's node, and no cycle arises |
| `LockFreeQueueEveryRun.TakeStep` | basic/lf_queue.c:119-130 | in every run a successful swap of line 122 yields the data of the first element of the queue |
| `LockFreeQueueEveryRun.RunKeeps` | basic/lf_queue.c:59-132 | the invariant holds in every state of every run |
| `LockFreeQueueEveryRun.NoNullDereference` | basic/lf_queue.c:119-120 | line 120 never dereferences a null `next`, in any run |
| `LockFreeQueueEveryRun.ElementsConserved` | basic/lf_queue.c:59-132 | in every state of every run the queue in memory is a list from the dummy on that holds the enqueue pointer, and the elements enqueued are, as a multiset, those dequeued, those in the queue and those hanging from a node that an enqueue in progress holds |
| `LockFreeQueueEveryRun.QuiescentContents` | basic/lf_queue.c:59-85 | when no enqueue is in progress, exactly the elements not yet dequeued are in the queue, in every run |
| `LockFreeQueueEveryRun.EmptyWitness` | basic/lf_queue.c:94-104 | a dequeue that has seen equal ends and a null `next` has an instant in the same call at which nothing was linked behind the dummy, in every run |
| `LockFreeQueueEveryRun.EmptyAnswerWasTrue` | basic/lf_queue.c:103-114 | whenever a dequeue answers "empty", in any run, nothing was linked behind the dummy at some instant of that call |
| `LockFreeQueueEveryRun.EmptyMeansAllTaken` | basic/lf_queue.c:103-114 | in a tear-free run everything enqueued by that instant had been dequeued |
| `LockFreeQueue.SingleEnqueuerReadsWhole` | basic/lf_queue.c:66-69 | with at most one enqueue in progress, the pointer half read on line 68 is still current when line 69 reads the counter half |
| `LockFreeQueue.SingleEnqueuerNeverTorn` | basic/lf_queue.c:66-74 | every run with at most one enqueue in progress at a time is tear-free |
| `LockFreeQueueTearing.ScriptIsRun` | basic/lf_queue.c:59-132 | each of the 53 steps of the concrete interleaving of two enqueuers is a step of the queue |
| `LockFreeQueueTearing.OneIsHonest` | basic/lf_queue.c:59-132 | with at most one enqueue in progress at a time, a dequeue that answers "empty" does so only if every element whose enqueue had returned before the call has been dequeued |
| `LockFreeQueueTearing.TwoEnqueuersHideAnElement` | basic/lf_queue.c:68-74 | with two there is a run in which a thread's enqueue returns and its next call, a dequeue, answers "empty" although nobody has dequeued the element |
| `LockFreeQueueTearing.SafeIffOneEnqueuer` | basic/lf_queue.c:59-85 | in all runs with at most m enqueues in progress every state is a correct FIFO, and no caller finds an element hidden, if and only if m is at most 1 |
| `LockFreeQueueCalls.LinksArgument` | basic/lf_queue.c:39-47 | what a step links to the queue is the argument of the enqueue its thread is in, in every run |
| `LockFreeQueueCalls.EnqueuedAreArguments` | basic/lf_queue.c:255-266 | in every run the data enqueued so far are the arguments of the calls that have linked, in the order of linking |
| `LockFreeQueueCalls.CallersSeeFifo` | basic/lf_queue.c:39-132 | first in, first out as callers see it: in every state of every tear-free run the arguments of the linked enqueues, in order, are the data dequeued followed by the contents of the queue in memory |
| `LockFreeQueueCalls.DequeuedAreArguments` | basic/lf_queue.c:39-132 | in every run, torn or not, what has been dequeued was passed in, no more often than it was passed in |
| `LockFreeQueueCalls.EnqueueTakesEffect` | basic/lf_queue.c:39-47 | an enqueue that returns has linked exactly once; or it failed, the freelist being empty, and linked nothing |
| `LockFreeQueueCalls.DequeueTakesEffect` | basic/lf_queue.c:87-132 | a dequeue that returns has taken exactly one element; or none, and then nothing was linked behind the dummy at an instant of the call |
| `LockFreeQueueCalls.EnqueueAlone` | basic/lf_queue.c:39-85 | in every state of every run, an enqueue that finds a free node and during which nobody else moves links its argument and returns within a bounded number of steps |
| `LockFreeQueueCalls.DequeueAlone` | basic/lf_queue.c:87-132 | in every state of every run, a dequeue during which nobody else moves yields the first element of the queue in memory within 18 steps, and answers "empty" exactly if there is none |
| `TaggedStack.StepKeeps` | basic/lf_freelist.c:100-144 | every step of every push and pop, of the freelist and of the stack variant, keeps the invariant |
| `TaggedStack.RunKeeps` | basic/lf_stack.c:64-92 | the invariant holds in every state of every run |
| `TaggedStack.RunIsLifo` | basic/lf_freelist.c:100-144 | the successful swaps of any run replay as a LIFO sequence of pushes and pops, and what the replay leaves is what `top` and the `next` pointers spell out |
| `TaggedStack.ReadWhole` | basic/lf_freelist.c:107-116 | when a pop's swap succeeds, the `next` pair it installs is the whole current `next` of the top node, even though both halves of `top` and `next` were read separately |
| `TaggedStack.StayedLinked` | basic/lf_freelist.c:107-116 | a node found linked under a given counter has been linked under it, at the same height and with the same `next`, ever since the pop began to chase that pair |
| `TaggedStack.PopTakesTop` | basic/lf_stack.c:83-88 | a successful pop removes exactly the top entry, which was linked with an unchanged `next` since it was read, and installs the entry below |
| `TaggedStack.PopperOwnsElement` | basic/lf_stack.c:88-91 | the data a pop reads after its swap is the data of the popped element, which nobody else is pushing, has popped or can find in the stack |
| `TaggedStack.NullWitness` | basic/lf_stack.c:83-87 | a stack pop that loaded a null pointer did so when the stack was empty, in the same call |
| `TaggedStack.EmptyAnswerWasTrue` | basic/lf_freelist.c:110-114 | whenever a pop returns empty-handed, the stack was empty at some instant of that call |
| `TaggedStackCalls.LogsCall` | basic/lf_stack.c:64-92 | what a successful swap pushes is the element and data its call was given; what it pops is the top item |
| `TaggedStackCalls.PushTakesEffect` | basic/lf_stack.c:64-76 | a push that returns has pushed its element, with its data, exactly once |
| `TaggedStackCalls.PopTakesEffect` | basic/lf_stack.c:78-92 | a pop that returns has taken exactly one element; or none, and then the stack was empty at an instant of the call |
| `TaggedStackCalls.PushAlone` | basic/lf_freelist.c:131-144 | a push during which nobody else moves puts its element on top within 9 steps, whatever the others are in the middle of |
| `TaggedStackCalls.PopAlone` | basic/lf_freelist.c:100-118 | a pop during which nobody else moves takes the top element within 6 steps, and returns empty-handed exactly if there is none |
| `RingBuffer.StepKeeps` | basic/lf_ringbuffer.c:34-69 | every step of the four operations, also one that hangs a node behind another call's node instead of linking it to the queue, keeps the bookkeeping of elements and queue nodes; where each call puts its element is stated from `RingBufferCalls.PutWriteJoins` on |
| `RingBuffer.RunKeeps` | basic/lf_ringbuffer.c:34-69 | the invariant holds in every state of every run, over an unchanging set of elements and of nodes |
| `RingBuffer.ElementsConserved` | basic/lf_ringbuffer.c:34-69 | in every state of every run each element is in exactly one place: on the freelist, in the queue, with a caller, in the hand of a call, or behind the node that another `ringbuffer_put_write` is linking |
| `RingBuffer.NothingHangs` | basic/lf_ringbuffer.c:64-69 | while no `ringbuffer_put_write` is linking a node, no element hangs |
| `RingBuffer.SpareNode` | basic/lf_queue.c:9-14 | while some element has no queue node, the queue's freelist of N + 1 nodes is not empty |
| `RingBuffer.NothingLost` | basic/lf_ringbuffer.c:64-69 | `ringbuffer_put_write` always finds a free queue node, so no element is ever lost by ignoring the result of `queue_enqueue` |
| `RingBuffer.QuiescentNodes` | basic/lf_queue.c:129-130 | when no call is under way every queue node is free, the dummy, or carries a queued element |
| `RingBufferCalls.PutWriteJoins` | basic/lf_ringbuffer.c:64-69 | when `ringbuffer_put_write` returns, its element is in the queue, or hangs behind another call's node, and until then it was in the hand of the call: never on the freelist |
| `RingBufferCalls.PutReadFrees` | basic/lf_ringbuffer.c:57-62 | when `ringbuffer_put_read` returns, its element is on top of the freelist and the queue is as before |
| `RingBufferCalls.QueueIsFifo` | basic/lf_ringbuffer.c:34-69 | in every state of every run the elements that have joined the queue are, in order, those taken from it followed by those in it |
| `RingBufferCalls.GetReadIsFifo` | basic/lf_ringbuffer.c:34-39 | `ringbuffer_get_read` hands out an element that was first in the queue at an instant of the call; or it answers null, and then the queue was empty at an instant of the call |
| `RingBufferCalls.GetWriteGets` | basic/lf_ringbuffer.c:41-55 | `ringbuffer_get_write` returns only with an element: the top of the freelist, or else the first of the queue after an instant of the call at which the freelist was empty |
| `RingBufferCalls.OriginIs` | basic/lf_ringbuffer.c:34-69 | in every state of every run what is on the freelist was last put by `ringbuffer_put_read`, or never put, and what is in the queue was last put by `ringbuffer_put_write` |
| `RingBufferCalls.PutWriteAlone` | basic/lf_ringbuffer.c:64-69 | with nobody else moving, the element goes to the end of the queue |
| `RingBufferCalls.GetReadAlone` | basic/lf_ringbuffer.c:34-39 | with nobody else moving, the first element of the queue is handed out, and null exactly if there is none |
| `RingBufferCalls.PutReadAlone` | basic/lf_ringbuffer.c:57-62 | with nobody else moving, the element goes on top of the freelist |
| `RingBufferCalls.GetWriteAlone` | basic/lf_ringbuffer.c:41-55 | with nobody else moving, the top of the freelist is handed out, or the first of the queue exactly if the freelist is empty |
| `DequeueCounters.StepKeeps` | moody/concurrentqueue.h:1464-1557 | every step of every consumer and of the producer keeps the accounting of reserved units; how many each call is handed: `DequeueCountersCalls.CallGetsShare` |
| `DequeueCounters.RunKeeps` | moody/concurrentqueue.h:1726-1780 | the accounting holds in every state of every run |
| `DequeueCounters.AllowedFitsTail` | moody/concurrentqueue.h:1244-1248 | any set of granted units that excludes those given back has at most `tailIndex` members, although each unit was granted against its own stale overcommit and tail |
| `DequeueCounters.ClaimFits` | moody/concurrentqueue.h:1247-1248 | a consumer about to advance `headIndex` by its grant stays at or below `tailIndex` |
| `DequeueCounters.CountersBalance` | moody/concurrentqueue.h:1237-1288 | in every state optimistic = head + overcommit + units in flight, each unit in flight is held by exactly one consumer, head is at most tail, and exactly the indices below head have an owner |
| `DequeueCounters.StepOwners` | moody/concurrentqueue.h:1248 | a claim, which would overwrite an owner, touches no index that has one |
| `DequeueCounters.OwnerIsForever` | moody/concurrentqueue.h:1464-1557 | an index handed to a consumer stays that consumer's in the rest of the run: none is handed out twice |
| `DequeueCounters.QuiescentBalance` | moody/concurrentqueue.h:1920-2021 | when no consumer is in a call, optimistic = head + overcommit |
| `DequeueCounters.CircularLessIsLess` | moody/concurrentqueue.h:141-146 | for counters at most half a word apart, the wrapped comparison decides `<`, except exactly half a word apart |
| `DequeueCountersCalls.AloneTakesAll` | moody/concurrentqueue.h:1464-1557 | a call for up to max elements, begun when no consumer is in a call and not interleaved, is handed exactly the first min(max, size) elements |
| `DequeueCountersCalls.CallGetsShare` | moody/concurrentqueue.h:1469-1485 | whatever others do meanwhile, a call is handed exactly min(n, tail - (my - overcommit)) elements, n being what it reserved, my its reservation and tail its second look, and none if that is negative |
| `DequeueCountersCalls.ShortOnlyIfContended` | moody/concurrentqueue.h:1469-1485 | it is handed less than it reserved only if fewer elements are left than units are in flight or were given back since it read the overcommit |
| `DequeueCountersCalls.NeverMoreThanAsked` | moody/concurrentqueue.h:1464-1485 | no call reserves or is handed more than the caller asked for |
| `DequeueCountersCalls.TailIsEnqueued` | moody/concurrentqueue.h:1230-1233 | in every state the tail counts exactly the elements enqueued |
| `RefCountFreeList.StepKeeps` | moody/concurrentqueue.h:850-902 | every atomic access of `add`, `try_get` and the relinking keeps the invariant on counts, roles and links; what each call answers is stated from `RefCountFreeListCalls.NullAnswerWasTrue` on |
| `RefCountFreeList.RunKeeps` | moody/concurrentqueue.h:850-902 | the invariant holds in every state of every run with fewer than 2^31 - 1 threads |
| `RefCountFreeList.PopKeeps` | moody/concurrentqueue.h:868-870 | a head CAS of `try_get` that succeeds takes the first node and installs its true successor, and keeps the invariant |
| `RefCountFreeList.Sub2Keeps` | moody/concurrentqueue.h:871-873 | the assertion before `fetch_sub(2)` holds, and dropping the two references keeps the invariant |
| `RefCountFreeList.PopInstallsSuccessor` | moody/concurrentqueue.h:868-870 | in every run a successful head CAS turns the list into its tail: no ABA |
| `RefCountFreeList.NoNodeIsLost` | moody/concurrentqueue.h:850-902 | in every state the list has no repetition and matches memory, each `add` is matched by at most one successful `try_get`, and an added node is linked, being handed out, being linked, or flagged with a reference holder who must relink it |
| `RefCountFreeList.OneCallerPerNode` | moody/concurrentqueue.h:869-873 | two threads never return the same node, and a node being returned is off the list with its flag clear |
| `RefCountFreeListCalls.NullAnswerWasTrue` | moody/concurrentqueue.h:856-882 | `try_get` answers null only if the list was empty at an instant of that call |
| `RefCountFreeListCalls.CallsAre` | moody/concurrentqueue.h:850-873 | the node an `add` is adding is its argument, and only a `try_get` hands out a node |
| `RefCountFreeListCalls.GetsFirst` | moody/concurrentqueue.h:856-873 | in every reachable state, a `try_get` during which nobody else moves hands out the first node of a list that is not empty and leaves the rest |
| `RefCountFreeListCalls.AddsFirst` | moody/concurrentqueue.h:850-854 | an `add` during which nobody else moves puts its node in front of the list exactly if nobody holds a reference to it; otherwise the node is flagged and left to the holders |
| `RefCountFreeListCalls.LastHolderLinks` | moody/concurrentqueue.h:876-880 | the last holder of such a node puts it in front of the list when it lets go |
| `ImplicitBlockIndex.BaseWraps` | moody/concurrentqueue.h:2084 | block bases are element indices modulo 2^64 |
| `ImplicitBlockIndex.WrappedDistance` | moody/concurrentqueue.h:2090-2091 | the wrapped difference of two block bases, divided without sign, is the block distance modulo the number of bases |
| `ImplicitBlockIndex.OffsetLeadsToSlot` | moody/concurrentqueue.h:2087-2092 | from any tail entry the masked sum of tail and wrapped offset is the ring slot of the block sought, before or after the tail |
| `ImplicitBlockIndex.BlockIndex.constructor` | moody/concurrentqueue.h:2098-2142 | the first header is a valid, empty index of the initial capacity, or none if allocation fails |
| `ImplicitBlockIndex.BlockIndex.Lookup` | moody/concurrentqueue.h:2083-2096 | an element of any block in the ring finds the entry whose key is its block base, and for a live block that entry's block |
| `ImplicitBlockIndex.BlockIndex.FreeIffNotFull` | moody/concurrentqueue.h:2046-2050 | the test on the entry after the tail says "free" exactly when the ring is not full of live blocks |
| `ImplicitBlockIndex.BlockIndex.Claim` | moody/concurrentqueue.h:2052-2054 | storing the key and moving the tail adds the next block number and disturbs no live block |
| `ImplicitBlockIndex.BlockIndex.Insert` | moody/concurrentqueue.h:2040-2068 | insertion succeeds exactly when there is a ring and it has a free entry or may grow; live blocks stay, and on failure nothing has changed |
| `ImplicitBlockIndex.BlockIndex.Unroll` | moody/concurrentqueue.h:2116-2125 | the copy loop lists the old ring from the entry after the tail round to the tail |
| `ImplicitBlockIndex.BlockIndex.Fill` | moody/concurrentqueue.h:2126-2130 | the new entries are fresh, distinct and invalid, and earlier positions are left alone |
| `ImplicitBlockIndex.BlockIndex.Doubled` | moody/concurrentqueue.h:2111-2134 | the new table holds the old entries, oldest first, then fresh invalid ones, all distinct |
| `ImplicitBlockIndex.BlockIndex.Grow` | moody/concurrentqueue.h:2098-2142 | doubling keeps the block numbers and every live block reachable |
| `ImplicitBlockIndex.BlockIndex.Publish` | moody/concurrentqueue.h:1828 | storing the block into the entry just inserted makes exactly that block number live |
| `ImplicitBlockIndex.BlockIndex.Rewind` | moody/concurrentqueue.h:2070-2075 | the tail goes back one block number, around the ring |
| `ImplicitBlockIndex.BlockIndex.Cancel` | moody/concurrentqueue.h:1688-1693 | when no block can be had, rewinding and clearing the entry undoes the insertion |
| `ImplicitBlockIndex.BlockIndex.Release` | moody/concurrentqueue.h:1765-1770 | clearing the entry of an emptied block removes that block number and no other |
| `ImplicitBlockIndex.BlockIndex.Withdraw` | moody/concurrentqueue.h:1813-1818 | one turn of the bulk rollback looks its block up while the tail is already moving back, and removes just that one |
| `ImplicitBlockIndex.BlockIndex.RollBack` | moody/concurrentqueue.h:1812-1818 | the rollback of k blocks removes exactly these from the live blocks and takes the tail back before them |
| `BlinkTree.StepKeeps` | sandbox/btree2s.c:1494-1606 | every page write and lock step of searches, leaf inserts, splits and root splits keeps the tree invariant |
| `BlinkTree.CutKeeps` | sandbox/btree2s.c:1537-1590 | writing the right page and cutting the left one keeps every search that is under way on course |
| `BlinkTree.PostSlot` | sandbox/btree2s.c:1592-1595 | the left page does not begin above the range of the slot its new fence is posted into, however the parent has changed meanwhile |
| `BlinkTree.RedirectSlot` | sandbox/btree2s.c:1597-1600 | the old fence is still in the parent when it is redirected, and the right page does not begin above its slot |
| `BlinkTree.RootKeeps` | sandbox/btree2s.c:1442-1489 | raising the root keeps the tree invariant |
| `BlinkTree.RunKeeps` | sandbox/btree2s.c:1442-1606 | the invariant holds in every state of every run |
| `BlinkTree.LevelsAreChains` | sandbox/btree2s.c:1494-1606 | in every state each level is a chain of pages without gap or overlap that ends at the stopper |
| `BlinkTree.LevelsBegin` | sandbox/btree2s.c:1494-1606 | and each level has a page at the left end, which covers all small keys |
| `BlinkTree.CoverUnique` | sandbox/btree2s.c:1098-1107 | at most one page of a level covers a key |
| `BlinkTree.SearchTurn` | sandbox/btree2s.c:1098-1123 | from a page that does not begin above the key, one turn of the loop stops at the covering page, slides to a right page of the same level, or descends one level to a page that does not begin above the key |
| `BlinkTree.SearchStaysInTree` | sandbox/btree2s.c:1046-1131 | in every interleaving a search stands on an existing page, at or above its level, that does not begin above its key: it never falls off a right chain |
| `BlinkTree.SearchFindsPage` | sandbox/btree2s.c:1046-1131 | when a search ends, it is on the one page of its level that covers the key |
| `BlinkTree.LatchedIsTarget` | sandbox/btree2s.c:1098-1107 | when the write-locked search of an insertion stops, the page it has locked covers the key |
| `BlinkTree.InsertionFindsPage` | sandbox/btree2s.c:1612-1623 | in every state of every run the page an insertion is about to write, into a leaf or for posting and redirecting fences, is the one page of its level that covers the key, whatever has happened since its search began |
| `BlinkTree.Descend` | sandbox/btree2s.c:1046-1131 | in any reachable state of the tree, half-posted splits included, descent terminates by (level, pages to the right) at the covering page |
| `BlinkTreeMap.InsertBinds` | sandbox/btree2s.c:1626-1674 | an insertion on a page rebinds its key and no other, with or without a new slot |
| `BlinkTreeMap.HalvesBind` | sandbox/btree2s.c:1502-1561 | the two halves of a split bind together exactly what the page bound |
| `BlinkTreeMap.StepBinds` | sandbox/btree2s.c:1442-1606 | of all steps only a leaf insertion changes what the leaves bind, and it rebinds just its key |
| `BlinkTreeMap.TreeIsMap` | sandbox/btree2s.c:1442-1680 | the tree refines a map: in every state of every run, half-posted splits included, the leaves bind exactly what the insertions so far leave in a map |
| `BlinkTreeMap.SearchFindsBinding` | sandbox/btree2s.c:1046-1131 | a leaf search that stops is at the slot of its key's current binding if the map has one, and otherwise at a slot with another key |
| `BlinkTreeExact.PostsIntoOldSlot` | sandbox/btree2s.c:1592-1595 | however the parent has changed meanwhile, the slot into which a fence is posted is the old fence's, points at the left page and begins where that page begins |
| `BlinkTreeExact.RedirectedLower` | sandbox/btree2s.c:1597-1600 | when the old fence is redirected, its slot begins at the new fence |
| `BlinkTreeExact.NonePosted` | sandbox/btree2s.c:1571-1606 | no key between the lower bound of a page and its fence is posted one level up, however often the page has been cut meanwhile |
| `BlinkTreeExact.RunExact` | sandbox/btree2s.c:1442-1606 | in every state of every run each interior slot points at the page that covers just the slot's keys, except the slots of splits under way |
| `BlinkTreeExact.RestIsExact` | sandbox/btree2s.c:1494-1606 | whenever no split is under way, every slot of every interior page points at the page that covers exactly the slot's keys |
| `BlinkTreeExact.NeverSlides` | sandbox/btree2s.c:1098-1123 | so a search then never slides right: from a page that covers its key it descends to a page that does |
| `BlinkTreeProgress.SearchIsFor` | sandbox/btree2s.c:1046-1131 | a search looks for, and has found, the key and the level it was begun with |
| `BlinkTreeProgress.SearchAlone` | sandbox/btree2s.c:1046-1131 | in every state of every run a search during which nobody else moves ends at the page of its level that covers its key |
| `BlinkTreeProgress.SplitsGoOn` | sandbox/btree2s.c:1571-1606 | parent locks and page latches never deadlock: in every state of every run in which a split is under way, some split can go on |
| `BlinkTreeProgress.Mover` | sandbox/btree2s.c:1571-1606 | following what a split waits for, to the left along parent locks and up along latches, ends at a split that can go on |
| `BlinkTreeProgress.WritesNext` | sandbox/btree2s.c:1592-1600 | such a split, if it is to post or to redirect, can write its page after one search |
| `SlottedPage.KeyCmp` | sandbox/btree2s.c:666-679 | the sign of the comparison is the byte order with the shorter key first |
| `SlottedPage.LessTransitive` | sandbox/btree2s.c:666-679 | that order is transitive |
| `SlottedPage.LessTotal` | sandbox/btree2s.c:666-679 | that order is total and strict |
| `SlottedPage.FindSlot` | sandbox/btree2s.c:1016-1041 | the binary search finds the first slot not below the key; 0 exactly when all are below and there is a right page |
| `SlottedPage.ShiftIn` | sandbox/btree2s.c:1656-1674 | the slots move up by one as far as the first dead slot, or the page grows by one, and the fence slot is not overwritten |
| `SlottedPage.KeptValid` | sandbox/btree2s.c:1413-1431 | dropping dead slots keeps order, fence, live count and bindings, takes no more key bytes, and leaves only live slots before the fence |
| `SlottedPage.InsertedRebinds` | sandbox/btree2s.c:1650-1674 | inserting a new key binds it to its id and changes no other binding, also when a dead slot is reused |
| `SlottedPage.UpdatedRebinds` | sandbox/btree2s.c:1630-1638 | bringing a present key up to date binds it to its id and changes no other binding |
| `SlottedPage.SortedIffBelowStopper` | sandbox/btree2s.c:1020-1040 | an insertion on the last page of a level keeps the slots sorted if and only if the key is below the stopper |
| `SlottedPage.AboveStopper` | sandbox/btree2s.c:1020-1040 | inserting three bytes 0xff on a page that holds the stopper alone leaves it unsorted |
| `SlottedPage.NeedsTwo` | sandbox/btree2s.c:1398-1439 | a page of at least 4096 bytes that is still full after cleaning keeps at least two keys |
| `SlottedPage.MayKeepOne` | sandbox/btree2s.c:1393-1439 | for every size from 512 to 2048 bytes there is a page that cleaning declares full with one key left |
| `SlottedPage.SplittableIffLarge` | sandbox/btree2s.c:1389-1440 | a page declared full can always be split if and only if pages are 4096 bytes or larger |
| `SlottedPage.Page.Clean` | sandbox/btree2s.c:1389-1440 | cleaning keeps the page valid and its content; it answers "split" exactly if there is no room and removing dead keys would not make any by the old slot count, and then no dead slot is left before the fence; otherwise there is room, and it gives the place the slot has gone to |
| `SlottedPage.Page.InsertSlot` | sandbox/btree2s.c:1650-1674 | the key bytes go below the others without meeting the slots, and the entries are the old ones with the new one in place |
| `SlottedPage.Page.Update` | sandbox/btree2s.c:1630-1635 | the slot of a present key gets the new id and time and is live, and `act` still counts the live slots |
| `SlottedPage.Page.Locate` | sandbox/btree2s.c:1016-1041 | for a key not above the fence the slot found is the first that is not below it |
| `SlottedPage.Page.Insert` | sandbox/btree2s.c:1612-1680 | the key is bound to the id, with its time, and no other binding changes; or, exactly if the key is not there and cleaning cannot make room, the page has unchanged bindings and can be split; keys stay sorted, the fence stays, `act` is the live count and slots never meet key bytes |
| `SlottedPage.Page.Split` | sandbox/btree2s.c:1494-1569 | the two halves are valid pages whose entries concatenate to the old page, cut in the middle, linked left to right |
| `LeastRecentlyUsed.TouchedIsRecent` | sandbox/btree2s.c:808-867 | moving the requested segment to the front, and dropping the last one when a new one comes to a full list, keeps the list of the segments requested last, latest first, as the history of requests determines it |
| `LeastRecentlyUsed.RecentIff` | sandbox/btree2s.c:841-864 | a segment is on the list exactly if fewer than the maximum of others have been requested since its last request |
| `LeastRecentlyUsed.RecentIsUnique` | sandbox/btree2s.c:808-867 | the history of requests determines the list |
| `PageCache.Cache.constructor` | sandbox/btree2s.c:548-575 | a cache with empty chains and an empty list is valid |
| `PageCache.Cache.FindHash` | sandbox/btree2s.c:710-730 | lookup succeeds exactly when the segment is resident, and finds its node |
| `PageCache.Cache.LinkHash` | sandbox/btree2s.c:734-745 | the node joins the front of its bucket's chain and the chains still partition the nodes |
| `PageCache.Cache.UnlinkHash` | sandbox/btree2s.c:749-763 | the node leaves its chain, from the front or the middle, and the chains still partition the rest |
| `PageCache.Cache.LinkNew` | sandbox/btree2s.c:767-782 | the node takes the segment and is first in its chain and on the list |
| `PageCache.Cache.MoveToFront` | sandbox/btree2s.c:814-832 | a hit is a use of the segment in the reference LRU order |
| `PageCache.Cache.Evict` | sandbox/btree2s.c:841-859 | the least recently used node leaves list and chain |
| `PageCache.Cache.AddNode` | sandbox/btree2s.c:834-839 | a miss with a node to spare adds the segment in front |
| `PageCache.Cache.Replace` | sandbox/btree2s.c:841-864 | a miss on a full cache replaces exactly the least recently used segment |
| `PageCache.Cache.Use` | sandbox/btree2s.c:808-867 | a hit, a miss with room and a miss on a full cache are each one use in the reference order; the error returns are not reached |
| `PageCache.Cache.HashPage` | sandbox/btree2s.c:808-867 | over any sequence of calls the list is that of the segments requested last, latest first, at most `nodemax` of them, and each call returns a node of the requested segment |
| `PageCache.Cache.ResidentIff` | sandbox/btree2s.c:808-867 | a segment is resident exactly if fewer than `nodemax` others have been requested since its last request |
| `PageCache.TouchHit` | sandbox/btree2s.c:817-830 | moving a node to the front is a use in the reference order |
| `PageCache.TouchMiss` | sandbox/btree2s.c:836-839 | adding a node for an absent segment is a use in the reference order |
| `PageCache.TouchFull` | sandbox/btree2s.c:841-864 | giving the last node to an absent segment is a use in the reference order |
| `PhaseFairLock.StepKeeps` | sandbox/btree2u.c:376-438 | every step of readers and writers keeps the lock invariant on wrapped words and tickets |
| `PhaseFairLock.RunKeeps` | sandbox/btree2u.c:376-438 | the invariant holds in every state of every run with fewer than 2^14 readers inside and at most 2^16 tickets outstanding |
| `PhaseFairLock.MutualExclusion` | sandbox/btree2u.c:376-438 | in every such run a writer in its critical section is alone |
| `PhaseFairLock.BlockedByOneWriter` | sandbox/btree2u.c:417-430 | a waiting reader is blocked exactly while the one writer it met is present, and no other writer gets in while it waits |
| `PhaseFairLock.WaitsOnce` | sandbox/btree2u.c:417-430 | once that writer has let go, the reader can proceed at every later instant of its wait |
| `PhaseFairLock.WriterBreaksIn` | sandbox/btree2u.c:376-404 | with 2^14 readers allowed there is a run in which a writer and a reader are inside together |
| `PhaseFairLock.TwoWritersInside` | sandbox/btree2u.c:376-404 | with 2^16 + 1 tickets allowed there is a run, without readers, in which two writers are inside together |
| `PhaseFairLock.NoWriters` | sandbox/btree2u.c:376-404 | with no ticket allowed no writer ever holds one |
| `PhaseFairLock.SafeIffCountsFit` | sandbox/btree2u.c:376-438 | mutual exclusion holds in all runs with at most m readers inside and c tickets outstanding if and only if c is 0, or m is below 2^14 and c at most 2^16 |
| `PhaseFairLockProgress.NoDeadlock` | sandbox/btree2u.c:376-438 | as long as the counts fit, in every state in which somebody is in a call or holds the lock some thread can move on |
| `PhaseFairLockProgress.TicketOrder` | sandbox/btree2u.c:376-390 | writers enter in the order of their tickets |
| `PhaseFairLockProgress.WaitsForEarlier` | sandbox/btree2u.c:391-404 | a writer that has announced itself is blocked exactly while a reader is inside that arrived before, and no later reader gets in before it |
| `PhaseFairLockProgress.WriterAlone` | sandbox/btree2u.c:376-414 | on a free lock a writer that runs alone gets the lock, and gives it back as it was |
| `PhaseFairLockProgress.ReaderAlone` | sandbox/btree2u.c:417-438 | while no writer is present a reader gets the lock at once |
| `LinkedLists.PopOk` | memory/small_malloc.cpp:196-206 | taking the first node off a doubly linked list gives the tail of the sequence it stands for |
| `LinkedLists.PushOk` | memory/small_malloc.cpp:485-491 | putting a node in front of a doubly linked list prepends it to the sequence |
| `LinkedLists.UnlinkOk` | memory/small_malloc.cpp:460-471 | unlinking a node anywhere removes just it |
| `LinkedLists.PrependOk` | memory/small_malloc.cpp:113-115 | a chain of new nodes joins the front of the list whose back links are not maintained |
| `SmallMalloc.FindZero` | memory/small_malloc.cpp:235-243 | the bitmap search finds the lowest object not in use; the `abort` of line 257 is not reached |
| `SmallMalloc.CountBits` | memory/small_malloc.cpp:446-448 | the popcount loop counts the objects in use |
| `SmallMalloc.BitSet` | memory/small_malloc.cpp:243 | setting a clear bit adds one object and no other |
| `SmallMalloc.BitCleared` | memory/small_malloc.cpp:449-452 | clearing a set bit removes one object and no other |
| `SmallMalloc.SmallBin.constructor` | memory/small_malloc.cpp:9-42 | a bin without folios is valid and has nothing allocated |
| `SmallMalloc.SmallBin.PickSlot` | memory/small_malloc.cpp:187-195 | the list chosen is `fullest`, or the uncommitted one instead of the top one, and it is not empty: the assertion of line 195 holds |
| `SmallMalloc.SmallBin.MoveDown` | memory/small_malloc.cpp:196-215 | the first folio of the list chosen moves to the list below `fullest` and no other folio moves |
| `SmallMalloc.SmallBin.LowerFullest` | memory/small_malloc.cpp:217-233 | the new `fullest` satisfies the invariant again; after a search no list below it has a folio, and it is 0 only if no folio with room is listed, committed or not |
| `SmallMalloc.SmallBin.SetBit` | memory/small_malloc.cpp:235-243 | one object that was free becomes allocated, and the folio's count matches its list again |
| `SmallMalloc.SmallBin.Malloc` | memory/small_malloc.cpp:174-258 | returns the lowest object not allocated of one folio, which becomes the only change to the set of allocated objects, or fails exactly when `fullest` is 0; the folio is the fullest one with room if and only if no list below `fullest` has a folio, and that condition is kept; the list that `fullest` names is empty afterwards exactly if the last committed folio with room has been used up and uncommitted ones are left |
| `SmallMalloc.SmallBin.SourceIsFullest` | memory/small_malloc.cpp:177-195 | the folio at hand has the fewest free objects of all listed folios with room, uncommitted ones last, if and only if no list below `fullest` has a folio |
| `SmallMalloc.SmallBin.CheckedIff` | memory/small_malloc.cpp:66-74 | what the checker asserts of `fullest` holds exactly if no list below it has a folio and the list it names has one |
| `SmallMalloc.SmallBin.NullIff` | memory/small_malloc.cpp:178-185 | when `fullest` is 0, no listed folio has room exactly if the uncommitted list is empty |
| `SmallMalloc.SmallBin.Detach` | memory/small_malloc.cpp:460-477 | the folio leaves its list, `fullest` moves up exactly for a full folio and for the last one of its own list, and is right unless it is the list the folio is about to join |
| `SmallMalloc.SmallBin.MoveUp` | memory/small_malloc.cpp:460-500 | the folio joins the front of the list above, or is released exactly when it is empty and another empty folio is there; no other list changes |
| `SmallMalloc.RaisedLists` | memory/small_malloc.cpp:472-493 | if no list below `fullest` had a folio, the same is true after the move exactly if the folio was not the last of several in list `fullest`; and when the list named by the new `fullest` has a folio |
| `SmallMalloc.SmallBin.Free` | memory/small_malloc.cpp:437-501 | frees exactly the given object, keeps the invariant, and asks for madvise exactly when the folio is empty and the empty list is not; lists below `fullest` stay empty if and only if the folio is not the last of several in list `fullest` |
| `SmallMalloc.SmallBin.PostMadvise` | memory/small_malloc.cpp:513-527 | a folio that was out joins the uncommitted list, where an allocation finds it if and only if `fullest` is not 0 |
| `SmallMalloc.SmallBin.InitChunk` | memory/small_malloc.cpp:311-318 | the folios of a new chunk are zeroed and chained in order |
| `SmallMalloc.SmallBin.AddFolios` | memory/small_malloc.cpp:105-121 | the chunk's folios join the uncommitted list and `fullest` becomes the top list if it was 0 |
| `SmallMalloc.SmallBin.AddChunk` | memory/small_malloc.cpp:105-121 | a new chunk keeps the invariant, adds no allocated object, the next allocation can succeed, and the list that `fullest` names has a folio afterwards exactly if it had one and `fullest` was not 0 |
| `SmallMallocLimits.NewBin` | memory/small_malloc.cpp:105-121 | after the first chunk `fullest` names an empty list, against lines 12-14 and the checker |
| `SmallMallocLimits.Fill` | memory/small_malloc.cpp:174-258 | allocations go on taking objects of one folio until it is full, and then `fullest` points at uncommitted folios, or is 0 if there are none |
| `SmallMallocLimits.Drain` | memory/small_malloc.cpp:437-501 | freeing all objects of a full folio takes it up to the top list, or out for madvise exactly when the top list has a folio |
| `SmallMallocLimits.FullestIsPassedOver` | memory/small_malloc.cpp:472-477 | for every number of objects per folio above one there is a run after which a folio with one free object is listed below `fullest` |
| `SmallMallocLimits.UncommittedIsPassedOver` | memory/small_malloc.cpp:184-185 | for every number of objects per folio there is a run after which an allocation answers NULL although an empty folio is listed |
| `SizeClasses.Row` | memory/generated_constants.cpp:8-88 | every row's multiplier and shift are exact for all offsets of a chunk, its products fit 64 bits, its objects fit its folio and its folios fit the chunk after the header |
| `SizeClasses.MulShiftDivides` | memory/generated_constants.h:257-265 | multiply-and-shift equals integer division for every offset whose error product stays below the power of two |
| `SizeClasses.Placement` | memory/small_malloc.cpp:248-254 | an object lies inside its folio and inside the chunk |
| `SizeClasses.WayBack` | memory/malloc.cpp:505-524 | from any interior pointer of an object the folio number, object number and base address come back exactly |
| `SizeClasses.ObjectsDisjoint` | memory/small_malloc.cpp:537-544 | distinct (folio, bit) pairs of a chunk name objects that do not overlap each other, the chunk header or the next chunk |
| `HugeMalloc.HyperceilIsLeast` | memory/malloc_internal.h:39-49 | `hyperceil` is the least power of two that is large enough |
| `HugeMalloc.BinRoundTrip` | memory/malloc.cpp:644-652 | the bin comes back out of the packed word for every size, in both encodings |
| `HugeMalloc.ChunksArePower` | memory/huge_malloc.cpp:100-103 | `huge_malloc` asks for a power of two of chunks that holds the size, the least one beyond a single chunk |
| `HugeMalloc.SameList` | memory/huge_malloc.cpp:123-150 | the list `huge_free` computes from the packed word is the list `huge_malloc` took the block from, for every size |
| `HugeMalloc.HugeHeap.constructor` | memory/huge_malloc.cpp:19 | a heap without blocks is valid |
| `HugeMalloc.HugeHeap.Put` | memory/huge_malloc.cpp:41-53 | the block goes in front of the list for its size |
| `HugeMalloc.HugeHeap.TakeCached` | memory/huge_malloc.cpp:28-39 | the first block of the list, if any, is handed out and is no longer free; the other lists stay |
| `HugeMalloc.HugeHeap.PieceAt` | memory/huge_malloc.cpp:82-84 | the piece is the largest power of two that divides its start and does not pass the end |
| `HugeMalloc.HugeHeap.HeadPiece` | memory/huge_malloc.cpp:82-86 | before the aligned chunk, a piece ends at it or earlier |
| `HugeMalloc.HugeHeap.CutHead` | memory/huge_malloc.cpp:74-88 | the chunks before the first aligned one become aligned free blocks, each on the list for its size |
| `HugeMalloc.HugeHeap.CutTail` | memory/huge_malloc.cpp:89-95 | so do the chunks after the result |
| `HugeMalloc.HugeHeap.CutMapping` | memory/huge_malloc.cpp:70-97 | a fresh mapping of 2n chunks, wherever it starts, is partitioned into one n-aligned result of n chunks and disjoint aligned free blocks |
| `HugeMalloc.HugeHeap.GetChunks` | memory/huge_malloc.cpp:62-98 | fails exactly when the list is empty and there is no mapping; otherwise hands out the first block of the list, mapping nothing, or one cut from the new mapping exactly if the list is empty |
| `HugeMalloc.HugeHeap.Malloc` | memory/huge_malloc.cpp:100-129 | fails exactly when the list for the size is empty and there is no mapping; otherwise hands out a block not in use, aligned to its size and large enough, which is the cached one if there is one, and records its bin and size |
| `HugeMalloc.HugeHeap.Tag` | memory/huge_malloc.cpp:123-127 | the packed word is stored for the block handed out |
| `HugeMalloc.HugeHeap.Free` | memory/huge_malloc.cpp:131-151 | the block goes back in front of the list it came from and nothing else changes |
| `HugeMalloc.HugeHeap.BlocksDisjoint` | memory/huge_malloc.cpp:15-19 | no chunk is in two blocks, in use or free |
| `OptimisticValidation.StepKeeps` | bench/cc/occ.cpp:90-178 | every access, validation, write and critical section of every transaction keeps the invariant, if transactions begin with a number that has been given out; which transactions pass: `OptimisticValidationVerdict.VerdictIff` |
| `OptimisticValidation.RunKeeps` | bench/cc/occ.cpp:90-178 | the invariant holds in every state of every such run |
| `OptimisticValidation.LastWriterIs` | bench/cc/occ.cpp:90-178 | the serial reference: the last validated writer of a row before a position in the order |
| `OptimisticValidation.DecideSerial` | bench/cc/occ.cpp:121-143 | a transaction that passes validation has read, for each row, the version of the last validated writer before it |
| `OptimisticValidation.WriteInOrder` | bench/cc/occ.cpp:132-143 | overlapping writers write a common row in the order of their first critical sections |
| `OptimisticValidation.UnlinkOk` | bench/cc/occ.cpp:149-160 | unlinking from the active list removes just that transaction |
| `OptimisticValidation.ReadsAreSerial` | bench/cc/occ.cpp:90-178 | in every state of every such run each validated transaction has copied, of the rows it read, what the serial execution in the order of first critical sections gives it |
| `OptimisticValidation.DatabaseIsSerial` | bench/cc/occ.cpp:90-178 | whenever no transaction is in the middle of its writes, the database is what that serial execution leaves |
| `OptimisticValidationLimits.RunIsSerializable` | bench/cc/occ.cpp:90-178 | if moreover every transaction has read the rows it updates, one serial order explains all copies of all validated transactions |
| `OptimisticValidationLimits.BothMiss` | bench/cc/occ.cpp:90-178 | two validated transactions that each copied the initial version of a row the other writes are explained by no serial order |
| `OptimisticValidationLimits.WriteSkew` | bench/cc/occ.cpp:121-124 | as soon as a transaction may begin above the counter there is a run with two such transactions, although both read what they update |
| `OptimisticValidationLimits.LostUpdate` | bench/cc/occ.cpp:190-196 | and there is one, with proper starting numbers, if updated rows need not be read |
| `OptimisticValidationLimits.SerializableIff` | bench/cc/occ.cpp:90-178 | all runs whose transactions begin at most d above the counter, and read what they update unless blind updates are allowed, are serializable if and only if d is 0 and blind updates are not allowed |
| `OptimisticValidationVerdict.VerdictIff` | bench/cc/occ.cpp:106-143 | in every run a transaction passes validation if and only if no writer numbered above its start that left before it entered updated a row it read, and no transaction that had entered and not left by then updates a row it reads or updates; read and write sets are those of the accesses in the run |
| `OptimisticValidationVerdict.CommitsIffPassed` | bench/cc/occ.cpp:146-178 | a transaction that leaves has committed if and only if that condition holds, and has aborted otherwise; a writer that commits gets the next number |
| `OptimisticValidationVerdict.NoOverlapPasses` | bench/cc/occ.cpp:106-143 | a transaction that begins with the current number and overlaps no other in validation and no commit passes |
| `OptimisticValidationVerdict.DisjointPasses` | bench/cc/occ.cpp:121-143 | a transaction none of whose rows another one updates passes |
| `OptimisticValidationVerdict.DatabaseIs` | bench/cc/occ.cpp:146-178 | in every run the version of a row is that of the last write to it |
| `OptimisticValidationVerdict.SeenIs` | bench/storage/row.cpp:252-258 | a transaction has copied exactly the versions that were current at its accesses |
| `OptimisticValidationVerdict.EveryReadIsSerial` | bench/cc/occ.cpp:90-178 | what a validated transaction read, at the instant it read it, is what it would read if the validated transactions ran one after another in the order in which they entered |
| `OptimisticValidationCode.RowsOfExact` | bench/cc/occ.cpp:190-196 | every access is in exactly one of the two sets and nothing else is |
| `OptimisticValidationCode.GetRwSet` | bench/cc/occ.cpp:180-201 | the two arrays hold exactly the rows read and the rows written, and both size assertions hold |
| `OptimisticValidationCode.TestValid` | bench/cc/occ.cpp:203-211 | true exactly when the sets have no row in common |
| `OptimisticValidationCode.ScanHistory` | bench/cc/occ.cpp:121-130 | the early-stopping scan gives the verdict on all entries numbered above start and up to finish |
| `OptimisticValidationCode.ScanActive` | bench/cc/occ.cpp:132-140 | valid exactly when no snapshot writer meets the read or the write set |
| `OptimisticValidationCode.Validate` | bench/cc/occ.cpp:121-140 | the two scans together |
| `OptimisticValidationCode.SnapshotsStay` | bench/cc/occ.cpp:106-140 | whatever other transactions do between the first critical section and the scan, the two snapshots still represent what the protocol compares with |
| `OptimisticValidationCode.PassesIsValid` | bench/cc/occ.cpp:121-140 | on these snapshots, however much the history has grown since, the code's verdict is the protocol's |
| `OptimisticValidationCode.FirstIsEntering` | bench/cc/occ.cpp:106-120 | the first critical section of the code is that of the protocol and takes the two snapshots |
| `OptimisticValidationCode.SecondIsLeaving` | bench/cc/occ.cpp:146-170 | the second critical section of the code is that of the protocol, for a valid and for a failed transaction |
| `OptimisticValidationCode.Validator.constructor` | bench/cc/occ.cpp:20-26 | empty lists and a zero counter are a valid start |
| `OptimisticValidationCode.Validator.FirstSection` | bench/cc/occ.cpp:106-120 | snapshots counter and lists, and a writer, and only a writer, joins the active list |
| `OptimisticValidationCode.Validator.SecondSection` | bench/cc/occ.cpp:146-170 | the search finds the transaction, unlinks just it, and a valid one is numbered and put on the history, which stays numbered downwards from the counter |
| `OptimisticValidationCode.UnlinkAt` | bench/cc/occ.cpp:149-159 | the pointer surgery is the protocol's unlinking |
| `DeadlockDetection.Explore` | bench/cc/dl_detect.cpp:64-81 | the loop over the waits of the node on top of the stack reaches all live successors, finishes those with small ids, or finds a loop |
| `DeadlockDetection.Follow` | bench/cc/dl_detect.cpp:65-80 | one turn of the loop closes a loop, finishes a live successor, or passes one that is finished or has a large id |
| `DeadlockDetection.NextNode` | bench/cc/dl_detect.cpp:39-93 | returns false with the node finished, or true with a lasso below the stack; terminates by the number of unvisited threads |
| `DeadlockDetection.DetectCycle` | bench/cc/dl_detect.cpp:101-125 | up to the abort: for every table, a reachable cycle of live waits with ids below 2^31 is reported, and what is reported is a path without repetition from the transaction that the cast test closes, with a victim on the loop that holds the fewest locks there; with all ids below 2^31 a deadlock is reported exactly when the transaction is current and a cycle of live waits is reachable from it |
| `DeadlockDetection.TellVictim` | bench/cc/dl_detect.cpp:101-132 | exactly one transaction is told to abort, one on the loop with the fewest locks there, if one on it holds fewer than 1000; otherwise only the thread of number 2^64 - 1 can be told, exactly if it runs nothing; with ids below 2^31 the loop is a cycle of live waits |
| `DeadlockDetection.LargeIdIsMissed` | bench/cc/dl_detect.cpp:68-75 | for every larger bound on ids there is a table with two threads that wait for each other, which is not reported |
| `DeadlockDetection.PairIsMissed` | bench/cc/dl_detect.cpp:68-75 | in that table the two wait in a cycle, and no path from the one with the large id is closed by the cast test |
| `DeadlockDetection.BelowLasso` | bench/cc/dl_detect.cpp:68-80 | with ids below 2^31 the waits the search follows and those the cast test accepts are the same |
| `DeadlockDetection.NoCycleFromFinished` | bench/cc/dl_detect.cpp:64-92 | no cycle with ids below 2^31 is reachable from a node that a completed search has finished |
| `DeadlockDetection.LassoCycle` | bench/cc/dl_detect.cpp:68-75 | what the search reports is a cycle without repetition |
| `DeadlockDetection.VictimIsLeast` | bench/cc/dl_detect.cpp:82-91 | the running minimum kept while the recursion unwinds is the minimum over the loop |
| `DeadlockDetection.VictimOnCycle` | bench/cc/dl_detect.cpp:82-91 | the victim is on the cycle and minimal there; there is none exactly when all hold 1000 locks or more |
| `VersionRing.OneCurrent` | bench/cc/row_hekaton.cpp:70-87 | at a time that is no commit time exactly one version is current |
| `VersionRing.RowHistory.constructor` | bench/cc/row_hekaton.cpp:14-31 | a new row has one version, current from time 0 |
| `VersionRing.RowHistory.Read` | bench/cc/row_hekaton.cpp:59-87 | a read returns the one version current at its timestamp with the data it was committed with, or aborts exactly when that version has left the ring; the two assertions hold |
| `VersionRing.RowHistory.Collect` | bench/cc/row_hekaton.cpp:114-125 | collection drops exactly the versions that ended before the oldest timestamp, never the latest |
| `VersionRing.RowHistory.Unroll` | bench/cc/row_hekaton.cpp:35-43 | the copy loop lists the ring from the oldest entry on, then empty entries |
| `VersionRing.RowHistory.Double` | bench/cc/row_hekaton.cpp:33-51 | doubling a full ring loses no version |
| `VersionRing.RowHistory.MakeRoom` | bench/cc/row_hekaton.cpp:114-141 | afterwards the ring has a free entry; of the versions a reader may hold the oldest leaves exactly when the ring is full and may not grow, and no other does |
| `VersionRing.RowHistory.Reserve` | bench/cc/row_hekaton.cpp:112-149 | the entry after the latest version is reserved with a row that no version in the ring uses; of the rows a reader may hold it is the oldest one's exactly when the ring is full and may not grow |
| `VersionRing.RowHistory.Readable` | bench/cc/row_hekaton.cpp:59-87 | the row of a version holds its value as long as the version is in the ring, and is never the draft |
| `VersionRing.RowHistory.Prewrite` | bench/cc/row_hekaton.cpp:88-104 | aborts exactly when a prewrite exists or the latest version is younger; otherwise the draft is a copy of the latest version and no other row changes; of the versions in the ring that a reader may hold, the draft takes the row of the oldest if and only if the ring is full and may not grow, and no other's |
| `VersionRing.ReaderLosesItsRow` | bench/cc/row_hekaton.cpp:59-141 | with four threads or fewer there is a run in which the row that a read has returned is overwritten while the read's version is the one current at its timestamp |
| `VersionRing.RowHistory.Mark` | bench/cc/row_hekaton.cpp:95-103 | the two entries are marked and the latest row is copied into the draft |
| `VersionRing.RowHistory.Write` | bench/cc/row_hekaton.cpp:100-103 | changing the draft changes no version |
| `VersionRing.RowHistory.Commit` | bench/cc/row_hekaton.cpp:183-198 | the draft becomes the latest version at the commit time and the one before ends there; the assertions hold, also that the entry carries the id of the transaction that prewrote |
| `VersionRing.RowHistory.Rollback` | bench/cc/row_hekaton.cpp:183-203 | an abort leaves the versions as they were, the latest open-ended; the assertion of line 189 holds |

## Left out

- System calls and hardware: mmap, madvise, futexes, file locks and file access, prefetching, hardware transactions, memory barriers and relaxed orderings; runs are sequentially consistent and an `atomically` body is one step.
- Counters that could wrap in theory (queue and stack counters, dequeue counters, transaction numbers) are unbounded; `DequeueCounters.CircularLessIsLess` gives the condition under which the wrapped comparison agrees. The 16-bit lock words, the 64-bit block bases and the bin arithmetic are modelled with their widths.
- LockFreeQueue.StepKeeps: does not cover torn reads, because FIFO order is then lost; `LockFreeQueueEveryRun.StepKeeps` covers them, and `LockFreeQueueTearing.SafeIffOneEnqueuer` is the exact condition. Pushes and pops of the queue's own freelist are single steps here (`TaggedStack` covers them), the unused load of line 100 is dropped, and runs start with a dummy whose counter will not be reissued.
- LockFreeQueue.RunKeeps: tear-free runs only, for the same reason; `LockFreeQueueEveryRun.RunKeeps` covers all runs without the order.
- Calls that are overtaken for ever: what a call does is stated for every interleaving in which it returns, for a call that nobody else interrupts, and as freedom from deadlock for the two locking protocols.
- TaggedStack.StepKeeps: `freelist_guaranteed_pop`, which allocates, is left out.
- RingBuffer.StepKeeps: the overwrite flag and `ringbuffer_new` (which passes a pointer where a count is meant, lines 7 and 9) are left out; the two cases the flag tells apart are those of `RingBufferCalls.GetWriteGets`. Freelist operations, and the linking of a node to the queue or behind another call's node, are single steps.
- DequeueCounters.StepKeeps: moving the elements out of the blocks and emptying blocks are left out.
- ImplicitBlockIndex.BlockIndex.Insert: the doubled capacity is at most 2^59, the number of block bases; capacities are powers of two. Readers see the index between the owner's operations.
- The explicit producer's block index, bulk enqueue rollback by exceptions, destructors, moves and the implicit-producer hash.
- BlinkTree.StepKeeps: keys are integers, deletion is left out, the write of a right page that nothing points at yet is one step with the cut of the left page, the last turn of an insertion's search and its page write, both under the page's write lock, are one step, and a new page gets a number not in use. Latches held within one page write are part of that step, the parent locks are steps of their own; what a page holds in bytes is the subject of `SlottedPage`.
- SlottedPage.Page.Insert: keys are at most 255 bytes and not above the fence; `SlottedPage.SortedIffBelowStopper` says what happens above it.
- SlottedPage.Page.Split: posting the fences and the root case are in `BlinkTree`; a page with one key is excluded, see `SlottedPage.SplittableIffLarge`.
- SlottedPage.SplittableIffLarge: sizes between 2049 and 4095 bytes, which are not powers of two, are left open.
- PageCache.Cache.HashPage: mapping and unmapping a segment, and its failure, are left out; the cache has at least two nodes, and the source's table of `nodemax / 8` buckets needs eight.
- SmallMalloc.SmallBin.Free: the object must be allocated, as the assertion of line 451 demands; bitmap words are sets of bit numbers.
- SizeClasses.WayBack: `size_2_bin` is not modelled.
- HugeMalloc.HugeHeap.Malloc: sizes whose power of two exceeds the last of the 27 lists are excluded; list operations are single steps.
- OptimisticValidation.StepKeeps: a transaction begins with a `start_tn` not above the counter, as `OptimisticValidationLimits.SerializableIff` shows it must; it accesses rows only before it validates; `per_row_validate` and memory reclamation are left out.
- DeadlockDetection.DetectCycle: the graph does not change during a detection; with ids of 2^31 and more the report is bounded from both sides but not characterised, since it depends on the order in which waits are visited; `add_dep` and `clear_dep`, which only edit the table, are left out.
- VersionRing.RowHistory.Read: no version has the reader's timestamp, timestamps being unique, and the reader is younger than the row; the repeatable-read branch, which returns the latest row, and `prepare_read` are left out.
- The other trees (btree2t, btree2v, the tree of btree2u), `memory/cache.cpp`, `memory/large_malloc.cpp`, mwcas, advance, the basic lock-free queue of moody, statistics, tests and mains.
