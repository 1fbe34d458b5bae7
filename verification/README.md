# Verification of the message paths of mtk

This project models, in Dafny, the parts of the repository that every message passes through, and proves what they
promise:

- the lock-free queues in `ext/MoodyCamel`: the free list of blocks, the implicit producers of `ConcurrentQueue` with
  their counters, blocks and block index, the hash from threads to producers, `ReaderWriterQueue` with its semaphore;
- the incremental HTTP parser in `src/http.cpp`;
- the send protocol of a server stream (`src/conn.h`, `src/conn.cpp`) and the call table of the client
  (`src/rpc.h`, `src/rpc.cpp`).

Concurrent code is a transition system: a state, one step per atomic load, store, CAS, fetch_add or critical section,
and any interleaving of any number of threads. `Reaches(s0, run, s)` says that the steps `run` lead from an initial
state to `s`; theorems about it hold for every run. Fields called auxiliary record what happened (what was enqueued,
who claimed an index) and are never read by a step; modules named `…Calls` and `CallTraces` tie them to the actions of
the run, so that what callers get is stated by what callers did, and say what a call does that nobody disturbs.
Code that one thread runs by itself is a class with the fields of
the original and methods with its loops, proved against functions on those fields; lemmas about the functions then say
what the code is for.

Facts about the modules in order of dependency:

| files | content |
|---|---|
| `Modular`, `Words`, `Rounding`, `Sets`, `Options`, `Slots` | remainders and powers of two, 64-bit words, sizes of sets, shared types |
| `FreeList`, `…Calls` | the lock-free free list |
| `ImplicitQueue`, `…Calls`, `…Counters`, `…Blocks`, `…Runs`, `…Alone`, `…Words`, `…Incidents` | many implicit producers and consumers, their block pools, comparisons on words |
| `BlockIndex`, `…Proof`, `…Runs`, `…Calls`, `…Growth` | the ring from block bases to blocks, read while it changes |
| `BulkEnqueue` | `enqueue_bulk`, all or nothing |
| `ProducerHash`, `…Proof`, `…Runs`, `…Calls` | the thread-to-producer hash |
| `SpscQueue`, `…Proof`, `…Runs`, `…Calls`, `Semaphore`, `BlockingQueue` | the single-producer queue and its blocking form |
| `HttpMessage`, `HttpParser`, `HttpRuns`, `HttpNumbers`, `HttpHeaders`, `HttpChunks`, `HttpWhole` | the HTTP parser, numbers and headers as they are written |
| `HttpStatus`, `HttpLimits`, `HttpBlock`, `HttpServe` | the status line, what the parser refuses, the memory behind its buffer, the driver of a connection |
| `SendStream`, `SendRuns`, `SendSteps` | replies on one stream, and its lifetime |
| `CallTable`, `CallRuns`, `CallTraces`, `CallSteps`, `CallAccounts`, `CallIncidents` | the client's outstanding calls |

## What turned out not to hold

- `signal(0)` breaks the semaphore: it may post although there is no token. `SignalSafeExactly` says that a call of
  `signal` keeps conservation in every continuation exactly if it offers a token (`n > 0`), whatever the count is at the
  call, for before its fetch_add the waiter may take every token there is and go to sleep; `SignalZeroBreaks` gives the
  continuation that fails from any state, `SignalZeroWakesForNothing` a run from the beginning.
- A message with `Content-Length: 0` is never complete, and the next byte is an error: `ZeroLengthHangs` gives the bytes,
  `CompleteExactly` says that a message with an announced length is complete exactly when that length is not 0.
- A cut of the bytes matters exactly when a websocket was established before the last byte of the first piece:
  `CutExactly`; `CutMatters` shows that every message that upgrades can be cut so, `SomeCutMatters` gives one.
- The comment phase of the parser is never entered (`NeverComment`): the test at `src/http.cpp:469` looks at the
  terminating 0, not at the last byte. So every chunk extension is refused (`ExtensionRefused`; `SomeExtensionRefused`
  gives the bytes of a message), and `SizeLineRefusedExactly` says which size lines are.
- A message with neither length nor chunks nor upgrade is an error exactly if its first line is a status line whose
  status, cut to 16 bits, is 200 (`NoBodyExactly`). So the one-line reply `HTTP/1.1 65736` is refused
  (`CutStatusRefused`).
- The parser's buffer does not grow as needed. `append` computes its limit from `m_max`, which is set once, so every
  reallocation is to the same size (`src/http.cpp:228-232`): 1022 bytes on a connection. The results on what the parser
  does with a message (`ChunkedInPieces`, `LengthWhole`, `PiecesDoNotMatter`, `ChunkedServed` and the others) hold of
  the code as long as the buffer stays inside that block. `InsideExactly` says exactly when it does: if every byte
  stored, with the 0 behind it, lies below twice the limit; `ConnectionFitsExactly` says it for any reads and pieces of
  a connection that does not upgrade. Every message of at most 1021 bytes stays inside (`ShortFits`); a header line of 1022 bytes does not
  (`LongHeaderLeaves`).
- A pending call is pushed out of the client's table by a later one with the same id (`PushedOutExactly`), exactly when
  their ids were handed out a whole number of cycles of 1999999999 apart (`OverwritesExactly`); `OverwriteHappens`
  gives a run.
- A reply is dropped exactly while the client is restarting, or when it is no notice and no call is pending under its id
  (`DroppedExactly`). A call whose request was queued but whose entry is not yet stored is not pending:
  `EarlyReplyIsLost` gives a run in which its reply comes too early. `RestartDropsReply` gives a run in which the reply
  of a pending call is dropped because the client restarts.
- The hash is not lock-free: a call that has to add its thread waits for the one that holds the resize flag exactly if
  the newest table has no room for it below three quarters, and goes round until that one is done
  (`LoneCallReturnsExactly`).
- A consumer's first comparison of words is the order of the counters exactly if the reservations made meanwhile are not
  ahead of the tail it loaded or, whole turns of 2^64 not counted, at most half a turn ahead of it
  (`FirstTestRightExactly`). `SleeperMisled` gives runs, one for each number of elements that pass meanwhile: a consumer
  that slept through 2^63 + 2 to 2^64 of them finds an element in an empty queue.

## Model

| member | source | states |
|---|---|---|
| `FreeList.ListStaysAcyclic` | ext/MoodyCamel/concurrentqueue.h:1353-1441 | in every interleaving of any number of `add` and `try_get`, the links from the head run through distinct nodes to null, and exactly the listed ones |
| `FreeListCalls.HandedOutOncePerAdd` | ext/MoodyCamel/concurrentqueue.h:1378-1414 | counted over the actions of the run, a node is returned by at most one `try_get` for each `add`, and never behind by more than one |
| `FreeListCalls.NothingOnlyIfEmpty` | ext/MoodyCamel/concurrentqueue.h:1378-1414 | in every interleaving a `try_get` that returns without a node has loaded a null head since it was called |
| `FreeListCalls.LoneGet` | ext/MoodyCamel/concurrentqueue.h:1378-1414 | from any reachable state, an undisturbed `try_get` returns the first listed node after seven steps and takes exactly that one off; on an empty list it returns nothing after one |
| `FreeListCalls.LoneAdd` | ext/MoodyCamel/concurrentqueue.h:1365-1441 | with no operation in flight, an undisturbed `add` puts its node in front of the list |
| `FreeList.OneTaker` | ext/MoodyCamel/concurrentqueue.h:1378-1414 | two threads never take the same node off the list |
| `FreeList.TakenFlagIsClear` | ext/MoodyCamel/concurrentqueue.h:1396-1396 | the assertion on the flag bit never fails |
| `FreeListCalls.NothingLost` | ext/MoodyCamel/concurrentqueue.h:1353-1441 | with no operation in flight, the nodes reachable are exactly those that the run has added and not handed out since |
| `FreeList.OwnedUntilAdded` | ext/MoodyCamel/concurrentqueue.h:1365-1414 | a node that was handed out stays out until its holder adds it |
| `Words.CircularLessThanExact` | ext/MoodyCamel/concurrentqueue.h:396-407 | on words of counters, less-than holds exactly when the second is ahead by more than 0 and less than half a turn |
| `Words.CircularLessThanIsOrder` | ext/MoodyCamel/concurrentqueue.h:396-407 | it is the order of the counters while they are within half a turn |
| `Words.SpreadBits` | ext/MoodyCamel/concurrentqueue.h:423-429 | the shift-or loop computes all six copies |
| `Words.CeilToPow2` | ext/MoodyCamel/concurrentqueue.h:417-431 | the least power of two not below x, for every x from 1 to 2^63 |
| `Rounding.SameRounding` | ext/MoodyCamel/concurrentqueue.h:417-431 | the least power of two among words stands for the least among all numbers |
| `ImplicitQueueCounters.HeadNeverPassesTail` | ext/MoodyCamel/concurrentqueue.h:2461-2530 | however consumers mix single and bulk dequeues, head never passes tail, and a granted claim is covered by the tail |
| `ImplicitQueueCounters.SettledCountersMeetHead` | ext/MoodyCamel/concurrentqueue.h:2461-2530 | with no dequeue in flight, optimistic count minus overcommit equals head |
| `ImplicitQueueCounters.OvercommitBelowCount` | ext/MoodyCamel/concurrentqueue.h:2471-2471 | the assertion that the overcommit loaded is not above the count reserved |
| `ImplicitQueueCalls.HistoryIsAccepted` | ext/MoodyCamel/concurrentqueue.h:2397-2458 | the items of a producer in index order are the arguments of the calls of `enqueue` in the run that stored a new tail index: different calls, in the order they were made |
| `ImplicitQueueRuns.DeliveredOnce` | ext/MoodyCamel/concurrentqueue.h:2461-2530 | every delivery hands over the argument of the call that was accepted with an index that its consumer claimed, and no index is delivered twice |
| `ImplicitQueueRuns.DeliveredInOrder` | ext/MoodyCamel/concurrentqueue.h:2683-2783 | one consumer gets one producer's items in the order in which the run makes the calls that enqueue them |
| `ImplicitQueueRuns.ClaimsFollowEnqueueOrder` | ext/MoodyCamel/concurrentqueue.h:2477-2477 | each claim takes the oldest indices not yet claimed |
| `ImplicitQueueRuns.EveryItemAccountedFor` | ext/MoodyCamel/concurrentqueue.h:1031-1062 | at every moment items delivered and items standing in the slots of the producer's blocks, each in the slot of its own index, are exactly the arguments of the calls accepted |
| `ImplicitQueueRuns.ItemsConserved` | ext/MoodyCamel/concurrentqueue.h:1031-1062 | outside claims, items delivered and items between head and tail are exactly the arguments of the calls accepted |
| `ImplicitQueueRuns.OnePlace` | ext/MoodyCamel/concurrentqueue.h:2952-3004 | every block is at every moment in exactly one place: the initial pool not yet given out, the free list, with a producer before it is installed, one entry of one index, or with the consumer about to release it |
| `ImplicitQueueRuns.OneReleaser` | ext/MoodyCamel/concurrentqueue.h:2506-2519 | two consumers never release the same block |
| `ImplicitQueueRuns.ReleasedBlockIsDone` | ext/MoodyCamel/concurrentqueue.h:1500-1537 | the consumer whose `set_empty` completes a block releases it when no element is left in it and no claim reaches into it |
| `ImplicitQueueRuns.NobodyIsStuck` | ext/MoodyCamel/concurrentqueue.h:2397-2530 | every claimed index resolves to a live block with its element, every step of every operation is defined |
| `ImplicitQueueRuns.DequeueIsWaitFree` | ext/MoodyCamel/concurrentqueue.h:2461-2530 | each step of a dequeue brings it nearer to its return, whatever the others do |
| `ImplicitQueueAlone.LoneEnqueue` | ext/MoodyCamel/concurrentqueue.h:2397-2458 | from any reachable state, an undisturbed enqueue with memory, inside the window if it needs a block, returns after at most nine steps with exactly its item accepted, standing in the slot of its index |
| `ImplicitQueueAlone.RefusedOnlyIf` | ext/MoodyCamel/concurrentqueue.h:2399-2424 | in every run an enqueue is refused only by the window or by an allocation of its own that fails |
| `ImplicitQueueAlone.LoneDequeue` | ext/MoodyCamel/concurrentqueue.h:2461-2530 | undisturbed, a dequeue returns after a bounded number of steps with as many of the oldest items as it asked for and there are, in order; with none only from an empty sub-queue, left as it was |
| `ImplicitQueueRuns.ProducerStaysInWindow` | ext/MoodyCamel/concurrentqueue.h:2399-2407 | the fullness test keeps tail minus head inside half a turn forever, so the comparisons agree with the true order |
| `ImplicitQueueWords.SameTest` | ext/MoodyCamel/concurrentqueue.h:2688-2697 | the comparison of dequeue_bulk asks the same as that of dequeue |
| `ImplicitQueueWords.FirstTestRightExactly` | ext/MoodyCamel/concurrentqueue.h:2466-2468 | exactly when the first comparison of a dequeue, on words, is the order of the counters, in every run |
| `ImplicitQueueWords.SecondTestRightExactly` | ext/MoodyCamel/concurrentqueue.h:2470-2475 | the same for the second one, whatever the reservation; one newer than all granted ones is never half a turn behind the tail |
| `ImplicitQueueWords.LoneTestsRight` | ext/MoodyCamel/concurrentqueue.h:2461-2475 | with no dequeue in flight both comparisons and the difference of words are right, so an undisturbed dequeue does on words what it does on counters |
| `ImplicitQueueWords.SizeApproxIs` | ext/MoodyCamel/concurrentqueue.h:1653-1658 | exactly when the approximate size is the loaded tail less the head, or 0 once the head has passed it; loaded together they give the number of elements |
| `ImplicitQueueIncidents.SleeperMisled` | ext/MoodyCamel/concurrentqueue.h:2466-2468 | runs from a new queue, for every number of elements that pass while a consumer sleeps, and exactly which of them mislead it |
| `BlockIndex.LookupPosition` | ext/MoodyCamel/concurrentqueue.h:2846-2860 | signed difference, unsigned division and mask lead to the position of the block, modulo the capacity and across wrap-around |
| `BlockIndexProof.KeyStored` | ext/MoodyCamel/concurrentqueue.h:2805-2831 | storing the key of a block keeps every ring aligned, replaced ones too |
| `BlockIndexProof.GrownWindow` | ext/MoodyCamel/concurrentqueue.h:2862-2904 | the grown ring holds the old blocks at their own positions, then unused entries |
| `BlockIndexRuns.LookupFindsBlock` | ext/MoodyCamel/concurrentqueue.h:2839-2860 | a lookup that overlaps insertions, rewinds and growths ends at the entry of its own block, with its key and a value that is not null |
| `BlockIndexCalls.LookupFindsGiven` | ext/MoodyCamel/concurrentqueue.h:2839-2860 | a consumer that claimed from index i on and has finished k blocks holds the entry of block i / 32 + k, with the block that the run has stored for this number |
| `BlockIndexCalls.LookupTakesThreeLoads` | ext/MoodyCamel/concurrentqueue.h:2846-2860 | a lookup ends after three loads, whatever the producer does |
| `BlockIndexCalls.InsertAdds` | ext/MoodyCamel/concurrentqueue.h:2805-2831 | an insertion that gets its memory and its block adds exactly that block under the next number |
| `BlockIndexCalls.UndoEnds` | ext/MoodyCamel/concurrentqueue.h:2568-2585 | an undo that is begun ends, after three steps for each insertion, with no block of the bulk in the index |
| `BlockIndexRuns.TailBaseIsValid` | ext/MoodyCamel/concurrentqueue.h:2853-2853 | the tail base a lookup reads is never the invalid one |
| `BlockIndexRuns.OwnLookupFindsBlock` | ext/MoodyCamel/concurrentqueue.h:2575-2580 | so are the producer's lookups while it undoes a bulk |
| `BlockIndexRuns.GrownEntryIsUnused` | ext/MoodyCamel/concurrentqueue.h:2825-2825 | after growth the entry chosen has never been used |
| `BlockIndexRuns.NothingOverwritten` | ext/MoodyCamel/concurrentqueue.h:2805-2831 | a new key never lands on the entry of a live block |
| `BlockIndexRuns.EntriesAreDistinct` | ext/MoodyCamel/concurrentqueue.h:2805-2831 | two live blocks never share an entry |
| `BlockIndexRuns.IndexIsExact` | ext/MoodyCamel/concurrentqueue.h:2805-2904 | between operations the tail is at the last block inserted, and entries hold exactly their own live blocks |
| `BlockIndexRuns.RollRestores` | ext/MoodyCamel/concurrentqueue.h:2568-2585 | an undone bulk leaves count, logical tail and entries as they were before it |
| `BlockIndexRuns.RewindRestores` | ext/MoodyCamel/concurrentqueue.h:2833-2837 | a rewound insertion leaves rings, entries and count as before the tail moved |
| `BlockIndexGrowth.NewBlockIndex` | ext/MoodyCamel/concurrentqueue.h:2862-2904 | the copying loop and the loop of new entries build the grown ring of the model; the copy ends after one round |
| `BulkEnqueue.BoundaryCount` | ext/MoodyCamel/concurrentqueue.h:2549-2552 | the number of blocks a bulk needs is one per multiple of the block size in its range, one that starts at index 0 included |
| `BulkEnqueue.BaseDiff` | ext/MoodyCamel/concurrentqueue.h:2549-2552 | the difference of bases, subtractions from 0 that wrap included, is the block size times the multiples of it in the new range |
| `BulkEnqueue.Producer.constructor` | ext/MoodyCamel/concurrentqueue.h:2328-2340 | a new producer satisfies what every bulk keeps |
| `BulkEnqueue.Producer.Unlink` | ext/MoodyCamel/concurrentqueue.h:2575-2581 | the undo loop restores index and logical tail |
| `BulkEnqueue.Producer.GiveBack` | ext/MoodyCamel/concurrentqueue.h:2582-2582 | every acquired block is back in the pool |
| `BulkEnqueue.Producer.Acquire` | ext/MoodyCamel/concurrentqueue.h:2553-2606 | one block for every boundary, chained and indexed, or nothing changed, also while consumers still hold claims on older blocks |
| `BulkEnqueue.Producer.WriteItems` | ext/MoodyCamel/concurrentqueue.h:2608-2677 | the writing loops put the items in consecutive slots and end at the last block, with the tail reached |
| `BulkEnqueue.Producer.EnqueueBulk` | ext/MoodyCamel/concurrentqueue.h:2533-2680 | all items in order or none; succeeds exactly when index, pool and fullness test allow; on failure tail index, tail block, index, logical tail and pool are restored; every element in place stays there, also those that consumers have claimed |
| `ProducerHashProof.QuarterFree` | ext/MoodyCamel/concurrentqueue.h:3303-3312 | a table's keys are fewer than three quarters of its capacity, lazy copies included |
| `ProducerHashCalls.CallReturns` | ext/MoodyCamel/concurrentqueue.h:3287-3428 | in every run a call returns the producer its thread owns, and null exactly if one of its own allocations has failed |
| `ProducerHashCalls.ListedInMain` | ext/MoodyCamel/concurrentqueue.h:3310-3336 | a call that returns a producer leaves it, under the key of the thread, in the table taken for the main one: lazy copies are made |
| `ProducerHashCalls.LoneCall` | ext/MoodyCamel/concurrentqueue.h:3287-3428 | from any reachable state, an undisturbed call with memory ends and returns a producer, unless it must wait for a resize under way |
| `ProducerHashCalls.LoneCallReturnsExactly` | ext/MoodyCamel/concurrentqueue.h:3346-3428 | it returns exactly if it need not wait: the resize flag is free, or the thread has a producer, or the newest table has room below three quarters |
| `ProducerHashRuns.SameProducer` | ext/MoodyCamel/concurrentqueue.h:3280-3428 | a thread always gets the same producer, across insertion, lazy copy and resize |
| `ProducerHashRuns.NeverShared` | ext/MoodyCamel/concurrentqueue.h:3280-3428 | two threads never share a producer |
| `ProducerHashRuns.FoundOnceAdded` | ext/MoodyCamel/concurrentqueue.h:3290-3345 | a thread that was added is found by the search |
| `ProducerHashRuns.QuarterAlwaysFree` | ext/MoodyCamel/concurrentqueue.h:3303-3303 | every table keeps at least a quarter of its slots free in every run |
| `ProducerHashRuns.ProbesAreFew` | ext/MoodyCamel/concurrentqueue.h:3300-3345 | a probing loop passes fewer than three quarters of the slots |
| `ProducerHashRuns.ProbeAdvances` | ext/MoodyCamel/concurrentqueue.h:3300-3345 | each step of a loop leaves it or brings it nearer to its end, and no step of another thread moves it |
| `ProducerHashRuns.OneResizer` | ext/MoodyCamel/concurrentqueue.h:3351-3386 | one thread at a time resizes, from the newest table |
| `ProducerHashRuns.CountIsExact` | ext/MoodyCamel/concurrentqueue.h:3348-3408 | with no call in flight the count is the number of threads that own a producer, allocation failures included |
| `SpscQueueCalls.StreamIsAccepted` | ext/MoodyCamel/readerwriterqueue.h:206-528 | in every interleaving what was put in is the arguments of the calls of the run that made an element visible, in the order they were made, and what was taken out is a prefix of it |
| `SpscQueueCalls.RefusedOnlyIf` | ext/MoodyCamel/readerwriterqueue.h:465-521 | a call is refused only if it must not allocate and no block is free, or its allocation fails |
| `SpscQueueCalls.NothingOnlyIfEmpty` | ext/MoodyCamel/readerwriterqueue.h:206-410 | a take or peek that returns nothing has found the queue empty, at one of its own loads |
| `SpscQueueCalls.CallsAreWaitFree` | ext/MoodyCamel/readerwriterqueue.h:206-528 | each call of either side needs at most nine steps of its own, whatever the other does |
| `SpscQueueCalls.LoneTake` | ext/MoodyCamel/readerwriterqueue.h:206-410 | an undisturbed take or peek returns the oldest element there is, and nothing exactly if there is none |
| `SpscQueueRuns.StoredIsRest` | ext/MoodyCamel/readerwriterqueue.h:434-528 | what is stored along the ring is exactly the rest |
| `SpscQueueRuns.AnswersAreRight` | ext/MoodyCamel/readerwriterqueue.h:206-410 | an element taken or peeked is the one at its place, and "nothing" was true when the queue was looked at |
| `SpscQueueRuns.AssertionsHold` | ext/MoodyCamel/readerwriterqueue.h:272-272 | the assertions on the next block hold on both sides although local copies are stale, and every step is defined |
| `SpscQueueRuns.StoreHitsFreeSlot` | ext/MoodyCamel/readerwriterqueue.h:434-528 | the slot the producer fills holds no element of the stream |
| `SpscQueueRuns.BlockSizes` | ext/MoodyCamel/readerwriterqueue.h:80-133 | in every run the size of every block is a power of two, as the masks need |
| `Words.MaskWraps` | ext/MoodyCamel/readerwriterqueue.h:451-451 | masking with such a size less one wraps an index exactly at the end of its block |
| `Modular.CeilPow2Is` | ext/MoodyCamel/readerwriterqueue.h:539-551 | the initial size is the least power of two that leaves room for `maxSize` elements and a spare slot |
| `Rounding.CeilToPow2Number` | ext/MoodyCamel/readerwriterqueue.h:539-551 | the shift-or loop computes the number that the models size blocks and tables by |
| `SpscQueueRuns.FullMeansMaxSize` | ext/MoodyCamel/readerwriterqueue.h:80-133 | a full tail block with no free block means at least `maxSize` elements, by the block-count formula |
| `SpscQueueRuns.CapacityGuarantee` | ext/MoodyCamel/readerwriterqueue.h:80-133 | `try_enqueue` on a quiescent queue fails only with at least `maxSize` elements present |
| `Semaphore.TokensConserved` | ext/MoodyCamel/atomicops.h:569-648 | successful waits never exceed initial count plus signals, and no token is lost on the timeout path |
| `Semaphore.CountAtLeastMinusOne` | ext/MoodyCamel/atomicops.h:639-648 | the assertion on the old count always holds |
| `Semaphore.NoLostWakeup` | ext/MoodyCamel/atomicops.h:569-648 | a waiter asleep while there is a token has its post made or about to be made |
| `Semaphore.SignalledIsOffered` | ext/MoodyCamel/atomicops.h:639-648 | the tokens counted as signalled are the initial count and what the calls of `signal` in the run have offered |
| `Semaphore.FailsOnlyWithoutToken` | ext/MoodyCamel/atomicops.h:574-637 | a wait fails only at a moment when every token is taken, and only as a try or after its timeout |
| `Semaphore.LoneWait` | ext/MoodyCamel/atomicops.h:574-637 | undisturbed, a wait takes a token if there is one, and a try returns at once if there is none |
| `Semaphore.RepairEnds` | ext/MoodyCamel/atomicops.h:594-615 | the repair loop ends within three steps of the waiter unless the signaller is about to post |
| `Semaphore.RepairLoopsOnlyForPost` | ext/MoodyCamel/atomicops.h:594-615 | the loop goes round only while a post is about to be made |
| `Semaphore.SignalZeroWakesForNothing` | ext/MoodyCamel/atomicops.h:639-648 | a run in which `signal(0)` wakes a waiter without a token |
| `Semaphore.SignalZeroBreaks` | ext/MoodyCamel/atomicops.h:639-648 | from any state a run can reach, the continuation of a `signal(0)` in which conservation fails |
| `Semaphore.SignalSafeExactly` | ext/MoodyCamel/atomicops.h:639-648 | a signal keeps conservation in every continuation exactly if it offers a token |
| `BlockingQueue.WaitFindsElement` | ext/MoodyCamel/readerwriterqueue.h:709-751 | after a successful wait the inner queue holds an element until it is taken |
| `BlockingQueue.TakeSucceeds` | ext/MoodyCamel/readerwriterqueue.h:709-793 | the inner take or pop after a successful wait returns the oldest element, never "nothing" |
| `BlockingQueue.InnerDefined` | ext/MoodyCamel/readerwriterqueue.h:709-793 | every operation inside the queue can take its next step |
| `BlockingQueue.PartsRun` | ext/MoodyCamel/readerwriterqueue.h:645-793 | every run of the blocking queue is, inside, a run of the plain queue with the same calls and arguments, and a run of the semaphore with one signal for each element |
| `BlockingQueue.StreamIsAccepted` | ext/MoodyCamel/readerwriterqueue.h:645-793 | with the semaphore and its timeouts too, what was put in is the arguments of the calls accepted, and what was taken out is a prefix of it |
| `BlockingQueue.SizeIsExactAtRest` | ext/MoodyCamel/readerwriterqueue.h:795-798 | the approximate size is exact when neither side is inside an operation |
| `HttpParser.HttpFSM.constructor` | src/http.cpp:209-220 | the state a reset leaves |
| `HttpParser.HttpFSM.HdrStr` | src/http.cpp:278-322 | the value of the first header that begins with the key, ignoring case; none at all once a line agrees with the key beyond its recorded 16-bit length |
| `HttpMessage.SearchFinds` | src/http.cpp:278-322 | with lines whose recorded lengths cover them, as below 64 KiB, that is the value of the first header with the key |
| `HttpHeaders.FirstHeaderFound` | src/http.cpp:278-322 | that is what stands, behind any spaces and colons, in the first line that begins with the key in any case of its letters; none if it does not fit 256 bytes or no line does |
| `HttpParser.HttpFSM.HdrInt` | src/http.cpp:324-341 | the value as a 32-bit integer, or none |
| `HttpNumbers.IntExactly` | src/http.cpp:324-341 | which is `n` exactly if the text is white space, a sign or none, and the decimal digits of a number that fits 32 bits |
| `HttpParser.HttpFSM.Htoi` | src/http.cpp:564-601 | the loop computes the hex value of a text |
| `HttpNumbers.HexExactly` | src/http.cpp:564-601 | which is `n` exactly if the text writes `n` in base 16, in digits of either case, with leading zeros or not |
| `HttpNumbers.AtoiExactly` | src/http.cpp:603-632 | the same for the number in a status word, in base 10 |
| `HttpParser.HttpFSM.PutRc` | src/http.cpp:634-675 | the loops that skip the gap and copy the status word, with their checks against line length and token buffer, find the version and the status of the first line |
| `HttpStatus.StatusRead` | src/http.cpp:634-675 | a line of five bytes, version, one byte, spaces and a word gives that version and the number in the word |
| `HttpStatus.EveryLineSplits` | src/http.cpp:634-675 | every line of nine bytes and more with a version is such a line |
| `HttpStatus.NoVersion` | src/http.cpp:638-649 | a line without version has no status |
| `HttpStatus.VersionOnly` | src/http.cpp:651-675 | one that ends at the version has status 0 |
| `HttpStatus.ShortLine` | src/http.cpp:636-675 | one of fewer than five bytes, read beyond its end, has none or 0 |
| `HttpStatus.ReplyStatus` | src/http.cpp:384-386 | from the first byte of a reply, its first line decides version and status, cut to 16 bits |
| `HttpStatus.NoBodyExactly` | src/http.cpp:400-408 | exactly which messages without length, chunks or upgrade are complete, whatever their first line |
| `HttpLimits.CutStatusRefused` | src/http.cpp:384-407 | a reply without body whose status is 65736 is refused |
| `HttpParser.HttpFSM.ReceiveHeader` | src/http.cpp:372-421 | a line end in the header block records the line or decides how the body is read |
| `HttpParser.HttpFSM.ReceiveBody` | src/http.cpp:423-444 | the terminator after chunk data is removed from the buffer |
| `HttpParser.HttpFSM.ReceiveBodylen` | src/http.cpp:459-490 | the size line of a chunk is read off and removed |
| `HttpParser.HttpFSM.ReceiveFooter` | src/http.cpp:492-520 | a line end in the trailer records the line or ends the message |
| `HttpParser.HttpFSM.Append` | src/http.cpp:222-276 | a piece is fed byte by byte until an error, the end, or a websocket; the block is reallocated at the limit, and it is known whether every store was inside it |
| `HttpBlock.InsideExactly` | src/http.cpp:228-252 | exactly when every store of a piece is inside the block |
| `HttpBlock.BlockOfPieces` | src/http.cpp:733-737 | the pieces make no difference to the block |
| `HttpBlock.ShortFits` | src/http.cpp:228-252 | every message shorter than twice the limit stays inside, for any first size of the block |
| `HttpBlock.LongHeaderLeaves` | src/http.cpp:228-252 | a header block the parser accepts whose stores leave the block |
| `HttpServe.HttpServContext.OnRead` | src/http.cpp:724-750 | in a receiving state the pieces are fed, then the callback runs and the reply is written, or the driver reads again; otherwise it closes |
| `HttpServe.CalledExactlyOnce` | src/http.cpp:724-750 | over any reads and pieces the callback runs exactly if they hold a whole message, once, on the state all bytes lead to, and exactly then a reply is written |
| `HttpServe.FailedReadCloses` | src/http.cpp:724-754 | a read that fails closes the connection, and no callback is run on it |
| `HttpServe.ErrorCloses` | src/http.cpp:742-750 | after an error the next read closes the connection without a callback |
| `HttpServe.ChunkedServed` | src/http.cpp:724-750 | the callback of a chunked message sees the decoded body and the header and trailer texts as sent |
| `HttpServe.ConnectionFitsExactly` | src/http.cpp:704-740 | exactly when a connection, over any reads and pieces, stays inside the block; with at most 1021 bytes it does |
| `HttpRuns.CutExactly` | src/http.cpp:222-276 | exactly when cutting the bytes in two makes no difference |
| `HttpLimits.CutMatters` | src/http.cpp:222-276 | a message that upgrades and has a byte behind its header block in the same piece can be cut so that it matters |
| `HttpRuns.PiecesDoNotMatter` | src/http.cpp:733-737 | a message that does not upgrade gives the same state, slices and body however it is cut |
| `HttpRuns.ManyLines` | src/http.cpp:372-421 | the slices recorded for CRLF lines are exactly the lines, and nothing before them changes |
| `HttpRuns.TooManyLines` | src/http.cpp:410-419 | the 65th line is an error |
| `HttpRuns.EmptyLine` | src/http.cpp:384-409 | the empty line ends the header block, or the trailer and the message |
| `HttpLimits.NeverComment` | src/http.cpp:459-473 | whatever is received, the comment phase is never entered |
| `HttpLimits.SizeLineRefusedExactly` | src/http.cpp:459-490 | a size line is refused exactly if it has a byte that is no hex digit, before any 0 and after a leading minus |
| `HttpLimits.ExtensionRefused` | src/http.cpp:467-473 | so every chunk extension is refused |
| `HttpLimits.SomeExtensionRefused` | src/http.cpp:467-473 | the bytes of a chunked message with an extension, from the first on, lead to an error |
| `HttpChunks.DataLine` | src/http.cpp:423-444 | chunk data is kept whatever bytes it has, CR and LF included, and its terminator is removed |
| `HttpChunks.OneChunk` | src/http.cpp:459-490 | a chunk adds exactly its data to the decoded body, in place |
| `HttpChunks.ChunkedRoundTrip` | src/http.cpp:423-520 | decoding inverts encoding for any chunks, any spelling of their sizes in base 16 and any trailer (section 7.1 of RFC 9112) |
| `HttpWhole.ChunkedInPieces` | src/http.cpp:222-520 | a whole chunked message in any pieces ends with the decoded body and with header and trailer texts as sent |
| `HttpWhole.LengthWhole` | src/http.cpp:446-457 | a message with an announced length ends with its body and headers as sent |
| `HttpWhole.CompleteExactly` | src/http.cpp:391-395 | it is complete exactly when the announced length is not 0; with length 0 the next byte is an error |
| `HttpLimits.ZeroLengthHangs` | src/http.cpp:391-395 | the bytes of a message with length 0, which is not complete at its end and fails on any byte after it |
| `SendStream.SVStream.Send` | src/conn.h:139-151 | writes at once or queues behind the write in progress |
| `SendStream.SVStream.Step` | src/conn.cpp:63-80 | a completion writes the next reply, or stops sending and drops the reference |
| `SendStream.SVStream.Release` | src/conn.h:99-99 | the reference that brings the count to 0 deletes |
| `SendSteps.SendIsSteps` | src/conn.h:139-151 | the steps of a Send, undisturbed, are the method |
| `SendSteps.StepIsSteps` | src/conn.cpp:63-80 | so are those of a completion, down to the drop of its reference |
| `SendSteps.DestroyIsSteps` | src/conn.h:105-105 | a failed write drops its reference |
| `SendSteps.DropIsRelease` | src/conn.h:99-99 | a holder that goes away deletes exactly if it is the last and neither write nor worker holds the stream |
| `SendRuns.OneWriteInFlight` | src/conn.h:139-151 | at most one write is in flight, and none while its completion or the next write is being dealt with |
| `SendRuns.SentInOrder` | src/conn.h:139-151 | writes issued followed by the queue are the order of `Send` |
| `SendRuns.NoWriteAfterFailure` | src/conn.h:105-105 | after a failed write no write is ever issued |
| `SendRuns.QueueIsServed` | src/conn.cpp:63-80 | a queued reply always has a write on its way that will send it |
| `SendRuns.AllWritten` | src/conn.cpp:63-80 | with nothing in flight and no failure everything sent has been written |
| `SendRuns.RefcIsHolders` | src/conn.h:252-305 | the reference count is the Conn, handles and closers plus the write in flight and completions about to leave |
| `SendRuns.DeletedExactly` | src/conn.h:98-105 | deleted exactly when the last reference is gone, and once |
| `SendRuns.NoUseAfterDelete` | src/conn.h:98-105 | no step is left that could touch a deleted stream |
| `CallTable.RPCStream.NewMsgId` | src/rpc.h:193-211 | the next id |
| `CallTable.RPCStream.Call` | src/rpc.h:237-251 | refused, or queued and entered in the table |
| `CallTable.RPCStream.DrainQueue` | src/rpc.cpp:265-281 | replies, requests and table are emptied, no callback is run |
| `CallTable.RPCStream.ProcessReply` | src/rpc.cpp:283-327 | replies are handled in order up to the first event, by the steps of module CallRuns (ProcessIsSteps) |
| `CallTable.RPCStream.ProcessTimeout` | src/rpc.cpp:329-348 | exactly the expired entries leave, and their callbacks run in the order of ids |
| `CallTable.LeavesAfterThirtySeconds` | src/rpc.cpp:329-348 | in numbers: an entry stays exactly if it is no older than 30 seconds, and the callbacks run are those of all others |
| `CallRuns.IdsDistinct` | src/rpc.h:193-211 | ids are never 0, and any 1999999999 consecutive ones are distinct |
| `CallRuns.IdsInOrder` | src/rpc.h:194-208 | under any interference the CAS that succeeds after k others hands out the k-th id, one that fails none |
| `CallRuns.HeldIdsDiffer` | src/rpc.h:194-250 | two calls that have ids at the same time, being made or pending, have different ones, while fewer than 1999999999 turns lie between them |
| `CallTraces.RequestsCarryOwnIds` | src/rpc.h:237-251 | in every run a request is queued with the id its own call drew, at most one for each call, and a call is pending under the id of its request |
| `CallRuns.CallbackAtMostOnce` | src/rpc.cpp:283-348 | a callback is run at most once |
| `CallTraces.ReplyGoesToItsCall` | src/rpc.cpp:307-319 | a callback run with a reply belongs to a call that drew its id, and gets the error flag of a reply delivered under this id |
| `CallTraces.OutcomesAreCaused` | src/rpc.cpp:283-348 | every callback has its cause in the run: this reply delivered, a timeout more than 30 seconds after its request, or a call while not connected |
| `CallTraces.RepliesUsedOnce` | src/rpc.cpp:283-327 | callbacks and notices use each reply delivered at most once |
| `CallTraces.ReplyRunsCallback` | src/rpc.cpp:303-319 | a reply handled undisturbed, its call pending and the client not restarting, runs exactly that call's callback with this id and error flag |
| `CallRuns.FinalStays` | src/rpc.cpp:265-348 | a call that was answered, dropped or pushed out stays so |
| `CallRuns.DroppedExactly` | src/rpc.cpp:303-323 | exactly when a reply that is handled reaches nobody |
| `CallIncidents.EarlyReplyIsLost` | src/rpc.h:247-250 | a run in which a reply is handled before the entry of its call is stored, and is lost |
| `CallIncidents.RestartDropsReply` | src/rpc.cpp:303-304 | a run in which the reply of a pending call is dropped because the client is restarting |
| `CallRuns.PushedOutExactly` | src/rpc.h:248-250 | storing an entry pushes out exactly the call listed under the same id |
| `CallRuns.OverwritesExactly` | src/rpc.h:248-250 | and there is one exactly if a call is pending whose id was handed out a whole number of cycles away |
| `CallIncidents.OverwriteHappens` | src/rpc.h:193-250 | a run from a new client in which a pending call is pushed out and its callback never run |
| `CallRuns.NothingOverwritten` | src/rpc.h:248-250 | none is pushed out while no call stays pending through 1999999999 others |
| `CallSteps.CallIsSteps` | src/rpc.h:237-251 | the steps of a call, undisturbed, are the method |
| `CallSteps.CallIsListed` | src/rpc.h:237-251 | undisturbed, a call while connected draws the next id, queues its request with it and is listed under it with the time it was given |
| `CallSteps.ReplyIsSteps` | src/rpc.cpp:285-326 | so are those of handling a reply |
| `CallSteps.EventIsSteps` | src/rpc.cpp:285-302 | those of an event with its drain |
| `CallSteps.EventTakesEffect` | src/rpc.cpp:285-302 | an event empties queues and table, runs no callback and sets its status; only a connection ends a restart |
| `CallSteps.ProcessIsSteps` | src/rpc.cpp:283-327 | undisturbed steps add up to the whole of ProcessReply |
| `CallSteps.TimeoutIsSteps` | src/rpc.cpp:329-348 | and those of a timeout |
| `CallAccounts.PendingIsTable` | src/rpc.h:237-251 | pending calls and entries of the table correspond one to one |
| `CallAccounts.CallsAccountedFor` | src/rpc.cpp:265-348 | at every moment calls issued are calls being made, refusals, replies, timeouts, callbacks due, drained, pending and pushed out |
| `CallAccounts.DueIsHeld` | src/rpc.cpp:283-348 | callbacks due are as many as the update thread holds, and those of the calls that left the table for them |

## Left out

- Weak memory orderings, fences, padding and alignment: all steps are sequentially consistent.
- The concurrent cores (free list, implicit queue, block index, hash, single-producer queue, semaphore) are transition
  systems on values, not classes on a heap: what is not captured is the layout of nodes and blocks in memory and the
  addresses that link them. Blocks and nodes are numbers, links are number-valued fields.
- Explicit producers and tokens, queue moves and swaps, exception paths of constructors and assignments, debug variants,
  and the thread-exit code, which is compiled out (ext/MoodyCamel/concurrentqueue.h:200).
- The choice of a producer in `try_dequeue`: it may be any, so what it picks by size is not modelled.
- ImplicitQueueCounters.HeadNeverPassesTail: steps of a consumer compare unbounded counters, here and in the results built
  on it, so what follows once a consumer has slept through 2^63 operations between two loads is not captured; module
  ImplicitQueueWords says exactly when the words agree, and that they do for an undisturbed dequeue (LoneTestsRight).
- `dequeue_bulk` with a count of 0: on a non-empty sub-queue the code would call `set_many_empty` with 0 elements; the
  model asks for at least one.
- BulkEnqueue.Producer.EnqueueBulk: bulks of 2^63 elements and more (they do not fit in memory); consumers that move between its
  steps: their runs are proved with single enqueues (ImplicitQueueRuns), their lookups with bulks as well
  (BlockIndexRuns). The block index enters by its proved abstraction.
- Subqueue size limits other than the default, and producers recycled by explicit tokens.
- ProducerHashRuns.SameProducer: tables of any size are assumed to be addressable by size_t.
- What the HTTP parser does once a store was outside its block: the methods go on as if the memory were there. Blocks of
  more than 2^31 bytes, and lengths of 2^32 and more.
- Bare-LF chunk terminators, chunk sizes of 2^31 and more, and what follows a websocket upgrade.
- Empty pieces, of which the code reads a byte: pieces have at least one. Status numbers that overflow an int wrap.
- `HttpFSM` helpers for urls, verbs and request sending; websocket framing; sockets and servers around the parser.
- The connection state machine `Conn::Step` and `ConsumeTask`, workers, gRPC completion queues, `IOThread`.
- Completions of one stream delivered by several threads: a worker has one thread and its own queue (src/worker.cpp:20-50).
- SendRuns.NoUseAfterDelete: handles and closers are made only by someone who holds a reference. `IServer::GetStream`
  (src/server.cpp:68-75) releases the lock of the connection table before it takes its reference, so it is not such a
  maker unless its caller keeps the connection alive meanwhile.
- Copies of `Conn::Stream` by its implicit copy constructor, which takes no reference.
- Back-off between reconnects and its jitter (src/rpc.cpp:223-244), clocks: times are parameters.
- CallTable.RPCStream.NewMsgId: the class has the loop's successful turn; interference and spurious failure of the CAS are
  in module CallRuns (IdsInOrder).
- Credentials, certificates, logging, generated protobuf code, the C# bindings.
