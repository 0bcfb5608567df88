# Verified models of the queues, the socket writer, the chunked decoder and the router

This project models, in Dafny, the algorithms that the vendored headers of this repository are relied on for, and
proves properties of them that hold in every run or for every input.  There are six components.

1. **The lock-free block queue** (`external/cameron314/concurrentqueue.h`, with this repository's pre-allocated producer
   pool).  Interleaving machines: a shared memory, a program counter per thread, and one atomic access per step.
   - `FreeList`, `FreeListOutcomes`: the reference-counted free list, and what its calls report.
   - `DequeueCounters`, `DequeueOutcomes`: the optimistic-count and overcommit protocol of single and bulk dequeues, and what
     a dequeue comes back with; `Circular` links the wrapped comparisons to integer order.
   - `ImplicitIndex`, `ImplicitQueue`, `ImplicitConsumers`, `ImplicitRuns`: a whole implicit sub-queue: enqueue and bulk
     enqueue with rollback at every allocation, the growing block index, consumers with single and bulk claims, blocks
     that are counted down and freed; `ImplicitOutcomes`: when its calls succeed, and that they return.  `Blocks` has the
     arithmetic of block numbers.
   - `ExplicitRing`, `ExplicitRuns`, `ExplicitOutcomes`: the block ring of an explicit producer with block reuse, index
     doubling and empty flags, its consumers, and the outcome of its calls.
   - `ImplicitDequeues`, `ExplicitDequeues`: the counters' protocol and a sub-queue run as one machine, access by access;
     `ImplicitEmptyClaims`: what bulk dequeues of no elements do there.
   - `PreallocBound`: the number of blocks the three-argument constructor sets aside.
   - `ProducerOwners`, `ProducerOutcomes`: who has which producer, across creation, recycling, the ticket pool and giving
     back, and what asking for one comes back with.
   - `ProducerHash`, `ProducerHashRoom`, `ProducerHashParking`, `ProducerHashSteps`, `ProducerHashFull`,
     `ProducerHashPrealloc`, `ProducerHashOutcomes`: the chain of hash tables from threads to their producers: lookup, lazy
     re-adding, insertion, growing under the resize lock, and exit.
   - `ProducerThreads`: the table and the owners of producers run as one machine.
2. **The ticket queue** (`external/rigtorp/MPMCQueue.h`), `TicketQueue`, `TicketOutcomes`: an interleaving machine of
   blocking and try operations on slots with turn counters, and what its calls report.
3. **The single-producer ring** (`external/rigtorp/SPSCQueue.h`), `SpscRing`, `SpscOutcomes`: an interleaving machine with
   the stale index caches, refined to a bounded FIFO, and what its calls report.
4. **The corked socket writer** (`external/uWebSockets/AsyncSocket.h`, `AsyncSocketData.h`, and how `WebSocket.h` sends a
   frame), `AsyncSockets` and `BackPressures`: classes that are updated in place; many sockets share one cork buffer, and the kernel takes any
   prefix of a write.
5. **The chunked decoder** (`external/uWebSockets/ChunkedEncoding.h`, section 7.1 of RFC 9112), `ChunkedDecoder`: the loops
   over the packed state word, proved against a byte-by-byte automaton.
6. **The route tree** (`external/uWebSockets/HttpRouter.h`): `RouteTree` (the tree), `RouteTable` (the handler list, add and
   remove), `RouteRuns` (sequences of both), `HttpRouters` (the router object: URL cache, parameter stack, loops).

`Options` and `Arithmetic` hold what the modules share.

## What the models assume

- Threads interleave sequentially consistently, and each atomic operation is one step.  A memory access that only its
  own thread or the holder of a claim can race with is a step of its own or part of the step before it.
- Indices and counters are unbounded.  `Circular` proves when the 64-bit comparisons of the source agree with integer
  order, and `FreeList.PackedArithmetic` when the packed 32-bit reference word does.
- `char` is signed, as the chunked decoder's comparison of a byte with 32 needs to know.
- `INITIAL_IMPLICIT_PRODUCER_HASH_SIZE` is a power of two, as the source asks for; it is 32 as shipped, so that no first table
  has fewer slots.
- A kernel write takes any number of bytes from none to all of them.
- Constructors, moves and destructors of elements do not throw.  Memory allocation may fail wherever the source checks
  for it.
- A block that the source destroys when it comes back, since it was allocated and `RECYCLE_ALLOCATED_BLOCKS` is off, is in
  `ImplicitQueue` one that stays on the free list and is never taken again.  `PreallocBound`, where it matters how many
  there are, has the trait as a parameter and drops such a block.
- History that the source does not keep (the log of enqueued elements, which indices were moved out, who holds a block) is
  recorded in the state next to the source's own fields.  Block number k stands for the indices from k times the block size on.

## Where a promise fails, and exactly when it holds

- A bulk dequeue of no elements (`try_dequeue_bulk` with a maximum of 0) goes on to count on the block at the head index of an
  implicit sub-queue.  If that block is drained meanwhile it is followed where there is none, or freed a second time,
  while it may hold new elements, which are then overwritten.  None of these four happens in any run exactly if every
  dequeue asks for at least one element: `ImplicitEmptyClaims.EmptyClaimsExactly`, for every block size.  The results of
  `ImplicitConsumers`, `ImplicitRuns`, `ImplicitOutcomes` and `ImplicitDequeues` are stated for such runs.
- A queue that holds fewer than `minCapacity` elements may still have to allocate a block, if it held more before.  That
  never happens, after any history, exactly if no explicit producer was declared, or no more than one producer in all:
  `PreallocBound.PromiseExactly`; `AnEarlierPeakMakesItAllocate` builds the history otherwise.  `AllocatesExactly` says which
  enqueue allocates: exactly if the producers hold every block that was set aside.  `NothingIsAllocated` says that none
  does as long as each enqueue starts below `minCapacity`.
- The source says a probe of the thread table ends because at least one slot is free.  Threads that exit and come back can
  together fill a table, and `FullTableTraps` says that a lookup then never ends.  Every table keeps an empty slot in every run
  exactly if there are fewer than twice as many threads as the first table has slots: `ProducerHashFull.RoomExactly`, for
  first tables of at least eight slots.  `ATableFills` builds the run, in which no allocation fails;
  `ProducerHashParking.MoreSlotsThanThreads` counts the threads on their ways through a table.  As long as nobody exits no table fills, however many threads there are:
  `WithoutExitsKeepRoom`.  `TableKeepsRoom` bounds the slots in use by three quarters plus the number of cleared slots
  taken over from older tables.
- The source doubles the pre-reserved thread table to avoid allocating another.  While nobody exits that fails exactly if the
  declared number is a power of two and at least half of `INITIAL_IMPLICIT_PRODUCER_HASH_SIZE`:
  `ProducerHashPrealloc.NobodyExitsSecondTableExactly`.  With exits it fails exactly from a quarter of that trait on:
  `SecondTableExactly`.  `CalmSecondExactly` and `SecondExactly` say the same of any first table and any number of threads.
- Decoding does not depend on how a chunked body is cut, but with a chunk extension it can:
  `ChunkedDecoder.ExtensionsMakeCutsMatter`.  `CutsDoNotMatterExactly` says when it does not: exactly if no size line has a printable
  byte after its digits are over, unless the number is zero so far and the byte is the digit 0.
- Removing or replacing a route can remove the ANY node, after which requests fall back to another method:
  `RouteRuns.WithoutAnyRoutesAnyIsLost`.  Over any sequence of operations ANY is last exactly if a registration for it is in force
  or nothing was ever removed or replaced: `AnyIsLastExactly`.
- A request needs a last method to fall back on, and there may be none: after a first route has been registered and removed
  again, `RouteRuns.OneAndNone`.  Over any sequence of operations there is none exactly if no registration is in force
  and something was removed: `NoMethodsExactly`.
- Pending removal is at most 1/32 of a socket's buffer exactly if every resize leaves 31 visible bytes for each pending one:
  `BackPressures.PendingIsSmallExactly` and `ShrinkingBreaksTheBound`.
- `size()` of the single-producer ring, called from a third thread, loads two indices in an order the source leaves open.  It is
  the difference of what was enqueued at one load and popped at the other exactly if no more was popped than enqueued, and
  less than a lap more enqueued: `SpscRing.SizeOverRuns`, which also says which of the two can fail in which order.

## Model

| member | source | states |
|---|---|---|
| TicketQueue.EveryRunSafe | external/rigtorp/MPMCQueue.h:163-251 | in every state of every run of blocking and try operations: no two threads are in the same slot, storage is live exactly when the turn is odd outside a publication, the pop with ticket q returns what the push with ticket q brought, no element is constructed or destroyed twice |
| TicketQueue.StepKeeps | external/rigtorp/MPMCQueue.h:163-251 | every atomic access keeps the invariant: tickets handed out once, each slot's turn says who may enter, finished and held tickets add up |
| TicketQueue.ExchangePushKeeps | external/rigtorp/MPMCQueue.h:177-193 | a successful exchange of the head means the turn read before it is still current |
| TicketQueue.ExchangePopKeeps | external/rigtorp/MPMCQueue.h:233-250 | a successful exchange of the tail means the turn read before it is still current |
| TicketQueue.TryPushRefusedOnlyWhenFull | external/rigtorp/MPMCQueue.h:174-194 | a refused try_emplace had an instant inside the call at which the head was the one it reports and the pop of ticket head minus capacity was not complete |
| TicketQueue.TryPopRefusedOnlyWhenEmpty | external/rigtorp/MPMCQueue.h:232-251 | a refused try_pop had an instant inside the call at which the push of the tail ticket was not complete |
| TicketOutcomes.CallsReportWhatTheyDid | external/rigtorp/MPMCQueue.h:163-251 | over every run, what a finished call reports is what it did at steps of its own: a push that reports ticket q moved the head from q to q + 1 and its last step completes that push, with its own argument in the slot; a pop that reports q and v moved the tail from q to q + 1, and its last step records q, not popped before, with v, the value pushed there; only a try operation is refused, at an instant of the call without room, or without an element |
| TicketOutcomes.NoTicketTwice | external/rigtorp/MPMCQueue.h:163-251 | two different finished calls never report the same push ticket, nor the same pop ticket |
| TicketQueue.StuckOnlyWhenFullOrEmpty | external/rigtorp/MPMCQueue.h:163-172 | if no call in flight can advance, all of them are pushes with tickets at least tail plus capacity, or all are pops with tickets at least head |
| TicketQueue.SomeCallAdvances | external/rigtorp/MPMCQueue.h:222-230 | with a push and a pop in flight some call can advance |
| TicketQueue.DestroyQueue | external/rigtorp/MPMCQueue.h:152-157 | the destructor leaves every element ever constructed destroyed exactly once, and no storage live |
| FreeList.EveryNodeLeadsOneLife | external/cameron314/concurrentqueue.h:1498-1577 | in every state of every run each node is in exactly one of the states linked once, being added by one thread, taken by one thread, deferred with its flag set and references out, or owned; the list is acyclic |
| FreeList.HandOutsAlternate | external/cameron314/concurrentqueue.h:1512-1552 | between two hand-outs of a node by try_get there is a step at which a thread that was between calls starts to add the node, which is owned before the step and not after it |
| FreeListOutcomes.TryGetReports | external/cameron314/concurrentqueue.h:1512-1552 | over every run, a try_get that returns null had a state inside the call at which the head was null and the list empty; one that returns n has a step of its own that took n off the front of the list, and n becomes the caller's with its last step |
| FreeListOutcomes.AddReports | external/cameron314/concurrentqueue.h:1498-1509 | over every run, an add of a node by its owner ends with the step that puts the node at the front of the list, or with the node left to whoever drops the last reference |
| FreeListOutcomes.TryGetAlone | external/cameron314/concurrentqueue.h:1512-1548 | with every other thread between calls, a try_get returns the first node of the list, leaves the rest and owns the node, and returns null exactly on an empty list |
| FreeListOutcomes.AddAlone | external/cameron314/concurrentqueue.h:1498-1577 | with every other thread between calls, an add puts the node at the front of the list |
| FreeList.NoNodeIsLost | external/cameron314/concurrentqueue.h:1498-1577 | between calls every node is owned or linked, with no stray reference |
| FreeList.UnlinkExact | external/cameron314/concurrentqueue.h:1526-1537 | when the unlinking exchange succeeds, the next pointer read before is still the node's, whatever happened to the head in between |
| FreeList.StepKeeps | external/cameron314/concurrentqueue.h:1498-1577 | every access of every thread keeps the ownership invariant |
| FreeList.PackedArithmetic | external/cameron314/concurrentqueue.h:1583-1584 | adding to the packed reference word is adding to the flag and the count |
| FreeList.BitClearWhenAdded | external/cameron314/concurrentqueue.h:1505-1570 | the flag is clear wherever the source adds it |
| DequeueCounters.CountersAgree | external/cameron314/concurrentqueue.h:1996-2088 | in every reachable state, for any mix of single and bulk dequeues, headIndex has not passed tailIndex and dequeueOptimisticCount is headIndex plus dequeueOvercommit plus the unsettled claims |
| DequeueCounters.DecisionFits | external/cameron314/concurrentqueue.h:2290-2309 | a claim is granted no more than is enqueued beyond all claims decided before |
| DequeueCounters.TakenIsEnqueued | external/cameron314/concurrentqueue.h:2597-2662 | every index a dequeue takes was already enqueued |
| DequeueCounters.ClaimsAreUnique | external/cameron314/concurrentqueue.h:2828-2847 | the indices of two claims are disjoint and in order |
| DequeueCounters.AloneGetsWhatThereIs | external/cameron314/concurrentqueue.h:1996-2088 | with no other dequeue in flight, a dequeue gets as much as it wants of what there is |
| DequeueOutcomes.DequeueReports | external/cameron314/concurrentqueue.h:2286-2309 | over every run, a dequeue sees what the tail has beyond the claims less the refunds it read; it gets nothing if that is nothing; otherwise it claims one, or as much of it as it may, and comes back with exactly the smaller of its claim and what the reloaded tail has beyond the claims before its own, from headIndex on |
| DequeueOutcomes.NothingOnlyIfClaimed | external/cameron314/concurrentqueue.h:2828-2925 | over every run, a dequeue that wanted something and got nothing had an instant at which all that was enqueued when it began was taken, claimed by calls in flight, or claimed and refunded during it |
| Circular.CircularLessExactly | external/cameron314/concurrentqueue.h:480-486 | for any two indices the comparison holds exactly if the distance is positive and below 2^63 modulo 2^64 |
| Circular.CircularLessIsOrder | external/cameron314/concurrentqueue.h:480-486 | on indices less than 2^63 apart it is integer order |
| Circular.CircularLessFailsBeyond | external/cameron314/concurrentqueue.h:480-486 | just outside that window it is wrong on either side |
| Circular.DequeueGuardWraps | external/cameron314/concurrentqueue.h:2290-2301 | the dequeue guards decide on wrapped counters what they would decide on integers |
| ImplicitIndex.LookupFinds | external/cameron314/concurrentqueue.h:2996-3012 | through any header still in use, the signed offset from the tail finds the entry that owns the block now |
| ImplicitIndex.GrowOk | external/cameron314/concurrentqueue.h:3014-3056 | doubling the index keeps every live entry and leaves room |
| ImplicitIndex.RewindOk | external/cameron314/concurrentqueue.h:2983-2994 | rewinding the tail undoes one insertion and keeps every entry |
| ImplicitConsumers.ConsumerKeeps | external/cameron314/concurrentqueue.h:2597-2665 | a consumer with a claim never meets a missing key, block or element, every step of it gets somewhere, and every step keeps the invariant, as long as dequeues ask for at least one element |
| ImplicitConsumers.KeyFinds | external/cameron314/concurrentqueue.h:2996-3012 | the key at the tail a consumer loaded is valid, and leads to the slot of its claim's block |
| ImplicitConsumers.ValueFinds | external/cameron314/concurrentqueue.h:2605-2612 | the entry there names the storage the claimed element was written in |
| ImplicitRuns.StepKeeps | external/cameron314/concurrentqueue.h:2526-2925 | every access of the producer and of every consumer is in range and keeps the invariant, through index growth, failed allocations and tail rewinds, as long as dequeues ask for at least one element |
| ImplicitRuns.NothingLost | external/cameron314/concurrentqueue.h:2526-2665 | what a dequeue returned is a stretch of the enqueued elements in order; every element not moved out is still in its block; in runs in which every dequeue asks for at least one element |
| ImplicitRuns.MovedOnce | external/cameron314/concurrentqueue.h:2597-2665 | whoever moves the element of index x gets the x-th element enqueued, and no later access of the run moves it again; in runs in which every dequeue asks for at least one element |
| ImplicitRuns.FreedOnceWhenEmpty | external/cameron314/concurrentqueue.h:1634-1673 | when a block is freed all its elements were moved out, and no later access of the run frees it again; in runs in which every dequeue asks for at least one element |
| ImplicitRuns.NoBlockStranded | external/cameron314/concurrentqueue.h:2828-2925 | a block not freed holds an element not yet counted, or the consumer retiring it has it; in runs in which every dequeue asks for at least one element |
| ImplicitRuns.AllOrNothing | external/cameron314/concurrentqueue.h:2671-2820 | enqueue and enqueue_bulk append all their items in order or, after a failure at any point, nothing, however they interleave with consumers; in runs in which every dequeue asks for at least one element |
| ImplicitOutcomes.EnqueueReports | external/cameron314/concurrentqueue.h:2671-2820 | over every run, enqueue or enqueue_bulk returns false only if a step of that call was refused memory, a block or a larger index when there was no room, and has then enqueued nothing; a call never refused memory returns true with all its items enqueued in order; in runs in which every dequeue asks for at least one element |
| ImplicitOutcomes.EnqueueReturns | external/cameron314/concurrentqueue.h:2526-2820 | however it interleaves, a call to enqueue that has not returned has taken at most nine steps for each new block, one for each item, and four; in runs in which every dequeue asks for at least one element |
| ImplicitOutcomes.DequeueReturns | external/cameron314/concurrentqueue.h:2597-2925 | however it interleaves, a dequeue with a claim takes at most five steps for each element of it, and five; in runs in which every dequeue asks for at least one element |
| ImplicitRuns.TidyBetweenCalls | external/cameron314/concurrentqueue.h:2700-2790 | between calls the index tail, the entries past it and the ownership of blocks show no trace of failed calls; in runs in which every dequeue asks for at least one element |
| ImplicitDequeues.GetsWhatItTook | external/cameron314/concurrentqueue.h:2597-2665 | in every run of the counters and the sub-queue as one machine, a finished call has got exactly the enqueued elements whose indices it took at the counters, in order, and an unfinished one has a claim on exactly those; in runs in which every dequeue asks for at least one element |
| ImplicitDequeues.ClaimIsGranted | external/cameron314/concurrentqueue.h:2597-2604 | what a thread adds to headIndex was enqueued, so its claim in the sub-queue, be it on none, is never refused or cut |
| ImplicitDequeues.StepKeeps | external/cameron314/concurrentqueue.h:2597-2665 | every access keeps the invariants of the sub-queue and of the counters, and that each thread's claim is what it took, as long as dequeues ask for at least one element |
| ImplicitDequeues.QueueRun | external/cameron314/concurrentqueue.h:2828-2925 | what a run in which every dequeue asks for at least one element does to the sub-queue is such a run of ImplicitQueue |
| ImplicitDequeues.CountersRun | external/cameron314/concurrentqueue.h:2828-2847 | what it does to the counters is a run of DequeueCounters |
| ImplicitEmptyClaims.EmptyClaimsExactly | external/cameron314/concurrentqueue.h:2826-2917 | for every block size and every least number of elements asked for: in no run is a missing block followed, a block freed twice, a block with an element freed, or an element overwritten, if and only if that number is not zero |
| ImplicitEmptyClaims.AboutToFreeAgain | external/cameron314/concurrentqueue.h:2905-2914 | a run of the counters and the sub-queue, all of whose accesses are in range, in which a bulk dequeue of no elements is about to free a drained block again |
| ImplicitEmptyClaims.OnTheFreeList | external/cameron314/concurrentqueue.h:1654-1672 | the same with an element enqueued into the block before it is freed again |
| ImplicitEmptyClaims.Overwrites | external/cameron314/concurrentqueue.h:2905-2914 | and with the block taken once more, so that the element is lost |
| ImplicitEmptyClaims.ComesTooLate | external/cameron314/concurrentqueue.h:2859-2860 | a bulk dequeue of no elements that loads the block after it was cleared from the index |
| ExplicitRuns.StepKeeps | external/cameron314/concurrentqueue.h:1887-2088 | every access of the explicit producer and its consumers is in range and keeps the invariant |
| ExplicitRuns.LookupFindsTheBlock | external/cameron314/concurrentqueue.h:2042-2056 | the signed-offset lookup from the published front entry finds the entry whose base contains the claimed index, and the element in its block |
| ExplicitRuns.OverwritesOnlyDrained | external/cameron314/concurrentqueue.h:1887-1991 | if the index slot about to be written has an entry, every element of that entry's block was moved out and flagged |
| ExplicitRuns.ReusedStorageIsBare | external/cameron314/concurrentqueue.h:1893-1903 | a block that is reused holds no element |
| ExplicitRuns.NothingLost | external/cameron314/concurrentqueue.h:1887-2088 | what a dequeue returned is a stretch of the enqueued elements in order; every element not moved out is still in its block |
| ExplicitRuns.MovedOnce | external/cameron314/concurrentqueue.h:1996-2088 | whoever moves the element of index x gets the x-th element enqueued, and no later access of the run moves it again |
| ExplicitOutcomes.EnqueueReports | external/cameron314/concurrentqueue.h:1887-1991 | over every run, enqueue returns true with its item enqueued after all the others, or false with nothing enqueued; false only if a step of the call was refused room, by the limit, a block's memory or a full index's, after it had found no drained block ahead in the ring |
| ExplicitOutcomes.EnqueueReturns | external/cameron314/concurrentqueue.h:1887-1991 | however it interleaves, a call to enqueue takes at most twice the block size plus seven steps |
| ExplicitOutcomes.DequeueReturns | external/cameron314/concurrentqueue.h:2042-2088 | however it interleaves, a dequeue with a claim takes at most three steps for each element of it, and five |
| ExplicitDequeues.GetsWhatItTook | external/cameron314/concurrentqueue.h:1996-2088 | the same for an explicit producer: a finished call has got exactly the enqueued elements whose indices it took at the counters, in order |
| ExplicitDequeues.ClaimIsGranted | external/cameron314/concurrentqueue.h:1996-2041 | what a thread adds to headIndex was enqueued, so its claim in the ring is never refused or cut |
| ExplicitDequeues.QueueRun | external/cameron314/concurrentqueue.h:2042-2088 | what such a run does to the ring is a run of ExplicitRing |
| ExplicitDequeues.CountersRun | external/cameron314/concurrentqueue.h:1996-2041 | what it does to the counters is a run of DequeueCounters |
| PreallocBound.NothingIsAllocated | external/cameron314/concurrentqueue.h:858-859 | over any operations of the declared producers in which each enqueue starts with fewer than minCapacity elements, no block is ever allocated |
| PreallocBound.AllocatesExactly | external/cameron314/concurrentqueue.h:3104-3162 | after any history, an enqueue that needs a block allocates it exactly if the producers hold every block set aside (and, with RECYCLE_ALLOCATED_BLOCKS on, every one allocated since) |
| PreallocBound.PromiseExactly | external/cameron314/concurrentqueue.h:836-859 | after every history no operation on a queue of fewer than minCapacity elements allocates, if and only if no explicit producer is declared or no more than one producer in all |
| PreallocBound.AlwaysABlock | external/cameron314/concurrentqueue.h:858-859 | with such numbers there is always a block in the pool or on the free list when one is needed |
| PreallocBound.AnEarlierPeakMakesItAllocate | external/cameron314/concurrentqueue.h:1892-1952 | for every block size, capacity and declared numbers with an explicit producer and another one: a history after which the first enqueue of the other into the empty queue allocates |
| PreallocBound.RunConserves | external/cameron314/concurrentqueue.h:3115-3127 | the blocks in the pool, on the free list and held by producers, allocated ones left out unless they are recycled, always add up to those set aside (and, if they are recycled, those allocated) |
| ProducerOwners.ProducersAreExclusive | external/cameron314/concurrentqueue.h:3275-3322 | in every state of every run no two holders have the same producer, each has one of the kind asked for, and every producer is in the pool, owned, or listed and inactive |
| ProducerOutcomes.AskReports | external/cameron314/concurrentqueue.h:3275-3322 | over every run, asking for a producer comes back with an active one on the list of the kind asked for, or with none because memory for a new one was refused at its last step |
| ProducerOutcomes.MakesOnlyIfNoneToRecycle | external/cameron314/concurrentqueue.h:3275-3305 | over every run, a new producer is made only if each producer that was on the list at an instant of the search was active or of the other kind at some instant after, and, for an implicit one, the pool was empty at some instant |
| ProducerOwners.StepKeeps | external/cameron314/concurrentqueue.h:3275-3305 | walking the list, the recycling exchange, drawing a ticket, creating, linking and giving back all keep that |
| ProducerThreads.ThreadsHaveTheirOwn | external/cameron314/concurrentqueue.h:3275-3629 | in every run of the table and the producers as one machine: what a lookup returned is the producer its thread has taken, an active implicit producer on the list that no other thread and no token has, and the thread's entries hold it |
| ProducerThreads.LegalHash | external/cameron314/concurrentqueue.h:3560-3564 | the producer that recycle_or_create_producer brings back to the table is nobody else's |
| ProducerThreads.TableRun | external/cameron314/concurrentqueue.h:3453-3629 | what such a run does to the tables is a run of ProducerHash, so its results hold with nothing taken for granted |
| ProducerThreads.StepKeeps | external/cameron314/concurrentqueue.h:3275-3629 | every access keeps both invariants, and that a thread owns what it has taken |
| ProducerHash.LookupReturnsOwn | external/cameron314/concurrentqueue.h:3453-3598 | whatever a call returned is the producer its thread owns; a thread that owns one is not inserted again; entries hold their thread's producer, at most one a table, and none is left after exit |
| ProducerHashOutcomes.LookupReports | external/cameron314/concurrentqueue.h:3453-3598 | over every run, a lookup fails only if memory was refused at a step of its own, for the next table or for the producer, and its thread had none; one that returns p belongs to a thread that had p, or that had none and got p at a step of its own; so a thread with a producer is always given that one |
| ProducerHashOutcomes.ExitReports | external/cameron314/concurrentqueue.h:3600-3629 | over every run, the exit of a thread with a producer gives it back and leaves no entry of the thread in any table |
| ProducerHash.StepKeeps | external/cameron314/concurrentqueue.h:3453-3629 | every access of every thread, lookups, lazy re-adding, insertion, growing and exit, is in range and keeps each thread's entries where its probes lead |
| ProducerHashRoom.TableKeepsRoom | external/cameron314/concurrentqueue.h:3516-3590 | a table has fewer than three quarters of its slots in use plus one for each cleared slot of an older table taken over, so it keeps an empty slot until these exceed a quarter of it |
| ProducerHashRoom.ProbesEnd | external/cameron314/concurrentqueue.h:3477-3514 | while a table has an empty slot, no probe loop of a lookup, an insertion or an exit goes all the way around it |
| ProducerHashRoom.FullTableTraps | external/cameron314/concurrentqueue.h:3477-3509 | a lookup in a table with neither an empty slot nor the thread's key never ends |
| ProducerHashParking.MoreSlotsThanThreads | external/cameron314/concurrentqueue.h:3483-3588 | in every run, with any exits, a table with more slots than there are threads keeps an empty one |
| ProducerHashParking.UsedAtMost | external/cameron314/concurrentqueue.h:3573-3588 | a table with an empty slot has no more slots in use, cleared ones included, than there are threads |
| ProducerHashParking.FewThreadsKeepRoom | external/cameron314/concurrentqueue.h:3453-3629 | with fewer threads than twice the slots of the first table every table keeps an empty slot, in every run |
| ProducerHashRoom.WithoutExitsKeepRoom | external/cameron314/concurrentqueue.h:3516-3590 | as long as nobody exits every table keeps an empty slot, for any number of threads |
| ProducerHashFull.RoomExactly | external/cameron314/concurrentqueue.h:3516-3590 | for a first table of c >= 8 slots and n threads, every table keeps an empty slot in every run if and only if n < 2 c |
| ProducerHashFull.ATableFills | external/cameron314/concurrentqueue.h:3573-3588 | for every c >= 8 and every n >= 2 c, a run without failed allocations in which a thread is let into a table without an empty slot |
| ProducerHashPrealloc.HashCapacity | external/cameron314/concurrentqueue.h:848-855 | the constructor's loop, and the floor that populate_initial_implicit_producer_hash sets at line 3399, give the larger of the trait and twice the first power of two not below the declared number |
| ProducerHashPrealloc.DeclaredThreadsKeepRoom | external/cameron314/concurrentqueue.h:847-855 | with no more threads than declared every table keeps an empty slot, in every run, whatever the trait |
| ProducerHashPrealloc.NobodyExitsSecondTableExactly | external/cameron314/concurrentqueue.h:847-855 | some run of the declared number of threads in which nobody exits allocates a second table if and only if that number is a power of two and at least half the trait |
| ProducerHashPrealloc.SecondTableExactly | external/cameron314/concurrentqueue.h:847-855 | some run of the declared number of threads, with exits, allocates a second table if and only if that number is not zero and at least a quarter of the trait |
| ProducerHashPrealloc.CalmSecondExactly | external/cameron314/concurrentqueue.h:3517-3548 | for any first table of c slots and any threads: some run in which nobody exits makes a second table if and only if there are threads, and at least half as many as slots |
| ProducerHashPrealloc.SecondExactly | external/cameron314/concurrentqueue.h:3517-3548 | with exits, if and only if there are threads, and twice their number is at least half the slots |
| SpscRing.RefinesBoundedFifo | external/rigtorp/SPSCQueue.h:104-139 | every step of every run, with stale index caches, is a step of a FIFO bounded by capacity(): no live slot is overwritten, no empty one read, front is the oldest element, only a full queue refuses and only an empty one is null |
| SpscOutcomes.PushReports | external/rigtorp/SPSCQueue.h:104-139 | over every run, emplace, and try_emplace that returns true, have enqueued their element and nothing else; try_emplace returns false only when it has just found the queue full, and enqueues nothing; each takes at most five steps besides those that find the queue full |
| SpscOutcomes.PopReports | external/rigtorp/SPSCQueue.h:167-190 | over every run, front returns null only when it has just found the queue empty, and otherwise where the oldest element is; pop takes exactly one element off; each takes at most three steps |
| SpscRing.ProducerKeeps | external/rigtorp/SPSCQueue.h:120-139 | every access of the producer keeps the invariant that caches lag behind and bound the ring |
| SpscRing.ConsumerKeeps | external/rigtorp/SPSCQueue.h:167-190 | every access of the consumer keeps it |
| SpscRing.SizeExactly | external/rigtorp/SPSCQueue.h:192-199 | size() from indices of w enqueued and r popped is w - r if and only if r <= w < r + capacity_ |
| SpscRing.SizeOverRuns | external/rigtorp/SPSCQueue.h:192-199 | over two loads in any run, in either order, size() is the difference exactly if no more was popped than enqueued and less than a lap more enqueued; the second holds if the write index is loaded first, the first if the read index is, both for either owner of the queue |
| SpscRing.DestroyQueue | external/rigtorp/SPSCQueue.h:91-97 | the destructor destroys what the queue holds, once each and in order, and leaves the slots bare |
| BackPressures.VisibleIsEager | external/uWebSockets/AsyncSocketData.h:33-60 | over any operations the visible bytes are those of a buffer that erases at once |
| BackPressures.ErasesAreCheap | external/uWebSockets/AsyncSocketData.h:36-43 | over any operations the bytes shifted are at most 31 times the visible bytes erased |
| BackPressures.PendingIsSmallExactly | external/uWebSockets/AsyncSocketData.h:33-60 | over any operations pending removal stays at most 1/32 of the buffer if and only if every resize leaves 31 visible bytes for each pending one |
| BackPressures.GrowingIsRoomy | external/uWebSockets/AsyncSocketData.h:55-57 | resizes that grow leave that |
| BackPressures.ShrinkingBreaksTheBound | external/uWebSockets/AsyncSocketData.h:55-57 | a shrinking resize that breaks it |
| BackPressures.BackPressure.Erase | external/uWebSockets/AsyncSocketData.h:36-43 | erasing drops the first bytes visible, whether or not it moves any |
| BackPressures.BackPressure.Resize | external/uWebSockets/AsyncSocketData.h:55-57 | resizing cuts or pads the visible bytes |
| BackPressures.Drive | external/uWebSockets/AsyncSocketData.h:25-68 | any sequence of calls on a new buffer object shows the bytes of the eager buffer, with pending removal within its bound |
| AsyncSockets.Drive | external/uWebSockets/AsyncSocket.h:133-350 | over any calls on any number of open sockets sharing the cork buffer, whatever the kernel takes: kernel bytes, then buffered, then corked bytes of each socket are in order the prefixes its calls reported; never both corked and buffered; corking over another's corked bytes ends the program |
| AsyncSockets.Socket.Write | external/uWebSockets/AsyncSocket.h:236-323 | the reported prefix, and nothing else, goes to the end of the socket's stream; a write that is not optional is refused exactly if corked bytes leave no room and the kernel does not take them all |
| AsyncSockets.Socket.Uncork | external/uWebSockets/AsyncSocket.h:327-350 | flushes or buffers the corked bytes in front of what it takes of its argument, and frees the cork buffer |
| AsyncSockets.Socket.GetSendBuffer | external/uWebSockets/AsyncSocket.h:155-190 | the content put into the returned space goes to the end of the stream, after corked bytes that move to the buffer; NEEDS_NOTHING exactly if the socket was corked and the content fits behind its corked bytes with nothing buffered, NEEDS_UNCORK exactly if the cork was free and it fits, and then it is this socket's, NEEDS_DRAIN exactly if there was back pressure, another socket is corked, or it does not fit, and then the cork stays whose it was; another socket's corked bytes are untouched |
| AsyncSockets.Socket.SendFrame | external/uWebSockets/WebSocket.h:160-178 | acting on the attribute leaves whoever was corked corked; the frame goes to the end of the stream; success exactly if nothing is left buffered, and then, unless the socket is corked, the kernel has all of its stream; to a corked socket with room nothing is sent |
| AsyncSockets.Socket.Cork | external/uWebSockets/AsyncSocket.h:133-142 | the socket holds the cork buffer; required that no other has bytes in it, where the source ends the program |
| AsyncSockets.Perform | external/uWebSockets/AsyncSocket.h:133-350 | one call on one socket changes no other socket's stream |
| ChunkedDecoder.RoundTripAnyCut | external/uWebSockets/ChunkedEncoding.h:104-191 | for any non-empty chunks encoded without extensions or trailers, with anything after them, and any cut into segments: the decoder emits exactly their data in order and one empty chunk, ends in state 0, and leaves what follows the last CRLF |
| ChunkedDecoder.RoundTrip | external/uWebSockets/ChunkedEncoding.h:43-191 | decoding the uncut wire undoes encoding |
| ChunkedDecoder.CutAnywhere | external/uWebSockets/ChunkedEncoding.h:104-191 | any cut of any tame wire decodes like the uncut one, also a malformed or unfinished wire; tame means no printable byte after the digits of a size line, unless the number is zero and the byte the digit 0 |
| ChunkedDecoder.CutsDoNotMatterExactly | external/uWebSockets/ChunkedEncoding.h:43-191 | every cut of every prefix of a wire decodes like the uncut prefix if and only if the wire is tame |
| ChunkedDecoder.ExtensionsMakeCutsMatter | external/uWebSockets/ChunkedEncoding.h:69-78 | a size line with more on it decodes differently when it is cut there |
| ChunkedDecoder.ConsumeHexNumber | external/uWebSockets/ChunkedEncoding.h:43-79 | the loops over digits and to the line feed do on the packed word what the automaton does byte by byte |
| ChunkedDecoder.TakeChunk | external/uWebSockets/ChunkedEncoding.h:150-187 | a whole or partial chunk is emitted without its CRLF, and the word remembers how much is left |
| ChunkedDecoder.GetNextChunk | external/uWebSockets/ChunkedEncoding.h:104-191 | emits the next piece the automaton emits; nothing only if the data is used up, the body over, or a size malformed |
| ChunkedDecoder.DecodeSegment | external/uWebSockets/ChunkedEncoding.h:194-235 | iterating over one segment emits the automaton's payload and empty chunks and leaves the word for its final mode |
| ChunkedDecoder.DecodeEncoded | external/uWebSockets/ChunkedEncoding.h:104-235 | the round trip for the decoder's own loops, segment by segment |
| RouteTree.VisitsExactly | external/uWebSockets/HttpRouter.h:168-207 | a request visits exactly the handlers whose path matches its segments |
| RouteTree.VisitsInOrder | external/uWebSockets/HttpRouter.h:81-99 | it visits them high priority first, then static over parameter over wildcard at each segment, then by id |
| RouteTree.InsertHas | external/uWebSockets/HttpRouter.h:283-298 | registering adds exactly one entry to the tree |
| RouteTree.InsertWf | external/uWebSockets/HttpRouter.h:81-99 | and keeps siblings distinct and in order and ids sorted |
| RouteTree.CullVisits | external/uWebSockets/HttpRouter.h:319-354 | culling removes a handler's visits and renumbers the others, for every request |
| RouteTree.CullWf | external/uWebSockets/HttpRouter.h:319-354 | and keeps the tree in order |
| RouteTree.LoweredIsGood | external/uWebSockets/HttpRouter.h:332-341 | a renumbered id names the same handler after the erasure, with the same priority |
| RouteTable.RegistrationOrderDoesNotMatter | external/uWebSockets/HttpRouter.h:257-317 | any two orders of registering the same routes, distinct in method, stripped pattern and priority, try the same handlers with the same parameters in the same order for every request |
| RouteTable.SameTableSameOrder | external/uWebSockets/HttpRouter.h:168-207 | two valid routers of the same table of routes try the same handlers in the same order |
| RouteTable.RouteIsMethodThenAny | external/uWebSockets/HttpRouter.h:257-276 | while ANY is last, a request tries its method's handlers and then those of ANY |
| RouteTable.AddRepresents | external/uWebSockets/HttpRouter.h:279-317 | registering new keys adds exactly them to the table the tree stands for |
| RouteTable.AddValid | external/uWebSockets/HttpRouter.h:279-317 | registering keeps ids in range and sorted, also when it replaces a route |
| RouteTable.FindHandlerExactly | external/uWebSockets/HttpRouter.h:210-240 | the search finds an id of the pattern and priority if and only if there is one |
| RouteTable.RemoveExactly | external/uWebSockets/HttpRouter.h:359-374 | for every method and URL, removal takes away exactly the found handler and leaves the others, the same functions in the same order |
| RouteTable.RemoveValid | external/uWebSockets/HttpRouter.h:359-374 | removal keeps ids in range and sorted |
| RouteTable.AnyStaysLastExactly | external/uWebSockets/HttpRouter.h:319-374 | removal leaves ANY last if and only if ANY has a route with another handler |
| RouteTable.RouteIsNotMissing | external/uWebSockets/HttpRouter.h:210-240 | no id of a route is the number that stands for not found |
| RouteRuns.RouterIsItsRegistrations | external/uWebSockets/HttpRouter.h:279-374 | after any sequence of registrations and removals the tree has a route for each method of each registration in force and no other, under its own handler, with ids in range and sorted |
| RouteRuns.RequestVisits | external/uWebSockets/HttpRouter.h:168-276 | after any such sequence a request visits exactly the matching registrations in force, in the order of the tree |
| RouteRuns.UrgentFirst | external/uWebSockets/HttpRouter.h:39-39 | after any such sequence, of two registrations in force of one method for the same pattern a matching request tries high before medium and low priority, and medium before low |
| RouteRuns.AnyIsLastExactly | external/uWebSockets/HttpRouter.h:275-374 | after any such sequence ANY is last if and only if a registration for it is in force or nothing was ever removed or replaced |
| RouteRuns.WithoutAnyRoutesAnyIsLost | external/uWebSockets/HttpRouter.h:275-275 | registering a GET and a POST route and removing the GET route leaves no ANY node, and a GET request is tried against the POST route |
| RouteRuns.NoMethodsExactly | external/uWebSockets/HttpRouter.h:257-276 | after any such sequence no method is left for a request to fall back on if and only if no registration is in force and something was removed or replaced |
| RouteRuns.OneAndNone | external/uWebSockets/HttpRouter.h:275-275 | registering a first route and removing it again leaves none |
| HttpRouters.HttpRouter.GetUrlSegment | external/uWebSockets/HttpRouter.h:134-165 | the lazy cache returns the i-th segment of the URL, and stop exactly past the last or after a hundred |
| HttpRouters.HttpRouter.ExecuteHandlers | external/uWebSockets/HttpRouter.h:168-207 | the recursion tries the visits of the tree in order until one accepts, and leaves the parameter stack as it was if none does |
| HttpRouters.HttpRouter.Route | external/uWebSockets/HttpRouter.h:257-276 | a request tries the handlers of its method and then of the last method, with the captured parameters, until one accepts |
| HttpRouters.HttpRouter.FindHandler | external/uWebSockets/HttpRouter.h:210-240 | the search loop finds what the tree search of the specification finds |
| HttpRouters.HttpRouter.Remove | external/uWebSockets/HttpRouter.h:359-374 | removal on the object is removal on the value, and keeps it valid |
| HttpRouters.HttpRouter.Add | external/uWebSockets/HttpRouter.h:279-317 | registering on the object is registering on the value, and keeps it valid |

## Left out

- Everything under `apps/`, `docker/` and the remaining vendored headers: start-up plumbing, I/O and platform code.
- C++ memory orders: every machine interleaves sequentially consistently, so a reordering the weaker orders allow is not covered.
- Exceptions thrown by element constructors, moves and destructors, and the rollback code for them in `concurrentqueue.h`.
- Moving, swapping and destroying a whole `concurrentqueue.h` queue, and how a consumer chooses among sub-queues.
- `ExplicitProducer::enqueue_bulk`: the explicit ring is modelled for single-item enqueues; after a failed allocation the bulk
  form keeps injected blocks, which the ring's invariant does not describe.
- `is_empty` and the resets of an explicit block's flags are modelled flag by flag; the variant with a counter instead of flags is
  modelled for implicit producers only.
- The explicit producer's first index is taken as allocated; a constructor that fails to allocate it is not modelled.
- PreallocBound.NothingIsAllocated: is about operations that do not overlap, each enqueueing or dequeueing one item.
- PreallocBound.AllocatesExactly: is about operations that do not overlap, each enqueueing or dequeueing one item.
- PreallocBound.RunConserves: is about operations that do not overlap, each enqueueing or dequeueing one item.
- PreallocBound.PromiseExactly: is about operations that do not overlap, each enqueueing or dequeueing one item.
- ProducerHash.LookupReturnsOwn: takes for granted that a producer that is recycled or created is nobody else's, which
  ProducerThreads.LegalHash shows in the machine that runs the table and the producers together.
- A bulk dequeue of no elements from an explicit producer: it looks up an index entry and sets none of the block's empty flags,
  which the model leaves out.
- The refusal of an enqueue on a sub-queue of `MAX_SUBQUEUE_SIZE` elements, which as shipped is the largest number there is.
- ImplicitRuns.NothingLost: is about runs in which every dequeue asks for at least one element, as are the other results of
  ImplicitConsumers, ImplicitRuns, ImplicitOutcomes and ImplicitDequeues; ImplicitEmptyClaims.EmptyClaimsExactly has the exact
  condition.
- ImplicitOutcomes.EnqueueReturns: counts requisitioning a block as one step; how long try_get of the free list takes is not bounded.
- ExplicitOutcomes.EnqueueReturns: counts requisitioning a block as one step, for the same reason.
- ProducerHashRoom.TableKeepsRoom: gives a bound in one direction; a run may take over more cleared slots than a quarter of a
  table without filling it.  ProducerHashFull.RoomExactly has the exact condition.
- ProducerHashFull.RoomExactly: is about first tables of eight slots or more; for smaller ones, which the trait would have to be
  lowered for, ProducerHashParking.FewThreadsKeepRoom gives a condition that suffices.
- Producers linked to the list by `add_producer` appear in one step, that of the successful exchange.
- Sockets that are closed, `corkUnchecked`, `uncorkWithoutSending`, `throttle_helper`, `reserve`, and the 32-bit casts of lengths.
- The chunked decoder's trailer mode; segments of 2^32 bytes or more, whose length the source truncates.
- The route tree is a value that each operation replaces, not nodes updated through pointers; the router object, its URL cache, its
  parameter stack and its handler list are updated in place.
- Handlers are functions of themselves and their parameters that accept or not; one that changes the router while it runs is not
  modelled.  Handler lists of 2^28 or more are excluded, where the last id is the one for not found, or ids run into priorities.
- HttpRouters.HttpRouter.Route: requires that some method node is left; the source reads past the end of an empty list there.
  RouteRuns.NoMethodsExactly says which sequences of calls leave none.
- RouteTable.AddValid: requires distinct methods in one call, since a repeated one puts the same id twice into its node, and
  wildcards spelled with the star alone, since other spellings of one make siblings whose order depends on registration.
- RouteRuns.RouterIsItsRegistrations: requires the same of every registration in the sequence.
- HttpRouters.HttpRouter.Add: requires the same of its arguments.
