# lfqueue: a verified model of its queues

`lfqueue` implements the lock-free queues SCQ and LSCQ of R. Nikolaev, "A Scalable, Portable, and
Memory-Efficient Lock-Free FIFO Queue" (arXiv:1908.04511). An *index ring* (`ScqRing`) passes small
indices from enqueuers to dequeuers. A *bounded queue* consists of two such rings and an array of cells:
one ring holds the indices of the free cells, the other those of the cells that hold an item. An *unbounded
queue* is a linked list of bounded queues, which are sealed ("finalized") when they fill up.

This project models the three and proves what they are for. It has four parts.

1. **The ring under concurrency** (`Tickets`, `Ring`, `RingInvariant`, `RingTheorems`, `RingEffects`, `RingSolo`,
   `RingProgress`, `RingAdmission`, `RingHidden`, `RingOrder`, `RingCredit`, `Counting`). A step machine for any
   number of threads and any ring size. Every atomic access of `enqueue`, `dequeue` and `catchup` is one step,
   taken by any thread at any time; a weak compare-exchange may fail for no reason. Slots are records (cycle,
   safe bit, index or ⊥); head and tail are unbounded ticket counters. A history, which no step reads, notes who
   drew which ticket and what was inserted and taken with it. `RingInvariant.Inv` is an inductive invariant over
   slots, history and program counters, and the theorems hold in all states that any run reaches from an empty or
   a full ring. `RingProgress` and `RingAdmission` prove that no thread can be kept from returning by others that
   have stopped: from anywhere in an operation, with all other threads stopped anywhere in theirs, a thread that
   runs alone returns, and they say what it answers; also that finalization takes effect, and that a refused
   enqueue leaves nothing behind. "None means empty" is false of the threshold exits, and `RingSolo` says exactly
   when: a dequeue that runs alone takes the first entry whose ticket is still to be drawn if the threshold is at
   least the number of tickets that head is before it, and answers None otherwise. `RingHidden` gives, for every
   capacity c, a run of 3c + 1 threads after which the condition fails for every dequeue although an enqueue has
   returned and nothing is in flight. `RingOrder` and `RingCredit` say what a client must do so that it never
   fails: if no index is in the ring twice, tail is ahead of head by at most the number of slots; and if,
   whenever an enqueuer sees to the threshold, no more dequeuers are in flight than half the slots, the threshold
   always admits every entry that has been settled.
2. **The ring in words** (`Bitwise`, `Words`, `WordRing`, `FullInit`). The same machine on 64-bit words, with
   the bit operations of the code. Each bit operation is proved to decode to the operation on records, and
   every run on words is proved to be, step by step, the run on records.
3. **The bounded queue under concurrency** (`BoundedMachine`, `BoundedInvariant`, `BoundedTheorems`,
   `BoundedFifo`, `BoundedSolo`, `BoundedProgress`, `BoundedHidden`, `BoundedDrop`, `BoundedOrder`,
   `BoundedAnswers`, `BoundedFull`, `BoundedPut`, `BoundedSeal`, `BoundedCalls`). A step machine over two rings,
   cells and the counter `used`; its steps inside a ring operation are steps of the machine of part 1. The
   condition for the answer None, and the run after which it fails, are carried over to items. `BoundedDrop` has
   the drop of a queue in whatever state concurrent use left it, and exactly when it drops everything; in the
   state after that run it leaks the item. `BoundedOrder` proves that the free ring always meets the condition,
   because `used` admits at most as many takers as the capacity, and the alloc ring does with at most c + 1
   threads (the paper assumes c). The other modules say what the answers mean: `BoundedCalls` for the history
   (what a call that answers so has put in or read), `BoundedAnswers` and `BoundedFull` for the moment at which
   None or Full was right, `BoundedSeal` for Closed and for the moment of finalization, `BoundedPut` for an
   enqueue that runs alone, and `BoundedProgress` for an operation that runs alone from anywhere.
4. **The queues as one thread sees them** (`ScqRing`, `BoundedQueue`, `UnboundedQueue`, `Grind`). Classes that
   update arrays, counters and links in place, each method proved against an operation on a sequence, with
   termination of every loop.

Assumptions. Atomic accesses are sequentially consistent. In parts 1 and 3 tickets are unbounded; in part 2 the
theorems hold while tickets stay below 2^62, and orders go up to 60. Sizes are powers of two, as the
documentation of the library requires. In part 4 a compare-exchange of the only thread succeeds, and slots are
records; part 2 is what connects records and words.

Where code and comments differ, the model follows the code: a segment's capacity is 2^order, not 2^(order + 1)
(src/lfstd.rs:137-138); and the threshold that a dequeue of the unbounded queue stores is 3·2^(order + 1) − 1
(src/lfstd.rs:301-305), not the 3·2^order − 1 of the ring (src/scq.rs:91-93). A segment of one place that an
enqueue starts with its item is full without ever being finalized, because that item is enqueued without
finalizing (src/lfstd.rs:219-222).

## Model

| member | source | states |
|---|---|---|
| RingInvariant.KeepAction | src/scq.rs:238-406 | every atomic step of every operation, call, return and finalization keeps the inductive invariant, moves slots only forward, and never takes back a ticket, an insertion, a removal or the finalized flag; that finalization sets the flag is RingAdmission.FinalizeRefuses |
| RingInvariant.NotLeftBehind | src/scq.rs:265-289 | when an enqueuer's compare-exchange succeeds, no dequeuer of this ticket or of a later one of the slot has left the slot; head test, unsafe bit and cycle order together ensure it |
| RingInvariant.KeepInsert | src/scq.rs:282-289 | a successful insertion keeps the invariant |
| RingInvariant.KeepDeqTake | src/scq.rs:354-358 | the fetch_or of a dequeuer keeps the invariant: it consumes the entry of its ticket |
| RingInvariant.KeepChange | src/scq.rs:360-382 | marking a slot unsafe, or advancing an empty one, keeps the invariant |
| RingTheorems.NoOrphan | src/scq.rs:265-289 | in every reachable state the ticket of every entry is still to be drawn, or exactly one thread holds it and is in its slot loop |
| RingTheorems.NothingLost | src/scq.rs:282-289 | an index that was inserted and not taken is in its slot |
| RingTheorems.UniqueTailTicket | src/scq.rs:256-298 | no two enqueuers hold the same ticket, and nothing was inserted with a ticket still held |
| RingTheorems.GivenUpForever | src/scq.rs:360-382 | once a dequeuer has given up on a ticket, no continuation of the run inserts anything with it |
| RingTheorems.TicketMatching | src/scq.rs:350-358 | a dequeue returns exactly the index that was inserted with its own ticket, a valid index, never ⊥ |
| RingTheorems.MatchedSlotWaits | src/scq.rs:350-358 | between the matching load and the fetch_or the slot can at most have lost its safe bit, so what is consumed is what was read |
| RingTheorems.TakenOnce | src/scq.rs:354-358 | what was taken with a ticket is fixed for the rest of the run: no ticket is consumed twice |
| RingTheorems.SlotForwardRun | src/scq.rs:282-379 | over any run a slot only moves forward in the order of cycle, then emptiness, then unsafety |
| RingTheorems.NoAba | src/scq.rs:282-379 | a slot that is the same at two moments was the same at every moment between, so a successful compare-exchange proves it untouched since the load |
| RingTheorems.SlotsChange | src/scq.rs:282-379 | in every reachable state a step leaves all slots as they are, or changes one of them in one of four ways: an entry over an empty slot of an earlier cycle, safe; the entry of the holder's ticket emptied; a safe entry of an earlier cycle marked unsafe; an empty slot of an earlier cycle advanced with its safe bit |
| RingTheorems.SpuriousFailure | src/scq.rs:282-289 | a weak compare-exchange may fail although nothing has changed; its thread then loads again what it compared |
| RingTheorems.EmptyMeansEmpty | src/scq.rs:393-398 | whoever returns None through the tail test had, at an earlier moment of the same run, loaded a tail while every entry in the ring belonged to another thread that held its ticket |
| RingSolo.NoneIff | src/scq.rs:327-406 | with no operation in flight and an entry in the ring, a dequeue running alone answers None if and only if the threshold is less than the number of tickets that head is before the first entry; otherwise it takes that entry |
| RingHidden.NoneThoughNotEmpty | src/scq.rs:327-406 | so None does not mean empty: for every capacity c there is a run of 3c + 1 threads to a state with no operation in flight and an entry whose enqueue has returned, in which that condition makes every dequeue answer None |
| RingHidden.FindsNothing | src/scq.rs:342-398 | a dequeuer that draws the ticket at which head and tail meet, running alone, finds nothing and pulls tail up |
| RingTheorems.CatchUpBound | src/scq.rs:313-325 | every ticket from tail up to head is held by a thread in flight; head is at most tail plus the dequeuers in flight, and at most tail if there are none |
| RingTheorems.CountersGrow | src/scq.rs:256-342 | head and tail never decrease, and no insertion is forgotten |
| RingTheorems.RealTimeFifo | src/scq.rs:256-358 | if an entry is inserted before another enqueue begins, its ticket is smaller; when the later entry has been taken, the earlier has been taken or its ticket is held by a dequeuer in its slot loop |
| RingTheorems.ThresholdBounds | src/scq.rs:293-400 | with k threads the threshold stays between the number of dequeuers in a round minus k, and 3·2^order − 1, outside the unbounded queue, whose dequeue stores a higher threshold itself |
| RingSolo.SoloEnqueue | src/scq.rs:254-305 | from any reachable state with no operation in flight and at least one slot without an entry, an enqueue running alone draws at most live + 1 tickets and inserts, whatever holes and unsafe slots there are |
| RingSolo.LoneEnqueue | src/scq.rs:254-305 | such an enqueue returns if and only if some slot holds no entry; otherwise it draws tickets forever |
| RingSolo.EmptySlotAhead | src/scq.rs:254-265 | among live + 1 consecutive tickets one leads to an empty slot |
| RingSolo.SoloDequeue | src/scq.rs:327-406 | from any state, other threads stopped anywhere, a dequeue that begins and runs alone returns and draws at most threshold + 1 tickets; from any state that keeps the invariant its answer is the first entry ahead of head if that ticket is among the next threshold + 1, and None otherwise; for one that is already under way see RingProgress.DequeueReturns |
| RingSolo.FirstEntryIsFirst | src/scq.rs:342-358 | the first entry ahead of head exists if there is any, and its ticket is the least |
| RingSolo.FromDeqLoad | src/scq.rs:346-389 | the loop at one slot ends after at most ten more looks: with the entry if the slot is of the ticket's cycle, and otherwise with nothing taken |
| RingSolo.TenMoreLooks | src/scq.rs:365-373 | a dequeuer that runs alone looks at an empty slot of an earlier cycle eleven times before it goes on to advance it, with its safe bit |
| RingProgress.DequeueReturns | src/scq.rs:327-406 | in every reachable state, other threads stopped anywhere, a thread anywhere in a dequeue, also after a lost compare-exchange, returns when it runs alone; if it holds a ticket in its slot loop whose entry is there, it returns that entry, and from everywhere else the answer is given by entries, head, tail and threshold |
| RingProgress.CatchUpReturns | src/scq.rs:313-325 | from any state, a thread anywhere in a catch-up that runs alone returns None after at most five steps and takes the threshold down by one; tail is then the given head if the compare-exchange fits, and otherwise at least the head that is loaded after it was lost |
| RingProgress.NewRingIsEmpty | src/lfstd.rs:66-75 | a new empty ring answers None at once and draws no ticket |
| RingAdmission.EnqueueReturnsIff | src/scq.rs:254-305 | in every reachable state, other threads stopped anywhere, a thread anywhere in an enqueue that runs alone returns if and only if some slot has no entry or the thread is past the tests of the slot |
| RingAdmission.EnqueueReturns | src/scq.rs:254-305 | with a slot without an entry, it answers Ok if its insertion is done or cannot be lost any more; otherwise QueueFinalized if the ring is finalized, leaving slots, entries and threshold as they were, and Ok if not, having inserted exactly its index and set the threshold |
| RingAdmission.SealedEnqueue | src/scq.rs:273-279 | with nothing in flight and a slot without an entry, an enqueue running alone on a finalized ring returns QueueFinalized after at most live + 1 tickets, and slots, head, entries and threshold are as before |
| RingAdmission.FinalizeRefuses | src/scq.rs:226-235 | after `finalize` on a finalizable ring, in any reachable state with a slot without an entry, the next enqueue returns QueueFinalized and changes no entry |
| RingAdmission.TooLarge | src/scq.rs:238-242 | an index of at least 2^order is refused with IndexLargerThanOrder and changes nothing |
| RingEffects.StepDoes | src/scq.rs:238-406 | every step of every thread has exactly one of three effects on the entries: it inserts at a ticket not yet inserted, removes the live entry of a ticket not yet taken, or leaves all entries as they are |
| RingOrder.StepOrderly | src/scq.rs:256-325 | if no index is in the ring or on its way into it twice, every step of every thread on a ring that is not finalized keeps tail within 2·2^order of head, and keeps each ticket between them accounted for: it has an entry, is held by an enqueuer, or has failed because of an index that belongs to no other failed ticket |
| RingOrder.RoomForTicket | src/scq.rs:256-257 | in such a state, an enqueuer about to draw a ticket finds fewer tickets between head and tail than there are slots |
| RingOrder.WhyFailed | src/scq.rs:265-300 | a ticket that head has not passed fails only because the slot still holds an entry that head has passed |
| RingCredit.StepPaid | src/scq.rs:292-295 | every step keeps the threshold at least the number of dequeuers in flight plus the distance from head to any entry whose enqueuer has seen to the threshold, provided that no more than 2^order dequeuers are in flight whenever an enqueuer does so |
| RingCredit.LastInsertions | src/scq.rs:273-279 | after finalization no thread gets as far as the compare-exchange, so only tickets already there can still be inserted with; that an enqueue is then answered is RingAdmission.SealedEnqueue and RingAdmission.EnqueueReturns |
| Tickets.DivMod | src/scq.rs:257-259 | cycle and slot of a ticket are its quotient and remainder by the number of slots |
| Tickets.CycleOrder | src/scq.rs:257-265 | later tickets have no earlier cycle, and tickets of one slot are ordered as their cycles |
| Words.ModUpKey | src/scq.rs:102-104 | `modup` keeps the cycle bits and sets safe bit and index bits, for every word and order |
| Words.TicketKey | src/scq.rs:258-258 | `modup(ticket << 1, n)` is the key of the ticket's cycle |
| Words.TicketMap | src/scq.rs:771-773 | `lfring_map` of a ticket is its slot |
| Words.KeyOrder | src/scq.rs:111-113 | the signed comparison of two keys is the order of their cycles, cycle −1 first; it does not overflow for tickets below 2^62 |
| Words.EnqueueTest | src/scq.rs:263-268 | the three word tests of an enqueuer decode to: earlier cycle; safe and ⊥; unsafe and ⊥ |
| Words.DequeueTest | src/scq.rs:350-365 | the word tests of a dequeuer decode to: earlier cycle; same cycle; an index, not ⊥; already unsafe |
| Words.InsertDecodes | src/scq.rs:251-283 | `tcycle ^ eidx` decodes to the ticket's cycle, safe, with the given index, which is not ⊥ |
| Words.ConsumeDecodes | src/scq.rs:356-356 | `fetch_or(n - 1)` decodes to emptying the slot |
| Words.IndexDecodes | src/scq.rs:357-357 | `entry & (n - 1)` is the index of the slot, and all ones if it is empty |
| Words.UnsafeDecodes | src/scq.rs:361-361 | `entry & !n` decodes to marking the slot unsafe |
| Words.AdvanceDecodes | src/scq.rs:372-372 | `hcycle ^ (!entry & n)` decodes to the new cycle, empty, with the old safe bit |
| Words.JoinIsSum | src/scq.rs:257-283 | a word is cycle·4·2^order + safe bit·2·2^order + index bits |
| Words.DecodeInjective | src/scq.rs:282-379 | different words are different records, so a compare-exchange on words is one on records |
| WordRing.Simulation | src/scq.rs:238-406 | one action on words is the same action on records |
| WordRing.WordsRefineRecords | src/scq.rs:238-406 | any run of the word ring from an empty or a full ring of any order passes through the words that encode the records of the same run |
| WordRing.EmptyAbs | src/lfstd.rs:66-75 | the initial word −1 stands for cycle −1, safe, ⊥, in every slot |
| FullInit.InitializeFull | src/scq.rs:132-151 | the two loops of the direct initialization leave exactly the words n + i, and −1 from half on |
| FullInit.FullIsFilled | src/lfstd.rs:50-63 | enqueueing 0, 1, ..., 2^order − 1 into an empty ring leaves, word for word, the ring that is initialized full, with equal head, tail and threshold, for every order |
| BoundedTheorems.KeepQAction | src/scq.rs:699-766 | every step of every thread keeps the invariant of the bounded queue |
| BoundedTheorems.IndexOwnership | src/scq.rs:699-766 | in every reachable state every index below the capacity is in exactly one place: a slot of the free ring, a slot of the alloc ring, or the hands of one thread |
| BoundedTheorems.ExclusiveCells | src/scq.rs:713-726 | a thread that accesses a cell is the only one that holds its index; cells are empty when written and filled when read |
| BoundedTheorems.NeverUndefined | src/scq.rs:716-764 | no operation panics or reads an uninitialized cell; the free ring never refuses an index, and the alloc ring does so only when it was finalized; that it is finalized only when it has filled up is BoundedSeal.SealedWhenFull |
| BoundedTheorems.UsedCounts | src/scq.rs:701-756 | `used` is the number of entries in the alloc ring plus the enqueues between increment and outcome plus the dequeues between taking an index and the decrement, so it never underflows |
| BoundedTheorems.NeverOverfull | src/scq.rs:701-711 | at most `capacity` cells hold an item |
| BoundedTheorems.ItemsComeBack | src/scq.rs:724-759 | a dequeue reads exactly the item that was enqueued with its ticket, and no ticket is read twice; a refused enqueue gets its own item back |
| BoundedTheorems.ReturnedAreStored | src/scq.rs:749-766 | everything that dequeues have returned was enqueued, ticket by ticket |
| BoundedFifo.RingsReachable | src/scq.rs:699-766 | a run of the bounded queue is a run of each of its rings, so every theorem about reachable rings holds of both |
| BoundedFifo.QueueFifo | src/scq.rs:699-766 | real-time order of the bounded queue: an item stored before another enqueue begins has the smaller ticket, and when the later item has been read the earlier has been taken or is about to be |
| BoundedSolo.LoneGet | src/scq.rs:749-766 | with no operation in flight, a dequeue running alone returns the item of the first ticket ahead of head if the threshold of the alloc ring admits that ticket, and None if it does not or if there is no item |
| BoundedOrder.TailBound | src/scq.rs:256-325 | in every reachable state of a bounded queue tail is at most 2·capacity ahead of head in the free ring, and in the alloc ring unless it is finalized; no entry is ever further ahead |
| BoundedOrder.ThresholdIsEnough | src/scq.rs:292-400 | in every reachable state the threshold of the free ring is at least the distance from head to every entry plus the dequeuers in flight, but for entries whose enqueuer has not seen to it yet; so is that of the alloc ring with at most capacity + 1 threads |
| BoundedOrder.FewTakers | src/scq.rs:701-708 | the counter admits at most `capacity` threads to the dequeue of the free ring at a time |
| BoundedAnswers.NoneIffEmpty | src/scq.rs:749-766 | with no operation in flight and at most capacity + 1 threads, a dequeue running alone returns None if and only if the queue is empty, and otherwise the item of the oldest ticket |
| BoundedAnswers.NoneIsJust | src/scq.rs:749-752 | in every run, whoever returns None had, at a moment of the same call, nothing left to take: at the tail test, for any number of threads, every stored item belonged to another dequeue that held its ticket; at the threshold tests, with at most capacity + 1 threads, every one did or its own enqueue had not returned |
| BoundedFull.FullIsJust | src/scq.rs:699-711 | in every run, for any number of threads, whoever returns QueueFull had, at a moment of the same call, no place: `used` was at least the capacity, or every free index was claimed by another enqueue or being given back by an operation that had not returned |
| BoundedPut.LonePut | src/scq.rs:699-738 | with no operation in flight, whatever any number of threads did before, an enqueue running alone, with or without FINALIZE, returns QueueFull if `capacity` items are stored, otherwise QueueFinalized if the queue is finalized, and otherwise stores its item under a new ticket; then the queue is finalized if and only if it was told to, can be and has filled the last place; a refusal gives the same item back and leaves items, `used`, alloc ring entries and the set of free indices as they were |
| BoundedCalls.PutMeans | src/scq.rs:699-738 | in every run that begins with an enqueue and holds no other call of its thread: at Stored the call has put in exactly one item, its argument, under a ticket it drew itself; at QueueFull or QueueFinalized the answer is its argument and it has put in nothing |
| BoundedCalls.GetMeans | src/scq.rs:749-766 | in every run that begins with a dequeue and holds no other call of its thread: at an item the call has read exactly that one, with a ticket it drew itself, and it is what was put in with it; at None it has read nothing |
| BoundedSeal.SealedWhenFull | src/scq.rs:730-734 | in every interleaving, a queue that has been finalized had reached `used` = capacity at some moment before |
| BoundedSeal.ClosedIsSealed | src/scq.rs:716-727 | in every reachable state, an enqueue answers QueueFinalized, or is on its way to it, only if the queue is finalized |
| BoundedSeal.KeepsMode | src/scq.rs:226-235 | whether the alloc ring of a queue can be finalized is decided when the queue is made, and every run keeps it, with capacity and threads |
| BoundedProgress.OperationReturns | src/scq.rs:699-766 | in every reachable state, other threads stopped anywhere, a thread anywhere in an enqueue or a dequeue of the queue that runs alone returns, and its answer is given by where it stands, `used`, the flag and the two rings |
| BoundedDrop.DropAll | src/scq.rs:784-789 | from any state of the alloc ring that keeps the invariant, with unsafe slots, gaps or a used-up threshold, the loop of the drop ends and has dropped exactly the items of the tickets it reaches, each once and in order; a ticket is reached if the tickets without an entry before it are at most the threshold |
| BoundedDrop.DropsAllIff | src/scq.rs:784-789 | in every reachable state with no operation in flight, the drop drops every item if and only if there is none or the tickets without an entry between head and the last entry are at most the threshold of the alloc ring |
| BoundedDrop.AllReached | src/scq.rs:784-789 | the same for any set of entries and any threshold |
| BoundedAnswers.DropsAll | src/scq.rs:784-789 | with at most capacity + 1 threads, that is always so: the drop drops every item |
| BoundedHidden.LostItem | src/scq.rs:749-766 | for every capacity c, 3c + 1 threads can bring a new queue to a state with no operation in flight and an item whose enqueue has returned, in which every dequeue answers None |
| BoundedHidden.LeakedItem | src/scq.rs:784-789 | in the state of LostItem, which 3c + 1 threads can bring about, the drop reaches no ticket and leaks the item |
| ScqRing.ScqRing.Enqueue | src/scq.rs:238-306 | appends the index at tail; a too large index, or a finalized ring, is an error that changes nothing but at most one more ticket than there are entries |
| ScqRing.ScqRing.Visit | src/scq.rs:346-389 | the loop at one slot consumes the entry of the ticket's cycle, marks an older entry unsafe, advances an older empty slot keeping its safe bit, and leaves a newer slot alone |
| ScqRing.ScqRing.Dequeue | src/scq.rs:327-406 | None exactly if the ring is empty, and otherwise the oldest index in one round; on an empty ring at most threshold + 1 tickets |
| ScqRing.ScqRing.Catchup | src/scq.rs:313-325 | tail becomes the given head if it has not changed, and otherwise is pulled up to head if it is behind |
| ScqRing.ScqRing.Finalize | src/scq.rs:226-235 | closes a finalizable ring and no other |
| ScqRing.ScqRing.Empty | src/lfstd.rs:66-75 | a new empty ring: no index, threshold −1 |
| ScqRing.ScqRing.Full | src/lfstd.rs:50-63 | a new full ring: the indices 0, 1, ..., 2^order − 1 in order |
| ScqRing.Appending | src/scq.rs:282-289 | an entry written at the ticket behind the last one appends to the sequence that the slots represent |
| ScqRing.Consuming | src/scq.rs:354-358 | emptying the slot of the head ticket removes the first element of that sequence |
| ScqRing.Passing | src/scq.rs:372-382 | a dequeuer on an empty ring finds an empty slot of an earlier cycle, and advancing it keeps the ring empty |
| ScqRing.Probing | src/scq.rs:256-300 | enqueues that a finalized ring refused leave tail ahead; tickets from there on still find either a usable slot or entries in turn, so the next enqueue ends |
| BoundedQueue.BoundedQueue.EnqueueCycle | src/scq.rs:699-738 | stores the item exactly if there is room and the queue is not finalized; otherwise returns the same item and leaves contents, `used` and the set of free indices as they were; finalizes when it fills the last place and is told to |
| BoundedQueue.BoundedQueue.Enqueue | src/scq.rs:671-682 | appends if there is room, otherwise returns the same item |
| BoundedQueue.BoundedQueue.Dequeue | src/scq.rs:749-766 | None exactly if the queue is empty, otherwise the oldest item; its index goes back to the free ring; also after finalization |
| BoundedQueue.BoundedQueue.Drop | src/scq.rs:784-789 | in every state that one thread leaves, drops every stored item once, oldest first, and leaves no cell with an item; for the states that concurrent use leaves see BoundedDrop.DropsAllIff |
| BoundedQueue.BoundedQueue.New | src/lfstd.rs:96-108 | an empty queue of capacity 2^order |
| BoundedQueue.TakingFree | src/scq.rs:708-711 | when fewer than `capacity` indices are allocated there is a free one, and its cell is empty |
| BoundedQueue.Adding | src/scq.rs:713-716 | writing the item to a held index's cell and allocating the index appends the item, with every index still in exactly one place |
| BoundedQueue.TakingOldest | src/scq.rs:752-759 | taking the oldest allocated index and emptying its cell removes the first item and no other |
| UnboundedQueue.UnboundedQueue.Enqueue | src/lfstd.rs:185-273 | appends the item, whether the last segment has room, is full or is finalized, and also when tail lags behind the last segment; in segments of more than one place, every segment before the last, and every full one, stays finalized |
| UnboundedQueue.UnboundedQueue.Dequeue | src/lfstd.rs:276-332 | wherever tail points: None exactly if no segment holds an item, otherwise the oldest item; drained segments are left behind, and the loop ends; a tail that lags stays in the list if and only if head has not gone past it |
| UnboundedQueue.UnboundedQueue.Drop | src/lfstd.rs:338-351 | if every segment is in a state that one thread leaves, and wherever tail points: frees every segment reachable from head exactly once, and drops every item exactly once, oldest first |
| UnboundedQueue.UnboundedQueue.New | src/lfstd.rs:165-183 | an empty queue with one segment |
| UnboundedQueue.ConcatGrow | src/lfstd.rs:209-214 | appending to the last segment appends to the whole queue |
| Grind.GrindBounded | fuzz/fuzz_targets/scq_grind.rs:16-28 | for every sequence of operations the bounded queue gives the answers of the plain queue of the same size |
| Grind.GrindUnbounded | fuzz/fuzz_targets/lscq_grind.rs:16-30 | for every sequence of operations and every segment size the unbounded queue gives the answers of the plain queue without a limit |
| Grind.OutputsAreInputs | src/lib.rs:92-119 | what comes out of the plain queue, followed by what is left in it, is what it accepted, in order |

## Left out

- Weak memory orderings: atomics are sequentially consistent here.
- Wrap-around of tickets beyond 2^62, and orders above 60.
- The exact number of threads up to which the threshold exits of a dequeue (src/scq.rs:332, 400) mean empty: proved for at most c + 1 threads on a queue of capacity c (BoundedAnswers.NoneIsJust), which includes the limit of c that the paper assumes, and refuted for 3c + 1 (BoundedHidden.LostItem); between the two only the exact condition on the state is proved (RingSolo.NoneIff, BoundedSolo.LoneGet, BoundedDrop.DropsAllIff).
- The unbounded queue under concurrency, with hazard pointers and the reclamation of segments: the finalized test is separate from the compare-exchange that inserts, and head can pass a tail that lags behind, so the code by itself does not establish that no item is lost. Part 4 has it for one thread. The second `dequeue` of a segment, and the refused link of a new one, only matter under concurrency.
- Concurrent use during `drop`, which needs exclusive access.
- BoundedQueue.BoundedQueue.Drop: requires a state that one thread leaves (safe slots, no gaps, a threshold that is not used up); BoundedDrop has the drop of the states that concurrent use leaves, in which it can leak.
- UnboundedQueue.UnboundedQueue.Drop: requires the same of every segment; the drop of segments that concurrent use left, one BoundedDrop.DropAll each, is not put together.
- ScqRing.ScqRing.Enqueue: requires that fewer than n of the n slots hold an entry, because the code otherwise draws tickets forever (RingSolo.LoneEnqueue); the bounded queue never has more than n / 2 (BoundedTheorems.IndexOwnership).
- BoundedQueue.BoundedQueue.Dequeue: `used` is decremented after the item is read, not before, which one thread cannot tell apart; BoundedMachine has the order of the code.
- UnboundedQueue.UnboundedQueue.Enqueue: requires that tail points into the list, though perhaps not to its end; after head has gone past a tail that lags, which only other threads can bring about, tail points to a segment that may have been freed.
- Sizes that are not powers of two, and the panics of `determine_order` for them.
- `SingleSize`, `CountedUnboundedQueue`, the constant queues and their macro, handles, error messages, padding and back-off: wrappers, or matters of performance.
