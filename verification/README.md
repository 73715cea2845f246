# Replicated store: verified models

This project models, in Dafny, the three components that a node of the replicated
hash-table store is built from, and proves what they promise. `dafny verify
dfyconfig.toml` checks everything.

**The table.** `phmap.hpp`: an open-addressing table with one control byte per slot,
group probing in triangular steps, tombstone-avoiding erase, in-place rehash and
growth, and the sharded table over it. The hash is any function of the key and the
group width is 8 or 16. The model is a class over arrays whose ghost `Contents` is
a map; lookups are right because no probe window before an element's own one holds
an empty byte, which every operation keeps.

| file | content |
|---|---|
| `ProbeSequence.dfy` | the probe sequence and its cursor; it visits every position once |
| `ControlBytes.dfy` | control bytes, the ring, clones, group masks, capacity arithmetic |
| `TableTheory.dfy` | reachability, coherence of slots and bytes, accounting, searches, erase |
| `RehashTheory.dfy` | the invariant of the in-place rehash and of moving to new arrays |
| `RawHashMap.dfy` | the class with its operations |
| `ParallelHashMap.dfy` | the sharded table |

**The queue.** `concurrentqueue.h`: the free list of blocks and one implicit
producer with any number of consumers, as machines whose steps are single atomic
accesses taken by any number of threads in any order (sequentially consistent).

| file | content |
|---|---|
| `FreeList.dfy` | the reference-counted free list |
| `Tickets.dfy` | the optimistic-count and overcommit protocol that hands out indices |
| `BlockIndex.dfy` | the circular block index: positions, 64-bit lookup, growth, reuse |
| `ImplicitProducer.dfy` | elements, blocks, index, the producing and the consuming threads |
| `ProducerQueue.dfy` | tickets and blocks stepping together: the queue is first-in first-out |
| `QueueProgress.dfy` | a dequeue takes a waiting element, and an enqueue fails only for lack of memory |
| `IndexReuse.dfy` | exactly when the block index grows, and when an entry is used again |
| `BlockPool.dfy` | the queue and the free list stepping together, exchanging blocks |

**The store.** `Node.cpp`: placement of keys on nodes, values on the wire,
two-phase commit with concurrent coordinators over a network that loses and delays
messages, the stripes taken by the threads of one node, and the node itself with
its handlers and `put`/`put3`, whose table is the sharded table above.

| file | content |
|---|---|
| `WireFormat.dfy` | values in a 128-byte field |
| `Placement.dfy` | owners, replicas, shares of a batch, transaction ids |
| `TwoPhaseCommit.dfy` | the protocol and the safety of its decisions |
| `LastWriters.dfy` | what a copy of a key holds in any run, and exactly when the copies agree |
| `ReplicaAgreement.dfy` | runs in which commits on a key do not overlap: order, agreement, `get` |
| `CommitPhases.dfy` | the same from the coordinators' point of view |
| `CommitProgress.dfy` | what a put that is answered, or refused, leads to |
| `Divergence.dfy` | runs in which the copies differ for good |
| `NodeLocks.dfy` | stripes: visibility, no deadlock, termination |
| `Node.dfy` | the node as a class |
| `NodeSteps.dfy` | the steps of the protocol are the methods of the node |

## What the code does not provide

Some results are about limits of the code rather than promises it keeps.

- The two copies of a key can differ for good although every `put` has returned true.
  `LastWriters.CopiesAgreeExactly` says when they agree, in every run: if and only if
  the last writers of the key that the owner and the replica have applied staged the
  same value there. Three runs show the ways in which this fails. In
  `Divergence.OverlapDiverges` nothing is lost, but locks are not held between the
  phases, and two transactions on one key are applied in one order at the owner and in
  the other at the replica. In `Divergence.LostCommitDiverges` a COMMIT is lost, which
  `put` ignores. In `Divergence.UnfitValueDiverges` the value is longer than 128 bytes
  or contains a NUL, and the coordinator, which stages its own share without sending
  it, holds one of the copies.
- What excludes the first is that a writer of a key is decided only while no holder of
  the key lacks an earlier one; this is necessary and sufficient for the holders to
  apply the writers in the order of the decisions (`ReplicaAgreement.SerialExactly`).
  A holder then lacks the last writer at most, and when neither lacks it the copies
  agree if and only if the value is not of the third kind
  (`ReplicaAgreement.CopiesAgree`).
- A participant that has staged its share, but whose reply to the PREPARE is lost, is not
  among those told to abort, and keeps what it has staged:
  `CommitProgress.FailedPutAborts`. It is never applied
  (`TwoPhaseCommit.AbortedIsNeverApplied`).
- A GET that fails reads as the empty string, as an absent key does:
  `ReplicaAgreement.GetReadsSerial`.
- Transaction ids repeat when a node's 32-bit counter goes round:
  `Placement.TxIdsCollide`. The protocol is proved for fewer than 2^32
  transactions per node.

## Hypotheses

- Keys are not negative and there are 1 to 127 nodes, so that the `int8_t`
  arithmetic of owners and replicas is exact; node indices are different.
- A request is answered by its own reply or fails. Requests and replies may be
  lost, or arrive after their sender has given up, but are not duplicated.
- The 64-bit counters that the queue compares are less than 2^63 apart, the block
  index has at most 2^58 entries, and there are fewer than 2^31 - 2 threads, so that
  a reference count does not reach the flag.
- The initial pool and the allocator hand out blocks that nobody has, with any
  contents. That the free list does, and that the queue releases only blocks it has,
  is proved (`BlockPool.dfy`).

`x & mask` is written as a remainder or with a comparison throughout; the masks are
2^k - 1. The SSE2 masks of a group are taken as what they mean byte by byte.

## Model

| member | source | states |
|---|---|---|
| `ProbeSequence.WindowStartClosed` | libs/ds/hashmap/phmap.hpp:670-683 | the offset after i calls of `next`, each of which adds a growing index and masks, is the start offset plus width times the i-th triangular number, around the ring |
| `ProbeSequence.TriDistinct` | libs/ds/hashmap/phmap.hpp:676-680 | for a power-of-two modulus, the triangular numbers below it are pairwise different modulo it |
| `ProbeSequence.TriCovers` | libs/ds/hashmap/phmap.hpp:676-680 | every residue is met: the triangular steps are a permutation of the windows |
| `ProbeSequence.WindowIsTile` | libs/ds/hashmap/phmap.hpp:676-680 | step i of the probe looks exactly at one tile of the ring as seen from the start |
| `ProbeSequence.ProbeVisitsEachPositionOnce` | libs/ds/hashmap/phmap.hpp:666-688 | for a power-of-two ring and width 8 or 16, each position of the ring is in the window of exactly one of the first (capacity + 1) / width steps |
| `ProbeSequence.ProbeSeq.Next` | libs/ds/hashmap/phmap.hpp:676-680 | moves the cursor from the i-th window start of its probe to the next |
| `ControlBytes.GroupIsSlice` | libs/ds/hashmap/phmap.hpp:2922-2933 | a group loaded from the control array at any offset up to the capacity reads the ring, across the sentinel and the clones |
| `ControlBytes.GroupReadsRing` | libs/ds/hashmap/phmap.hpp:2510-2514 | a byte of a loaded group that lies on a real slot is that slot's control byte, wherever the group starts |
| `ControlBytes.FullByteNamesSlot` | libs/ds/hashmap/phmap.hpp:2513-2517 | a byte with a hash in it names a real slot below the capacity through `seq.offset(i)`, also in a clone and in a small table |
| `ControlBytes.WindowIsRead` | libs/ds/hashmap/phmap.hpp:2510-2519 | every slot of a window is read by the group loaded at its start |
| `ControlBytes.CloneIndexIs` | libs/ds/hashmap/phmap.hpp:2932 | the one index formula for the second write is the clone's place for slots below the width of a large table, the slot itself for other slots of a large table, and the clone's place in a small table |
| `ControlBytes.SetCtrlMirrors` | libs/ds/hashmap/phmap.hpp:2922-2933 | writing a byte and its clone keeps the array the image of the ring, with the ring changed at that slot only |
| `ControlBytes.LargeTableKeepsEmpty` | libs/ds/hashmap/phmap.hpp:1055-1065 | a table of at least one group has more slots than it may fill |
| `ControlBytes.SmallTableUsesAll` | libs/ds/hashmap/phmap.hpp:1055-1065 | a smaller table may be filled to the last slot |
| `ControlBytes.GrowthIncreases` | libs/ds/hashmap/phmap.hpp:2779-2781 | doubling the capacity raises the growth limit, so that a full table gets room |
| `ControlBytes.GrowthIsSevenEighths` | libs/ds/hashmap/phmap.hpp:1055-1065 | the growth limit is seven eighths of the ring, except that tables of up to 3 slots may be filled, and the table of 7 slots with groups of 8 may hold 6 |
| `ControlBytes.GrowthDoubles` | libs/ds/hashmap/phmap.hpp:2772-2782 | the next capacity is a valid one and its limit at least twice as high |
| `TableTheory.FewerEmptiesKeepReachable` | libs/ds/hashmap/phmap.hpp:2519-2520 | marks that only lose empties keep every element reachable |
| `TableTheory.CoveredEraseKeepsReachable` | libs/ds/hashmap/phmap.hpp:2627-2645 | if every window through the erased slot keeps another empty, making the slot empty cuts off no element |
| `TableTheory.NeverFullIsCovered` | libs/ds/hashmap/phmap.hpp:2632-2641 | when the counted runs of non-empties around a slot add up to less than a width, every window through the slot holds another empty |
| `TableTheory.NotNeverFullIsBare` | libs/ds/hashmap/phmap.hpp:2632-2641 | and when they add up to a width or more, some window through the slot holds no empty, so that a probe may have passed it |
| `TableTheory.NeverFullExactly` | libs/ds/hashmap/phmap.hpp:2627-2645 | the test succeeds if and only if the table is smaller than a group or every window through the slot holds another empty |
| `TableTheory.SmallIsNeverFull` | libs/ds/hashmap/phmap.hpp:2632-2641 | in a small table the count always allows the slot to become empty, so that small tables never hold deleted marks |
| `TableTheory.ErasedReachable` | libs/ds/hashmap/phmap.hpp:2627-2645 | after an erase every other element is still reachable along its own probe path |
| `TableTheory.EraseKeepsCoherent` | libs/ds/hashmap/phmap.hpp:2627-2645 | erasing a slot keeps slots and control bytes coherent |
| `TableTheory.PlaceKeepsCoherent` | libs/ds/hashmap/phmap.hpp:3156-3160 | filling a free slot that no probe of the key stops before, with the element and its 7-bit hash, keeps the table coherent |
| `TableTheory.PlaceAccounting` | libs/ds/hashmap/phmap.hpp:2880-2894 | taking a free slot keeps growth_left + size + deleted equal to the growth limit, and growth_left does not go below zero |
| `TableTheory.EraseAccounting` | libs/ds/hashmap/phmap.hpp:2627-2645 | and so does erasing one |
| `TableTheory.AccountedHasEmpty` | libs/ds/hashmap/phmap.hpp:2949 | a table with that accounting has an empty slot whenever it has a whole group or room left, so that every search ends |
| `TableTheory.FirstFreeIsTarget` | libs/ds/hashmap/phmap.hpp:2824-2835 | the lowest free byte of the first window with one is the target: all earlier windows of the probe are full, and no slot before it in its own window is free |
| `TableTheory.TargetIsUnique` | libs/ds/hashmap/phmap.hpp:2824-2835 | a probe has one target |
| `TableTheory.LowestFreeOfFullWindow` | libs/ds/hashmap/phmap.hpp:2824-2835 | in a small table with no free slot the search stops in the clones and answers the sentinel's place, which is not deleted, so that prepare_insert grows |
| `TableTheory.SearchStep` | libs/ds/hashmap/phmap.hpp:2857-2868 | a probe step without a match and with no empty byte rules the key out of one more window |
| `TableTheory.StoppedSearchIsComplete` | libs/ds/hashmap/phmap.hpp:2519-2520 | when the key is in none of the windows up to one with an empty byte, it is nowhere in the table |
| `TableTheory.RepresentsErase` | libs/ds/hashmap/phmap.hpp:2627-2645 | emptying the slot of a key takes that key out of the map and nothing else |
| `RehashTheory.ConversionStartsRehash` | libs/ds/hashmap/phmap.hpp:1035-1044 | deleted to empty and full to deleted turns a coherent table into one in which every element waits to be placed |
| `RehashTheory.StayKeepsRehashing` | libs/ds/hashmap/phmap.hpp:2740-2750 | an element whose target is in the window it is in may stay where it is |
| `RehashTheory.MoveKeepsRehashing` | libs/ds/hashmap/phmap.hpp:2751-2757 | an element may move to an empty target, and the slot it leaves becomes empty, without cutting off a placed element |
| `RehashTheory.SwapKeepsRehashing` | libs/ds/hashmap/phmap.hpp:2758-2767 | an element may change places with one that is not placed yet |
| `RehashTheory.RehashEndsCoherent` | libs/ds/hashmap/phmap.hpp:2728-2769 | when nothing waits any more, every element is reachable under its own hash |
| `RehashTheory.SquashIsOnLargeTable` | libs/ds/hashmap/phmap.hpp:2709 | the in-place rehash is only reached on a table of at least one group, as it asserts |
| `RehashTheory.TransferKeepsMap` | libs/ds/hashmap/phmap.hpp:2691-2699 | moving one element from the old arrays to the new ones keeps the map |
| `RawHashMaps.RawHashMap.constructor` | libs/ds/hashmap/phmap.hpp:820-830 | an empty table, with capacity 0, the control bytes of EmptyGroup and no slots |
| `RawHashMaps.RawHashMap.SetCtrl` | libs/ds/hashmap/phmap.hpp:2922-2933 | changes the ring at one slot and keeps the clones |
| `RawHashMaps.RawHashMap.ResetCtrl` | libs/ds/hashmap/phmap.hpp:2943-2947 | all slots empty, with sentinel and clones |
| `RawHashMaps.RawHashMap.ConvertDeletedToEmptyAndFullToDeleted` | libs/ds/hashmap/phmap.hpp:1035-1044 | the conversion over whole groups, the copying of the clones and the sentinel, on the array |
| `RawHashMaps.RawHashMap.FindKey` | libs/ds/hashmap/phmap.hpp:2851-2870 | finds the slot of the key if and only if the map has it, by group probing, and ends |
| `RawHashMaps.RawHashMap.FindFirstNonFull` | libs/ds/hashmap/phmap.hpp:2824-2835 | the target of the probe: the first non-full slot of its first window with one, or the sentinel's place in a full small table |
| `RawHashMaps.RawHashMap.RehashSlot` | libs/ds/hashmap/phmap.hpp:2730-2767 | one round of the loop of the in-place rehash: one more element is placed, or a slot is done; what is left decreases although the loop repeats slots |
| `RawHashMaps.RawHashMap.PlaceElement` | libs/ds/hashmap/phmap.hpp:2740-2767 | an element whose target is known stays if it is in the right window, moves if the target is empty, and else changes places with the unplaced element there; each slot and mark afterwards is stated |
| `RawHashMaps.RawHashMap.PlaceAll` | libs/ds/hashmap/phmap.hpp:2730-2767 | the whole loop ends, with every element placed |
| `RawHashMaps.RawHashMap.DropDeletesWithoutResize` | libs/ds/hashmap/phmap.hpp:2707-2770 | the in-place rehash keeps the map, ends with no deleted marks and a valid table, and resets growth_left |
| `RawHashMaps.RawHashMap.Transfer` | libs/ds/hashmap/phmap.hpp:2693-2698 | one element goes to the first non-full slot of its own probe path in the new arrays, with its 7-bit hash; nothing else there changes, and the map stays the same |
| `RawHashMaps.RawHashMap.Resize` | libs/ds/hashmap/phmap.hpp:2683-2705 | a valid table of the new capacity with the same map and no deleted marks |
| `RawHashMaps.RawHashMap.RehashAndGrowIfNecessary` | libs/ds/hashmap/phmap.hpp:2772-2782 | keeps the map, makes room for at least half the limit, leaves no deleted marks, and keeps the capacity if and only if at most half the limit is in use |
| `RawHashMaps.RawHashMap.FindRoom` | libs/ds/hashmap/phmap.hpp:2880-2890 | the target of the probe; nothing changes unless the table is out of growth and the target is not a deleted slot, and else room is made first and the target is that of the new table |
| `RawHashMaps.RawHashMap.PrepareInsert` | libs/ds/hashmap/phmap.hpp:2880-2894 | reserves that slot: once slot and control byte are filled, the table is valid again; room is made exactly when FindRoom makes it |
| `RawHashMaps.RawHashMap.InsertOrAssign` | libs/ds/hashmap/phmap.hpp:3153-3164 | the map with the key set to the value; whether the key is new; and where the element is: an old key's slot is assigned and nothing else changes, and a new key goes to the probe's target |
| `RawHashMaps.RawHashMap.Find` | libs/ds/hashmap/phmap.hpp:2504-2523 | the value of the key if the map has it |
| `RawHashMaps.RawHashMap.EraseMetaOnly` | libs/ds/hashmap/phmap.hpp:2627-2645 | the slot's mark becomes empty if and only if the table is smaller than a group or every window through the slot keeps another empty, and else deleted; size and growth_left are as the mark demands |
| `RawHashMaps.RawHashMap.EraseAt` | libs/ds/hashmap/phmap.hpp:2268-2272 | the map without the key of the slot, and a valid table; only this slot and its mark change |
| `RawHashMaps.RawHashMap.Erase` | libs/ds/hashmap/phmap.hpp:2245-2251 | the map without the key, and how many were erased; without the key nothing changes |
| `RawHashMaps.RawHashMap.Clear` | libs/ds/hashmap/phmap.hpp:1922-1940 | the empty map at the same capacity; with all growth back and no deleted marks, unless the table was empty already, which leaves it as it is |
| `ParallelHashMaps.ShardLookup` | libs/ds/hashmap/phmap.hpp:4434 | a lookup in the submap a key's hash chooses is a lookup in the whole map |
| `ParallelHashMaps.ShardInsert` | libs/ds/hashmap/phmap.hpp:4688-4699 | setting a key in its submap sets it in the whole map and changes nothing else |
| `ParallelHashMaps.ShardErase` | libs/ds/hashmap/phmap.hpp:3926-3946 | erasing a key in its submap erases it from the whole map and nothing else |
| `ParallelHashMaps.SubidxIgnoresLowBits` | libs/ds/hashmap/phmap.hpp:4434 | the submap of a key does not depend on the lowest eight bits of its hash |
| `ParallelHashMaps.SubidxReachesAll` | libs/ds/hashmap/phmap.hpp:4434 | every submap is chosen by some hash |
| `ParallelHashMaps.ParallelHashMap.Find` | libs/ds/hashmap/phmap.hpp:4392-4398 | the sharded table's lookup is the map's |
| `ParallelHashMaps.ParallelHashMap.InsertOrAssign` | libs/ds/hashmap/phmap.hpp:4410-4423 | the map with the key set, through prepare, emplace and set_ctrl in the one submap |
| `ParallelHashMaps.ParallelHashMap.Erase` | libs/ds/hashmap/phmap.hpp:3926-3946 | the map without the key |
| `Tickets.CircularLessIsLess` | libs/ds/concurrentqueue.h:477-483 | for counters less than 2^63 apart the wrapped comparison is the comparison |
| `Tickets.HeadNeverPassesTail` | libs/ds/concurrentqueue.h:2551-2616 | in every reachable state the indices taken and about to be taken number at most the elements enqueued, however stale the values of dequeueOvercommit |
| `Tickets.ClaimedIndexIsFresh` | libs/ds/concurrentqueue.h:2562 | an index that is taken is below the tail, and the head moves past it |
| `Tickets.TicketsAreConserved` | libs/ds/concurrentqueue.h:2556-2614 | every ticket is in flight, has become a dequeue, or has been given back |
| `Tickets.RecheckKeeps` | libs/ds/concurrentqueue.h:2560-2561 | a ticket that passes the second test is below the tail once the lower tickets that were given back are discounted |
| `Tickets.RestingCount` | libs/ds/concurrentqueue.h:2551-2616 | while no consumer is in the protocol, the tickets taken and not given back are the elements dequeued |
| `Tickets.FirstTestExactly` | libs/ds/concurrentqueue.h:2556 | a consumer goes on from the first test if and only if the tickets out, as it has read them, are fewer than the tail it has read |
| `Tickets.SecondTestExactly` | libs/ds/concurrentqueue.h:2560-2561 | and from the second if and only if its ticket, less what it has read of the overcommit, is below the tail |
| `Tickets.GivesUpWhenSpokenFor` | libs/ds/concurrentqueue.h:2556 | a consumer that gives up at the first test has seen as many elements as are dequeued, claimed by tickets in flight, or hidden by tickets given back since |
| `FreeList.ListHoldsNoBlockTwice` | libs/ds/concurrentqueue.h:1450-1538 | the list always ends, holds no block twice, and no block a user has |
| `FreeList.TryGetGivesToOne` | libs/ds/concurrentqueue.h:1473-1511 | a block that try_get is about to return is in nobody's hands, is not on the list, and no other thread is about to return it |
| `FreeList.ReferencePinsNext` | libs/ds/concurrentqueue.h:1486-1491 | while a thread holds a reference it took to a block, no step changes the block's next pointer |
| `FreeList.NoBlockIsLost` | libs/ds/concurrentqueue.h:1450-1538 | when no operation is in flight, every block added and not taken is on the list |
| `FreeList.NullMeansEmpty` | libs/ds/concurrentqueue.h:1473-1511 | a try_get that ends without a block has read a null head during the call, when the list was empty |
| `FreeList.TryGetSucceedsAlone` | libs/ds/concurrentqueue.h:1473-1501 | from every reachable state with no other operation in flight and a block on the list, try_get takes the first block, in seven accesses, and leaves the rest of the list |
| `FreeList.TryGetOfEmpty` | libs/ds/concurrentqueue.h:1475-1511 | from an empty list it returns nothing and changes nothing |
| `FreeList.AddSucceedsAlone` | libs/ds/concurrentqueue.h:1459-1538 | and add puts its block at the front, in six |
| `FreeList.WordsStayInRange` | libs/ds/concurrentqueue.h:1461-1545 | no 32-bit addition or subtraction of the next access of any thread carries into the flag, borrows from it or sets it twice |
| `FreeList.StepKeeps` | libs/ds/concurrentqueue.h:1459-1538 | every atomic access of any thread keeps the invariant of reference counts, roles of blocks and list |
| `BlockIndexes.WrapThenMod` | libs/ds/concurrentqueue.h:2961 | going round the 64-bit circle does not change a position, because the capacity divides 2^64 |
| `BlockIndexes.LookupGoesBack` | libs/ds/concurrentqueue.h:2953-2961 | the signed division of the wrapped difference, added to the tail and masked, goes back as many positions as there are blocks between |
| `BlockIndexes.GrownIndex` | libs/ds/concurrentqueue.h:2982-2997 | the copying loops yield the old entries in ring order, then the new ones |
| `BlockIndexes.FreeEntryIsNotUsed` | libs/ds/concurrentqueue.h:2907-2910 | an entry with an invalid key or a null value after the tail belongs to no block with an element still to be consumed, and the ring has room |
| `BlockIndexes.ForwardKeepsCovers` | libs/ds/concurrentqueue.h:2907-2913 | moving the tail to the next entry keeps all of them in place |
| `BlockIndexes.BackKeepsCovers` | libs/ds/concurrentqueue.h:2935-2939 | and so does rewinding it, when no block could be had |
| `BlockIndexes.GrowthKeepsCovers` | libs/ds/concurrentqueue.h:2982-3003 | the doubled index finds everything the old one found, from its own tail |
| `BlockIndexes.LookupFinds` | libs/ds/concurrentqueue.h:2948-2964 | through any header and tail that cover it, the lookup finds the entry of the block of the index |
| `ImplicitProducers.FoundFreeKeeps` | libs/ds/concurrentqueue.h:2907-2910 | the entry found free is nobody else's |
| `ImplicitProducers.GrowKeeps` | libs/ds/concurrentqueue.h:2966-3004 | publishing the doubled index keeps the invariant, whatever the new entries' values are |
| `ImplicitProducers.SetKeyKeeps` | libs/ds/concurrentqueue.h:2912 | setting the key of the next entry disturbs no block in use |
| `ImplicitProducers.SetTailKeeps` | libs/ds/concurrentqueue.h:2913 | and neither does publishing it |
| `ImplicitProducers.RewindKeeps` | libs/ds/concurrentqueue.h:2508-2513 | taking the tail back when no block could be had keeps every lookup right |
| `ImplicitProducers.GetBlockKeeps` | libs/ds/concurrentqueue.h:2508-2517 | a block from the pool, with any contents, may join |
| `ImplicitProducers.SetValueKeeps` | libs/ds/concurrentqueue.h:2532-2535 | the new block is live, its counter counts none of its elements, and its entry points to it |
| `ImplicitProducers.WriteKeeps` | libs/ds/concurrentqueue.h:2544 | writing an element overwrites none that has not been read |
| `ImplicitProducers.PublishKeeps` | libs/ds/concurrentqueue.h:2546 | the element is in the queue |
| `ImplicitProducers.LoadKeyKeeps` | libs/ds/concurrentqueue.h:2948-2964 | the lookup is right however much the index has changed since its header and tail were read |
| `ImplicitProducers.ReadKeeps` | libs/ds/concurrentqueue.h:2565-2597 | the element read is the one enqueued at that index |
| `ImplicitProducers.CountKeeps` | libs/ds/concurrentqueue.h:1608-1610 | the block's counter goes on counting the elements consumed; it was below 32 |
| `ImplicitProducers.ClearKeeps` | libs/ds/concurrentqueue.h:2605 | clearing the entry takes it from nobody else |
| `ImplicitProducers.ReleaseKeeps` | libs/ds/concurrentqueue.h:2607 | releasing the block takes it from nobody |
| `ImplicitProducers.ClaimKeeps` | libs/ds/concurrentqueue.h:2562 | claiming an index below the tail |
| `ImplicitProducers.ConsumeKeeps` | libs/ds/concurrentqueue.h:2551-2616 | every access of a consumer is to something that is there, and keeps the invariant |
| `ImplicitProducers.InitHolds` | libs/ds/concurrentqueue.h:2423-2431 | the constructor's state |
| `ProducerQueue.StepRefinesQueue` | libs/ds/concurrentqueue.h:2487-2616 | each step publishes an element at the end of the abstract queue, claims the element at its front, or leaves it alone, in every reachable state |
| `ProducerQueue.DequeueReturnsFront` | libs/ds/concurrentqueue.h:2562-2610 | what a dequeue returns is the element that was at the front when it claimed its index, however late it is read |
| `ProducerQueue.NothingIsLost` | libs/ds/concurrentqueue.h:2562-2610 | every index claimed has been delivered with the value enqueued there, or is in the hands of a consumer that has not read it yet |
| `ProducerQueue.ReadOnce` | libs/ds/concurrentqueue.h:2562-2597 | no two consumers hold the same index, and no element is read twice |
| `ProducerQueue.AccessesAreDefined` | libs/ds/concurrentqueue.h:2487-2616 | no thread ever reads a null entry, a cell with no element, or a block that has been released: a block that is read, counted in, written to or released is still in the life in which the thread came by it, even if it has been in the pool and out again before |
| `ProducerQueue.EntryIsKept` | libs/ds/concurrentqueue.h:2907-2913 | while an element of a block is queued, or claimed and not finished with, the block's index entry has the block's base and points to it |
| `ProducerQueue.LookupIsRight` | libs/ds/concurrentqueue.h:2957-2962 | the lookup yields the entry of the index's block, as the assertion after it says |
| `ProducerQueue.StagesGoForward` | libs/ds/concurrentqueue.h:2599-2607 | a block is drained, its entry cleared and the block released, each once and in this order |
| `ProducerQueue.DrainedByLast` | libs/ds/concurrentqueue.h:1608-1610 | a consumer drains its block if and only if the counter it increments was 31, which is when all other elements have been finished with |
| `ProducerQueue.DrainedIsReleased` | libs/ds/concurrentqueue.h:2599-2607 | a drained block is on its way to the pool in the hands of one consumer |
| `ProducerQueue.NeverFull` | libs/ds/concurrentqueue.h:2493-2497 | enqueue never takes the queue for full while fewer than 2^63 elements are in it |
| `QueueProgress.DequeueSucceedsAlone` | libs/ds/concurrentqueue.h:2551-2616 | from every reachable state with an element in the queue and no ticket in a consumer's hands, a consumer that steps alone takes the element at the front and returns it |
| `QueueProgress.ReachesDone` | libs/ds/concurrentqueue.h:2562-2610 | a consumer that has claimed an index and steps alone returns the element enqueued there |
| `QueueProgress.EnqueueSucceedsAlone` | libs/ds/concurrentqueue.h:2487-2548 | from every reachable state in which the producer rests, enqueue puts its element at the end of the queue, with or without a new block and with or without a larger index, if memory can be had |
| `QueueProgress.EnqueueFailsForMemory` | libs/ds/concurrentqueue.h:2487-2548 | an enqueue that ends without its element in the queue has been refused memory for a block or for a larger index during the call |
| `IndexReuse.GrowsExactly` | libs/ds/concurrentqueue.h:2897-2931 | in every reachable state, a producer that looks for an index entry takes the next one of the ring, unless the block a whole lap of the ring before has not been cleared; then, and only then, it asks for a larger index |
| `IndexReuse.GrowsOnlyThen` | libs/ds/concurrentqueue.h:2918-2923 | and nothing else makes it ask |
| `IndexReuse.TakenExactly` | libs/ds/concurrentqueue.h:2907-2908 | the next entry has a valid key and a value if and only if that block has not been cleared: no entry is taken for good, and no junk in a new index looks taken |
| `BlockPool.RunProjects` | libs/ds/concurrentqueue.h:3056-3114 | every run of free list and queue together, in which the producer uses whatever block the list, the initial pool or the allocator yields and a released block is added or destroyed, is a run of the free list and a run of the queue, for any other users of the list |
| `BlockPool.TakeStepProjects` | libs/ds/concurrentqueue.h:3089-3107 | the block that try_get returns is one the queue does not have, so that the queue may go on with it |
| `BlockPool.ReleaseStepProjects` | libs/ds/concurrentqueue.h:3067-3078 | the block that a consumer releases is one the queue has, so that it may be added |
| `BlockPool.RequisitionedIsNew` | libs/ds/concurrentqueue.h:3096-3107 | a block that is requisitioned from the list is used by no part of the queue and is not to be handed out again |
| `BlockPool.ListedIsNotUsed` | libs/ds/concurrentqueue.h:3067-3092 | no block is on the free list while the queue has it |
| `BlockPool.DeliveredIsEnqueued` | libs/ds/concurrentqueue.h:2562-2610 | what a dequeue has read is what was enqueued at its index, although blocks go round through the free list |
| `WireFormat.SentIsLongestPrefix` | src/Node.cpp:284-288 | the receiver gets the longest prefix of the value that has at most 128 bytes and no NUL |
| `WireFormat.RoundTrip` | src/Node.cpp:245-284 | a value survives the wire if and only if it has at most 128 bytes and no NUL |
| `WireFormat.SentTwice` | src/Node.cpp:484-486 | a value that has been on the wire once survives it again |
| `WireFormat.FillValue` | src/Node.cpp:284-288 | the field is the encoding of the value, whatever it held before |
| `WireFormat.ReadValue` | src/Node.cpp:245 | strnlen and the string constructor decode the field |
| `Placement.ReplayLookup` | src/Node.cpp:273-274 | after a list of writes a key has the last value written to it, or what it had before |
| `Placement.HoldersAre` | src/Node.cpp:293-294 | a node holds a key if and only if its index is the key modulo the number of nodes, or the next one around; they are one node if and only if there is no other |
| `Placement.ShareTouches` | src/Node.cpp:381-389 | a participant's list writes the batch's keys it holds and no others, with the batch's last values |
| `Placement.ShareAt` | src/Node.cpp:381-389 | a participant's list is the batch's writes to the keys it holds, in the batch's order and with nothing between them |
| `Placement.ShareReplay` | src/Node.cpp:273-274 | replaying a node's list is replaying the whole batch restricted to the keys the node holds |
| `Placement.OwnerAndReplicaAgree` | src/Node.cpp:378-389 | duplicate keys in a batch resolve to the same last value at owner and replica |
| `Placement.Group` | src/Node.cpp:378-389 | the grouping loop yields an entry for every node with a share, with that share in batch order, and no others |
| `Placement.ShareFitsRequest` | src/Node.cpp:416-420 | no list is longer than the three slots of a request |
| `Placement.TxIdsCollide` | src/Node.hpp:51-53 | two transaction ids are equal if and only if they are from one node and the 32-bit counter has gone round between them |
| `TwoPhaseCommit.NewIdIsFresh` | src/Node.hpp:51-53 | with fewer than 2^32 transactions per node a new id is nobody's |
| `TwoPhaseCommit.StepKeeps` | src/Node.cpp:241-281 | every step of any coordinator, handler or the network keeps the invariant |
| `TwoPhaseCommit.DecisionIsUnanimous` | src/Node.cpp:325-340 | at the decision to commit every participant has staged its whole share |
| `TwoPhaseCommit.CommitsIfAllVote` | src/Node.cpp:325-340 | what has been decided is to commit if all remote participants have voted, and to abort if one has not |
| `TwoPhaseCommit.CommittedIsKept` | src/Node.cpp:254-276 | at every participant a committed transaction is at exactly one of three places, staged, being applied or applied, with its whole share, also after a lost COMMIT |
| `TwoPhaseCommit.AppliedWasCommitted` | src/Node.cpp:254-276 | what a node has applied was decided to be committed, concerned the node, and was applied once |
| `TwoPhaseCommit.ValuesComeFromCommits` | src/Node.cpp:254-276 | every value in any table was written by a transaction whose coordinator decided to commit it, and is its last value for the key |
| `TwoPhaseCommit.DecisionIsFinal` | src/Node.cpp:340-369 | a decision is never changed |
| `TwoPhaseCommit.AbortedIsNeverApplied` | src/Node.cpp:355-369 | a transaction aborted at any time is applied nowhere, before or after, even if a request of it arrives late |
| `TwoPhaseCommit.HandleCommitKeeps` | src/Node.cpp:254-262 | a COMMIT always finds its transaction staged |
| `LastWriters.CopyIsLastWrite` | src/Node.cpp:254-276 | in every run, whatever is lost and however commits overlap, a copy of a key is the value its node has staged for the last writer it has applied, and a node has no keys but those it holds |
| `LastWriters.CopiesAgreeExactly` | src/Node.cpp:254-276 | in every run, owner and replica agree on a key if and only if neither has applied a writer, or both have and the last ones staged the same value there; if the last ones are one transaction, if and only if there is one copy, its coordinator holds neither, or its value fits on the wire |
| `LastWriters.StagedCopiesAgree` | src/Node.cpp:309-331 | the values staged at owner and replica for one batch are the same if and only if there is one copy, or the coordinator, which does not send its own share, holds neither, or the value fits |
| `LastWriters.OutcomeLookup` | src/Node.cpp:273-274 | replaying the staged shares of some transactions leaves in each key the node holds what the last writer staged there, and nothing elsewhere |
| `ReplicaAgreement.SerialExactly` | src/Node.cpp:340-354 | writers of a key are decided only while no holder lacks an earlier one, if and only if all through the run both holders have applied the writers in the order of the decisions, all or all but the last |
| `ReplicaAgreement.DecisionInOrder` | src/Node.cpp:340 | a decision keeps a holder in order if and only if the holder lacks no committed writer of the key |
| `ReplicaAgreement.ApplyKeepsOrder` | src/Node.cpp:254-276 | a holder that applies a writer applies the one it lacks |
| `ReplicaAgreement.WritersApplyInOrder` | src/Node.cpp:254-276 | in such a run a holder lacks nothing or the last committed writer only, whatever COMMITs are lost, late or unanswered |
| `ReplicaAgreement.CopyIsSerial` | src/Node.cpp:254-276 | a holder that lacks nothing has what the last committed writer staged there; that is the value of the serial application of the committed batches if and only if there is no writer, the holder is its coordinator, or the value fits |
| `ReplicaAgreement.CopiesAgree` | src/Node.cpp:340-354 | when neither holder lacks a committed writer of the key, the copies agree if and only if there is none, or there is one copy, or the last one's coordinator holds neither, or its value fits; nothing is supposed about COMMITs or values |
| `ReplicaAgreement.GetReadsSerial` | src/Node.cpp:461-487 | when the copy read lacks nothing, get returns the serial value if and only if that is the empty string, or the caller is its coordinator and holds it, or it fits and the caller holds it or is answered; a GET that fails reads as the empty string |
| `CommitPhases.CarefulRunsAreSerial` | src/Node.cpp:340-354 | if every COMMIT that fails has been applied, so that at most its reply is lost, and commit phases that write a key do not overlap, the commits on the key do not overlap |
| `CommitPhases.CopiesAreSerialWhileClosed` | src/Node.cpp:254-276 | then, while no commit phase on the key is open, owner and replica hold the value of the serial application of the committed batches, if it fits |
| `CommitPhases.CopiesAgreeWhileClosed` | src/Node.cpp:340-354 | and whether or not it fits, they agree under exactly the condition of `ReplicaAgreement.CopiesAgree` |
| `CommitPhases.GetReadsSerialWhileClosed` | src/Node.cpp:461-487 | and get returns a serial value that fits if and only if the caller holds the key, or its GET is answered, or the value is the empty string |
| `CommitPhases.ReturnedIsApplied` | src/Node.cpp:340-354 | if every COMMIT that fails has been applied, a put that has returned true has been applied at every participant |
| `Divergence.LostCommitDiverges` | src/Node.cpp:341-354 | for every value there is a run in which a COMMIT is lost, put returns true, and the replica never gets the value; it lacks the writer, although nothing overlaps |
| `Divergence.OverlapDiverges` | src/Node.cpp:242-276 | for any two values there is a run in which nothing is lost, both puts return true and have been applied at both nodes, and owner and replica hold the one and the other for good; its commits overlap |
| `Divergence.UnfitValueDiverges` | src/Node.cpp:309-331 | for every value there is a run in which nothing is lost, nothing overlaps and neither copy lacks anything, and the copies are the value and what the wire leaves of it, which agree if and only if it fits |
| `CommitProgress.AnsweredPutCommits` | src/Node.cpp:291-355 | from every reachable state, whatever is in flight, a put whose requests are answered returns true, with its batch applied at every participant and nothing else applied meanwhile |
| `CommitProgress.AnsweredPutIsRead` | src/Node.cpp:254-276 | and then every holder of a key of the batch has the batch's value for it, as it has reached that node |
| `CommitProgress.FailedPutAborts` | src/Node.cpp:355-369 | from every reachable state in which a PREPARE is waited for, a put whose PREPARE fails and whose ABORTs are answered returns false; its share is dropped at those that have voted and at its own node, and nowhere else |
| `NodeLocks.StripesOk` | src/Node.cpp:264-267 | the stripes of a commit are those of its keys, each once, in ascending order |
| `NodeLocks.AccessKeepsLocks` | src/Node.cpp:264-276 | no thread holds a stripe that another one holds exclusively, and one thread at most holds pending_mtx |
| `NodeLocks.ReadIsSerial` | src/Node.cpp:209-215 | a read returns the value of the commits that have begun to write, applied one after the other |
| `NodeLocks.FinishedReaderHasRead` | src/Node.cpp:209-215 | a reader that has finished has read its key's value in the table at a moment of the run |
| `NodeLocks.SerialIsHistory` | src/Node.cpp:254-276 | the serial history consists of the batches of the commits that have begun to write, each once |
| `NodeLocks.AllCommitsAreApplied` | src/Node.cpp:254-276 | when all threads have finished, every commit that had staged writes has been applied, whole and once, one after the other |
| `NodeLocks.AtomicVisibility` | src/Node.cpp:264-275 | once a reader has seen a commit's write or a newer one, every later read of any key of that commit sees it or a newer one |
| `NodeLocks.NoDeadlock` | src/Node.cpp:254-276 | in every reachable state with an unfinished thread some thread can make a step |
| `NodeLocks.HoldsBelowWanted` | src/Node.cpp:264-271 | a commit that waits for a stripe holds only lower ones |
| `NodeLocks.RunsEnd` | src/Node.cpp:254-276 | every step is one of those the threads have left, so that a run has at most as many steps as they have in all |
| `Nodes.Node.constructor` | src/Node.cpp:21-26 | an empty table, nothing staged, counter 0 |
| `Nodes.Node.NextTxId` | src/Node.hpp:51-53 | the id of the node's next transaction; the counter wraps at 2^32 |
| `Nodes.Node.HandlePrepare` | src/Node.cpp:241-252 | stages the decoded inputs under the id and votes yes |
| `Nodes.Node.HandleCommit` | src/Node.cpp:254-276 | takes what is staged and replays it on the table, or does nothing if nothing is staged |
| `Nodes.Node.HandleAbort` | src/Node.cpp:278-281 | drops what is staged |
| `Nodes.Node.HandleGet` | src/Node.cpp:208-219 | the value as it goes on the wire, and success if and only if it is not empty |
| `Nodes.Node.ReadLocal` | src/Node.cpp:466-472 | the node's own copy, or the empty string |
| `Nodes.Node.CollectStripes` | src/Node.cpp:265-267 | the set of stripes, listed in ascending order |
| `Nodes.ApplyWrites` | src/Node.cpp:273-274 | the writes replayed in order on the sharded table |
| `Nodes.Node.AskAll` | src/Node.cpp:325-340 | asks the remote participants in order up to the first that fails, each with the transaction's id and its share; those that voted are the ones before it |
| `Nodes.Node.Put` | src/Node.cpp:291-458 | for every set of answers: true if and only if all participants answer; first a PREPARE with its share to each of those asked, in order, and then only decisions; a COMMIT of this transaction to exactly the participants if all answered, an ABORT to exactly those before the first that did not; and the effect on the node |
| `Nodes.TellsReachVoters` | src/Node.cpp:340-369 | everyone who voted, and nobody else, is told the decision, on this transaction and no other |
| `Nodes.TellsOnce` | src/Node.cpp:340-369 | and is told once |
| `Nodes.SentIsRight` | src/Node.cpp:318-369 | the requests of the two phases, one list after the other, are such a conversation |
| `Nodes.ReceivedInputs` | src/Node.cpp:243-248 | what a participant stages from a PREPARE is its share with the values as they survive the wire |
| `NodeSteps.BeginIsNextTxId` | src/Node.hpp:51-53 | a put that begins in the protocol takes its id and moves the counter as NextTxId does |
| `NodeSteps.StageIsPrepare` | src/Node.cpp:305-316 | the coordinator's local prepare is PrepareAll's, and touches no other node |
| `NodeSteps.AskIsPrepareRequest` | src/Node.cpp:318-331 | the PREPARE that goes out is the request of AskAll as the participant receives it |
| `NodeSteps.HandlePrepareIsStep` | src/Node.cpp:241-252 | the protocol's step for a PREPARE is HandlePrepare at that node, and touches no other |
| `NodeSteps.HandleCommitIsSteps` | src/Node.cpp:254-276 | the two steps for a COMMIT, with nothing in between, are HandleCommit at that node |
| `NodeSteps.HandleAbortIsStep` | src/Node.cpp:278-281 | the step for an ABORT is HandleAbort at that node |
| `NodeSteps.FinishCommitIsSteps` | src/Node.cpp:353-354 | the coordinator's own commit is HandleCommit at its node |
| `NodeSteps.FinishAbortIsStep` | src/Node.cpp:367-368 | and its own abort is HandleAbort, if it has a share |

## Left out

- Sockets, `asio`, connections, time-outs, and which thread reads which frame: the matched reply of a request is a hypothesis.
- Weak memory orders: the queue is proved under sequential consistency.
- `ExplicitProducer`, producer and consumer tokens, bulk operations, moving and swapping queues, thread-exit hooks, the hash of implicit producers and the search over several producers in `try_dequeue`: the store uses one-element `enqueue` and `try_dequeue` only, and order is promised per producer.
- The constructor path of `enqueue` for elements whose constructor may throw, and `dequeue`'s for assignments that may.
- An implicit producer whose first index could not be allocated, which refuses every element; destruction of queues.
- The initial pool and the allocator themselves: they yield blocks that nobody has.
- `rehash(n)` and `reserve(n)`: they size the table without the 7/8 margin, so that the accounting is not claimed there.
- `NormalizeCapacity` and `GrowthToLowerboundCapacity`, which only those and the sized constructors use.
- Allocation layout, sanitizer hooks, exceptions, policies and templates, node handles, iterators, copying, swapping and merging of tables; tables whose allocator is not `std::allocator`.
- The false positives of the portable group's `Match`: the key comparison that follows makes them harmless.
- Submap mutexes: an operation on a submap is taken as one step under its mutex, which is held from the search to the last write.
- The order in which a released stripe or mutex is granted: any thread that could take a lock may.
- The order of `voted_yes` in the machine of module TwoPhaseCommit: COMMIT and ABORT go out in any order. Module Nodes has the ascending order of the set.
- Agreement of copies under overlapping commits or after a lost COMMIT beyond the exact condition of `LastWriters.CopiesAgreeExactly`: the code does not provide it.
- Liveness beyond modules NodeLocks, QueueProgress, CommitProgress and the lone calls of FreeList: that a message arrives or that a thread is scheduled is a hypothesis there, and nothing is said of a thread that others overtake for ever.
- Integer parsing, addresses, `Server.hpp`, `Client.hpp`, `main.cpp` and `startup.py`.
- Nodes.Node.Put: says nothing about other threads between its steps, which modules TwoPhaseCommit and NodeLocks interleave.
- Nodes.Node.CollectStripes: the locks themselves are not fields of the class; module NodeLocks models who holds them.
