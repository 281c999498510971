# Verified models of the containers

A Dafny 4.11 model of the concurrent and sequential containers of this repository, with proofs of the properties that their
code is written for. `dafny verify dfyconfig.toml` checks the whole project.

The concurrent containers are state machines: one atomic load, store, compare-and-swap, exchange or fetch-and-add is one step,
each thread has a program counter with its local values, and a run is any sequence of steps from an initial state. The results
hold in every state of every run. What an operation comes to is also stated for the case that nobody interferes with it, from
whatever state the others have left (the lemmas whose names end in `Alone`). Memory is sequentially consistent. Fields marked *history* in the files are not in the
program; they record what has happened so that a property can be stated. The sequential containers are classes whose methods
have the loops of the program and are proved against functions on their contents.

| file | models |
|---|---|
| `BoundedQueue.dfy` | the bounded queue: tickets, wrapping 16-bit slot versions, futex waiting, `reserve_and_clear` |
| `DequeueCounters.dfy` | the optimistic and overcommit counters of the many-consumer dequeue |
| `FreeList.dfy` | the reference-counted lock-free free list |
| `BlockIndex.dfy` | the circular block index of an implicit producer, with 64-bit wrap-around |
| `HazardGraph.dfy` | hazard pointers together with the reference-counted nodes of both hash maps, concurrently |
| `MapWriters.dfy` | the writers of that machine as programs: insert, replace, erase, rehash and clear, step by step, beside each other |
| `MapChanges.dfy` | what their stores change, and what each of them comes to |
| `HazptrReclaim.dfy` | retiring and reclaiming by one thread: the linked lists and the counts |
| `SharedChains.dfy`, `HashSegment.dfy` | a hash map segment: chains, in-degree counts, the sharing and the copying rehash, destruction |
| `CountedQueue.dfy`, `QueueOrder.dfy` | the queue with split external and internal reference counts; the order in which it delivers |
| `PoolStacks.dfy` | the object pool: two stacks with tagged indices, thread caches, construction |
| `SkipList.dfy` | the skip list, for any choice of node heights |
| `RingBuffer.dfy` | the ring buffer, its iterators, and the two sliding windows |
| `TopologicalSort.dfy` | the forward and backward topological sorts |
| `Bits.dfy`, `Counting.dfy`, `Links.dfy`, `Runs.dfy`, `Sums.dfy` | bit operations, finite sets, pointers, runs and their induction, sums over threads |

## What the proofs found

- `src/nonlock_free_queue.h`, the constructor: both pointers to the first node start with external count 0 instead of 1, so the
  node is two short. It is deleted when exactly two threads still hold it (`CountedQueue.FirstNodeIsDeletedWhileHeld` is a run),
  and is never deleted when nobody does.
- `src/nonlock_free_queue.h`, `pop` sets the data of the old head back to null. A push that still holds this node can then set
  the data again, link its node behind one that has left the queue and exchange a tail that has moved on. The node that the
  tail led to is one reference short from then on (`CountedQueue.StalePushDeletesHeldNode` is a run). The counts are right for
  all pushed nodes if and only if this never happens (`CountedQueue.CleanIffNeverStale`), as with a single producer; the nodes
  lead from head to tail in the order of the pushes under the same condition (`QueueOrder.OrderedIffNeverStale`), and the queue is
  first in, first out then (`QueueOrder.FifoWhileNeverStale`).
- `src/container/skiplist.h`: a list constructed with height 0 loses its first value and counts it in `size_`
  (`SkipList.FirstInsertIsLost`). With any other initial height nothing is lost, and the size is the number of values.
- `src/pool.h`: with no node for the market or none for the collective, construction dereferences a null pointer, and it does so
  in no other case (`PoolStacks.Build`; `PoolStacks.OneListHasNoNode` has two examples).
- `src/container/ringbuffer.h` and `small_test/window.cc`: an overwriting buffer of capacity 0 can be constructed, and dividing by
  zero is then all that adding to it does; the same goes for windows of size 0, and for shrinking a window with items to size 0
  (`RingBuffer.Ring.EmplaceBack`, `RingBuffer.FixedWindow.Resize`, `RingBuffer.NoRoomForAnItem`).
- `src/concurrent/concurrent_hashmap_detail.h` and `hazptr/ConcurrentHashMap-detail.h`: `clear` reads the array that it retires before
  it takes the lock. Two clears at the same time retire one array twice and lose the other (`MapWriters.TwoClearsRetireOneArray`
  is a run). A clear keeps the counts right if and only if nobody has replaced the array in between
  (`MapWriters.ClearIsRightIff`).
- `small_test/graph_toplogical_sort.cpp`: a vertex without inputs that has been added twice is sorted twice
  (`TopologicalSort.AddedTwice`); a vertex that has an input which is not a vertex is never sorted. In all other cases the
  sort does what it should (`TopologicalSort.Graph.SortForward`).
- `src/concurrent/concurrentqueue.h`, line 2945: the comment asks for a signed division, but BLOCK_SIZE is unsigned and so is the
  division. The lookup is right all the same, if and only if the circle has no more entries than the 64-bit indices have blocks
  (`BlockIndex.PositionIsBack`, `BlockIndex.LookupMissesInTooLargeACircle`), which no memory can hold.
- `src/concurrent/concurrent_bounded_queue.h`: the slot versions have 16 bits, and 2^15 is the most pushes, and the most pops,
  that may be in flight on one slot (`BoundedQueue.MatchIsExact`, `BoundedQueue.BoundIsTight`,
  `BoundedQueue.BoundIsTightForPops`).

## Assumptions

- `BoundedQueue`: at most 2^15 pushes and at most 2^15 pops in flight on a slot. A futex wait is an atomic compare-and-sleep that
  may also return by itself, a wake wakes all sleepers of the slot.
- `DequeueCounters`: the 64-bit counters that a step compares are less than 2^63 apart. One producer; that an element is in place
  before the tail index covers it is part of the enqueue step.
- `FreeList`: nodes are never freed, only the owner of a node adds it, and there are fewer than 2^31 references.
- `HazardGraph`: an object is unlinked before it is retired, retired once and never linked again; this is what the counts
  establish for nodes. A bucket array carries the count 1, and its `retire()` is the release of it. A reader that is also
  a writer is two threads here.
- `MapWriters`: one segment, whose lock is a mutex. Nodes have no keys, so a walk may end anywhere and a bucket array may grow at any
  time; that a run is shared into a bucket that is still empty is `HashSegment.RunGoesIntoEmptyBucket`. Between the first read
  and the lock of a clear nobody replaces the array.
- `HashSegment`: rehashing doubles the number of buckets. The load factor threshold after a rehash, and the order and time in which
  retired arrays and nodes are destroyed, are arbitrary.
- `CountedQueue`: fewer than 2^30 threads. A deleted node keeps its last contents in the model.
- `PoolStacks`: during one pop a node is pushed fewer than 2^32 times; fewer than 2^32 - 1 nodes.

## Model

| member | source | states |
|---|---|---|
| BoundedQueue.MatchIsExact | src/concurrent/concurrent_bounded_queue.h:99-129 | with at most 2^15 pushes and 2^15 pops in flight on a slot, an operation that sees its 16-bit version in the futex word is at its unbounded version: a match is never one of an earlier or later wrap |
| BoundedQueue.MutualExclusion | src/concurrent/concurrent_bounded_queue.h:222-240 | at most one operation is inside the callback of a slot, in every state of every run, for any number of version wraps |
| BoundedQueue.BoundIsTight | src/concurrent/concurrent_bounded_queue.h:214-220 | a run with one push more in flight on a slot than that, at whose end two pushes are inside the callback of one slot: the bound cannot be raised |
| BoundedQueue.BoundIsTightForPops | src/concurrent/concurrent_bounded_queue.h:214-220 | the same for pops: a run with one pop more in flight than that ends with two pops inside the callback of one slot |
| BoundedQueue.FifoByTicket | src/concurrent/concurrent_bounded_queue.h:222-276 | a pop with ticket k that has its value got the value that push was called with in the step in which it drew ticket k, and it had been written before |
| BoundedQueue.PushWasDrawn | src/concurrent/concurrent_bounded_queue.h:242-261 | every push still has the value that it was called with when it drew its ticket, in every later state |
| BoundedQueue.CapacityIsNeverExceeded | src/concurrent/concurrent_bounded_queue.h:222-276 | the values written and not yet read are never more than the capacity |
| BoundedQueue.NoLostWakeup | src/concurrent/concurrent_bounded_queue.h:99-145 | an operation asleep on a slot sleeps on the current, tagged word, whose version is not the one it wants, or some operation that has advanced the slot still owes it a wake_all |
| BoundedQueue.NoDeadlock | src/concurrent/concurrent_bounded_queue.h:222-276 | while a pop whose push has been issued, or a push for which a pop has been issued to make room, is outstanding, some outstanding operation on its slot already sees its version, and if it sleeps, another is about to wake it |
| BoundedQueue.FairRunsComplete | src/concurrent/concurrent_bounded_queue.h:99-145 | in every run without end in which no operation that is awake is held up forever, whatever other operations come and do, every push for which there will be room and every pop whose push has been issued gets its turn, and the pop then has the value of its push |
| BoundedQueue.FairRunsDeliver | src/concurrent/concurrent_bounded_queue.h:242-276 | in every such run, once push has been called with a value and a pop has drawn the same ticket, the pop comes back with that value |
| BoundedQueue.StepNotFurther | src/concurrent/concurrent_bounded_queue.h:99-145 | no step of any operation takes an outstanding operation further from its turn, in versions still to go and then in the rank of the operation whose turn it is; each action of that operation, and of one that owes it a wake_all, brings it closer |
| BoundedQueue.OnlyHeadAdvances | src/concurrent/concurrent_bounded_queue.h:131-145 | only the operation whose turn it is changes the version of the slot, and then by one |
| BoundedQueue.PopCanComplete | src/concurrent/concurrent_bounded_queue.h:202-206 | without any new operation, there is a run that completes an outstanding pop whose push was issued; this is what clearing relies on |
| BoundedQueue.StepKeepsInv | src/concurrent/concurrent_bounded_queue.h:222-240 | every atomic step of push and pop keeps the invariant behind these results |
| BoundedQueue.RunKeepsInv | src/concurrent/concurrent_bounded_queue.h:222-276 | so it holds in every state of every run |
| BoundedQueue.SlotAndRound | src/concurrent/concurrent_bounded_queue.h:214-230 | masking a ticket by the capacity less one and shifting it by the round bits are its remainder and its quotient by the capacity |
| BoundedQueue.Expected | src/concurrent/concurrent_bounded_queue.h:214-220 | the 16-bit version an operation waits for is the truncation of twice its round, plus one for a pop |
| BoundedQueue.ReserveAndClear | src/concurrent/concurrent_bounded_queue.h:182-206 | on a queue with no operation in flight, the capacity becomes the least power of two that is enough and nothing unread is left: a new start if the capacity changes, and otherwise a run of pops that reads every value |
| BoundedQueue.ReserveStartsAfresh | src/concurrent/concurrent_bounded_queue.h:182-193 | a capacity that changes sets up an initial state whose round bits, taken by population count, agree with the capacity |
| BoundedQueue.ClearReadsEverything | src/concurrent/concurrent_bounded_queue.h:202-206 | clearing a queue with no operation in flight runs one pop after another to completion until every written value has been read, each by the pop of its own ticket |
| Bits.NextPowTwoIsLeast | src/concurrent/concurrent_bounded_queue.h:57-76 | rounding up yields a power of two that is not below the argument, and the least such |
| Bits.MaskIsMod | src/concurrent/concurrent_bounded_queue.h:230 | masking by a power of two less one is the remainder |
| Bits.ShiftIsDiv | src/concurrent/concurrent_bounded_queue.h:215 | shifting right is division by a power of two |
| DequeueCounters.HeadNeverPassesTail | src/concurrent/concurrentqueue.h:1940-2037 | for every interleaving of one producer and any number of single and bulk dequeues, the head index never passes the tail index |
| DequeueCounters.EachIndexIsHandedOutOnce | src/concurrent/concurrentqueue.h:1940-2037 | an index has been handed to a dequeue exactly if it is below the head; it has been handed to one dequeue only and is the index of an enqueued element |
| DequeueCounters.CountsAgreeWhenQuiet | src/concurrent/concurrentqueue.h:2233-2323 | whenever no dequeue is in flight, the optimistic count less the overcommit is the head index |
| DequeueCounters.TakenFitsBelowTail | src/concurrent/concurrentqueue.h:2536-2604 | whatever prefix of the reservations is taken, in reservation order, the indices it has taken or may still take do not exceed the tail, even though its decisions used stale overcommit values |
| DequeueCounters.DecideKeepsInv | src/concurrent/concurrentqueue.h:1970-2030 | the second look at the tail, with an overcommit loaded earlier, grants no more than what is there on top of all earlier reservations |
| DequeueCounters.DequeueAlone | src/concurrent/concurrentqueue.h:1940-2037 | from any state in which no dequeue is in flight, a dequeue that nobody interferes with is handed the index at the head exactly if the queue is not empty, and a bulk dequeue as many of the indices from the head on as there are, up to its maximum |
| DequeueCounters.AsksForWhatIsThere | src/concurrent/concurrentqueue.h:2536-2541 | the first look goes on exactly if, by the values loaded, something is left, and a bulk dequeue then asks for all that is left, up to its maximum |
| DequeueCounters.IsGrantedWhatIsThere | src/concurrent/concurrentqueue.h:2542-2552 | the second look grants all that is left of what was asked for, and gives back exactly the rest |
| DequeueCounters.TailCountsEnqueues | src/concurrent/concurrentqueue.h:1925-1936 | the tail index is the number of elements that have been enqueued |
| DequeueCounters.CircularLessIsLess | src/concurrent/concurrentqueue.h:469-476 | the circular comparison of truncated 64-bit counters less than 2^63 apart is the comparison of the counters |
| DequeueCounters.StepKeepsInv | src/concurrent/concurrentqueue.h:2233-2323 | every atomic step of enqueue, dequeue and dequeue_bulk keeps the invariant |
| DequeueCounters.RunKeepsInv | src/concurrent/concurrentqueue.h:1940-2037 | so it holds in every state of every run |
| FreeList.NoNodeIsLinkedTwice | src/concurrent/concurrentqueue.h:1438-1517 | the next pointers lead from the head through distinct nodes and end in null |
| FreeList.OneNodeOneOwner | src/concurrent/concurrentqueue.h:1450-1485 | two callers of try_get never win the same node, and a node that was won is neither on the list nor with its owner |
| FreeList.OneAdderPerNode | src/concurrent/concurrentqueue.h:1494-1517 | at most one thread per node is inside add_knowing_refcount_is_zero, and until it publishes the node nobody holds a reference on it |
| FreeList.PopInstallsSuccessor | src/concurrent/concurrentqueue.h:1464-1476 | a CAS of try_get that succeeds takes off the first node of the list, which is not flagged then, and installs the node that comes after it now: never a stale next pointer |
| FreeList.TryGetAlone | src/concurrent/concurrentqueue.h:1452-1489 | wherever the other threads stand, a try_get that nobody interferes with takes the first node of the list, and comes back without a node exactly if there is none |
| FreeList.NoNodeMeansEmpty | src/concurrent/concurrentqueue.h:1457-1489 | a try_get that comes back without a node, for any interleaving, has last read a head that was null, when the list was empty |
| FreeList.AddAlone | src/concurrent/concurrentqueue.h:1439-1450 | an add that nobody interferes with puts a node on which nobody has a reference in front of the list |
| FreeList.LastHolderAdds | src/concurrent/concurrentqueue.h:1479-1486 | a node that was added while there were references on it is put in front of the list by the thread that drops the last of them |
| FreeList.NoNodeIsLost | src/concurrent/concurrentqueue.h:1439-1517 | a node that was added and not won by anybody since is on the list whenever no thread is inside add or try_get |
| FreeList.RefsAreCounted | src/concurrent/concurrentqueue.h:1438-1485 | the references held on a node are between none and one per thread, so that the count never reaches the flag bit |
| FreeList.StepKeepsInv | src/concurrent/concurrentqueue.h:1438-1517 | every atomic step keeps the invariant: the word of a node is its flag, its references and the list's own |
| FreeList.RunKeepsInv | src/concurrent/concurrentqueue.h:1438-1517 | so it holds in every state of every run |
| BlockIndex.PositionIsBack | src/concurrent/concurrentqueue.h:2939-2946 | masking the tail plus the unsigned quotient of the distance finds the entry k places before the tail on the circle, also when the 64-bit indices wrap between the two, if and only if the circle has no more entries than the 64-bit indices have blocks |
| BlockIndex.LookupMissesInTooLargeACircle | src/concurrent/concurrentqueue.h:2943-2946 | with 2^60 entries for blocks of 32 the block before the tail's is not found: the division is not the signed one that the comment asks for |
| BlockIndex.BaseOfIndex | src/concurrent/concurrentqueue.h:2938 | clearing the low bits of a 64-bit index yields the base of its block, wherever in the block it is |
| BlockIndex.OffsetIs | src/concurrent/concurrentqueue.h:2945 | the division of the 64-bit distance of two bases, which is one of unsigned words because BLOCK_SIZE is unsigned, yields the distance the other way round the circle of all blocks |
| BlockIndex.GrowKeepsLookups | src/concurrent/concurrentqueue.h:2951-2993 | every lookup that the index covers finds the same entry, with the same key and block, before and after the index doubles |
| BlockIndex.EnterKeepsLookups | src/concurrent/concurrentqueue.h:2886-2918 | when a block enters, every other block still in use is found in its entry as before |
| BlockIndex.ImplicitIndex.constructor | src/concurrent/concurrentqueue.h:2951-2993 | the first index: a power of two of unused entries, valid, covering nothing |
| BlockIndex.ImplicitIndex.Lookup | src/concurrent/concurrentqueue.h:2933-2949 | finds the position whose entry has the base of the block of any covered index as its key |
| BlockIndex.ImplicitIndex.CopyDoubled | src/concurrent/concurrentqueue.h:2967-2981 | the loops copy the circle from the oldest entry on and append as many new entries |
| BlockIndex.ImplicitIndex.NewBlockIndex | src/concurrent/concurrentqueue.h:2951-2993 | doubles the index and changes nothing that can be looked up; without memory nothing changes |
| BlockIndex.ImplicitIndex.Enter | src/concurrent/concurrentqueue.h:2892-2900 | the next block takes the oldest entry, which becomes the newest |
| BlockIndex.ImplicitIndex.InsertEntry | src/concurrent/concurrentqueue.h:2886-2918 | succeeds exactly if the oldest entry is not in use or the index may grow and there is memory; then the next block is in, after growth where the circle was full; otherwise nothing has changed |
| BlockIndex.ImplicitIndex.SetBlock | src/concurrent/concurrentqueue.h:2886-2918 | stores or drops the block of an entry, and keeps the index |
| HazardGraph.ProtectedIsNotDeleted | src/concurrent/hazptr.hpp:110-145 | no object that a validated hazard pointer protects is deleted, for every interleaving of readers, writers and several bulk reclaimers |
| HazardGraph.ReadersTouchOnlyLiveObjects | src/concurrent/concurrent_hashmap_detail.h:378-403 | a reader that moves from a protected node to the next one under a second hazard pointer never reads a deleted object |
| HazardGraph.RefcountIsInDegree | src/concurrent/concurrent_hashmap_detail.h:98-120 | for any writers whose references balance, a node's count is the number of cells of bucket arrays and of not yet deleted nodes that point to it, plus the references in progress; it is zero exactly from retirement on, and then nothing points to the node |
| HazardGraph.CountsAreNeverZeroInUse | src/concurrent/concurrent_hashmap_detail.h:98-109 | acquire and release never find a count at zero, and find the node linked |
| HazardGraph.ObjectsOnlyMoveOn | src/concurrent/concurrent_hashmap_detail.h:98-116 | no step links a retired object again or takes back a deletion |
| HazardGraph.SweepKeepsHazards | src/concurrent/hazptr.hpp:110-145 | a sweep deletes no object that some reader protects, because the retired list was taken before the records were read |
| HazardGraph.ScanKeepsHazards | src/concurrent/hazptr.hpp:116-122 | a record that shows an object while the scan passes it has been seen |
| HazardGraph.ValidatedIsProtected | src/concurrent/hazptr.hpp:182-202 | an object that validation finds still linked is not in the list of a scan that has already passed the record |
| HazardGraph.GetProtectedObtainsTheCell | src/concurrent/hazptr.hpp:182-203 | in every run, get_protected comes back with what its cell leads to at the end of the call, shown by its record, and leaves what the reader's other records protect |
| HazardGraph.GetProtectedAlone | src/concurrent/hazptr.hpp:182-203 | from every state, a get_protected that nobody interferes with comes back with what the cell leads to |
| HazardGraph.AcquireAlone | src/concurrent/hazptr.hpp:62-98 | an acquire_record that nobody interferes with takes a record that is not in use, and makes a new one exactly if there is none |
| HazardGraph.GiveBackAlone | src/concurrent/hazptr.hpp:100-108 | a record that is given back shows nothing and is not in use |
| HazardGraph.ReachesNode | src/concurrent/concurrent_hashmap_detail.h:378-403 | from every state a reader can come to protect, hand over hand, the bucket array and a node that one of its buckets leads to |
| HazardGraph.ReaderProtectsNode | src/concurrent/concurrent_hashmap_detail.h:378-403 | a run from the constructor on in which an insertion publishes a node and a reader then protects it through the protected array |
| HazardGraph.ReclaimAlone | src/concurrent/hazptr.hpp:24-28 | of the objects on its private list and in the domain, a worker that nobody interferes with deletes exactly those that no record shows, and keeps the others in the domain |
| HazardGraph.LeftMeansShown | src/concurrent/hazptr.hpp:115-132 | for any interleaving, a sweep leaves an object only if some record showed it while this reclaim scanned the records |
| HazardGraph.AcquireRecordKeepsHazards | src/concurrent/hazptr.hpp:62-98 | a record claimed while inactive, or new, belongs to nobody else |
| HazardGraph.ReleaseKeepsGraph | src/concurrent/concurrent_hashmap_detail.h:98-105 | release keeps the counts and retires the node with the last reference |
| HazardGraph.SweepKeepsGraph | src/concurrent/concurrent_hashmap_detail.h:111-116 | deleting a node removes the references of its cells and leaves them to release |
| HazardGraph.StepKeepsInv | src/concurrent/hazptr.hpp:62-202 | every atomic step of writers, readers and reclaimers keeps the invariant of counts, records and scans |
| HazardGraph.RunKeepsInv | src/concurrent/hazptr.hpp:62-202 | so it holds in every state of every run |
| HazptrReclaim.Manager.Retire | src/concurrent/hazptr.hpp:17-28 | if the private list then has at least 5 objects and at least twice as many as there are records, everything pending is scanned: each object that no record protects is deleted once, the others are left and the private list is empty; otherwise nothing is deleted and the object is pending |
| HazptrReclaim.Manager.BulkReclaim | src/concurrent/hazptr.hpp:110-145 | of the scanned list exactly the protected objects are left, in order, and exactly the others are deleted, once; the count is the length of the list |
| HazptrReclaim.Manager.TryBulkReclaim | src/concurrent/hazptr.hpp:162-179 | scans exactly if the threshold is reached; then at most one object per record is left, and at most half of what was scanned |
| HazptrReclaim.Manager.PushAllToDomain | src/concurrent/hazptr.hpp:24-28 | the private list goes in front of the retired list, and the reclaim sees both |
| HazptrReclaim.Manager.Append | src/concurrent/hazptr.hpp:148-160 | a list goes in front of the retired list as a whole, and the count grows by its length |
| HazptrReclaim.Manager.AcquireRecord | src/concurrent/hazptr.hpp:62-98 | the first inactive record is activated; a new one is added in front exactly if all are active |
| HazptrReclaim.Manager.ReleaseRecord | src/concurrent/hazptr.hpp:100-108 | the record is cleared and inactive, and stays on the list |
| HazptrReclaim.Manager.ReachedThreshold | src/concurrent/hazptr.hpp:54-60 | at least 5, and at least twice the number of records |
| HazptrReclaim.Manager.ProtectedPointers | src/concurrent/hazptr.hpp:115-122 | the set collected from the records has exactly the protected objects |
| HazptrReclaim.AtMostOnePerRecord | src/concurrent/hazptr.hpp:116-137 | distinct objects that are all protected are no more than there are records |
| HazptrReclaim.ScanFreesHalf | src/concurrent/hazptr.hpp:162-179 | a scan that is triggered leaves at most half of what it looks at |
| HazptrReclaim.PushAppends | src/concurrent/hazptr.h:40-49 | push adds the object at the end of the linked list, with head, tail and count in step |
| HazptrReclaim.KeepOne | src/concurrent/hazptr.hpp:127-132 | moving a protected object to the other list while the first one is being walked keeps the rest of the walk intact |
| HazptrReclaim.DeleteOne | src/concurrent/hazptr.hpp:133-136 | so does deleting an unprotected one |
| SharedChains.SetSlotKeepsInv | hazptr/ConcurrentHashMap-detail.h:120-133 | redirecting a bucket slot, with one acquire and one release, keeps every count equal to the in-degree |
| SharedChains.SetNextKeepsInv | hazptr/ConcurrentHashMap-detail.h:395-403 | so does redirecting the next pointer of a node |
| SharedChains.DeleteKeepsInv | hazptr/ConcurrentHashMap-detail.h:134-140 | so does deleting a node whose count is zero |
| SharedChains.NextLeads | hazptr/ConcurrentHashMap-detail.h:120-123 | what a node leads to has a count above zero and has not been deleted, so that acquire never meets a count of zero |
| SharedChains.ReachableIsNotDeleted | hazptr/ConcurrentHashMap-detail.h:114-123 | whatever a reader can get to from a bucket array that has not been destroyed is not deleted |
| SharedChains.SurvivorsAreTheReachable | hazptr/ConcurrentHashMap-detail.h:120-140 | once every retired node has been deleted, a node is left exactly if some bucket array still leads to it, with a count equal to its remaining in-degree: no leak and no early deletion |
| HashSegment.Segment.constructor | hazptr/ConcurrentHashMap-detail.h:209-223 | an empty segment with the initial number of buckets rounded up to a power of two |
| HashSegment.Segment.GetIdx | hazptr/ConcurrentHashMap-detail.h:767-769 | shift and mask compute the bucket: the shifted hash modulo the number of buckets |
| HashSegment.Segment.Search | hazptr/ConcurrentHashMap-detail.h:378-410 | finds the node of a key, with the node before it, exactly if the segment has the key |
| HashSegment.Segment.InsertInternal | hazptr/ConcurrentHashMap-detail.h:346-445 | success exactly if the key is absent, is present, always, or is present with a matching value, for the four insert types in turn; the map gains the key with the value on success and is the same otherwise; it rehashes exactly at the threshold, before looking for a key that must not exist and after not finding one that may |
| HashSegment.Segment.EraseInternal | hazptr/ConcurrentHashMap-detail.h:536-581 | the segment loses the key and nothing else, and returns 1 exactly if it had it |
| HashSegment.Segment.Rehash | hazptr/ConcurrentHashMap-detail.h:447-504 | twice the buckets and the same map, unique keys and every node in its bucket; the old array is unchanged and retired; every old chain's last run is a shared tail of a new chain, as the very same nodes |
| HashSegment.Segment.RehashBucket | hazptr/ConcurrentHashMap-detail.h:455-494 | one old bucket is taken over: its keys and no others have moved |
| HashSegment.Segment.LastRun | hazptr/ConcurrentHashMap-detail.h:461-480 | finds the longest run at the end of a chain whose nodes all belong into one new bucket |
| HashSegment.Segment.ShareRun | hazptr/ConcurrentHashMap-detail.h:481-483 | the run is acquired and becomes the chain of its new bucket |
| HashSegment.Segment.CloneRest | hazptr/ConcurrentHashMap-detail.h:484-493 | the nodes before the run are cloned onto their new buckets |
| HashSegment.Segment.ReplaceNode | hazptr/ConcurrentHashMap-detail.h:391-404 | a new node takes the place of a found one, and all references stay counted |
| HashSegment.Segment.UnlinkNode | hazptr/ConcurrentHashMap-detail.h:549-558 | a found node is taken out, and all references stay counted |
| HashSegment.Segment.PushNode | hazptr/ConcurrentHashMap-detail.h:441-442 | a new node becomes the head of a bucket, and all references stay counted |
| HashSegment.Segment.Clear | hazptr/ConcurrentHashMap-detail.h:593-608 | the segment is empty, with the same number of buckets; the old array is retired |
| HashSegment.Segment.DestroyBuckets | hazptr/ConcurrentHashMap-detail.h:643-652 | destroying a retired array releases what its slots refer to, and changes neither the map nor any other array |
| HashSegment.Segment.DeleteNode | hazptr/ConcurrentHashMap-detail.h:134-140 | deleting a retired node releases the node behind it, and changes nothing in the map |
| HashSegment.Segment.ReclaimAll | hazptr/ConcurrentHashMap-detail.h:643-652 | when everything retired has been destroyed in whatever order, exactly the nodes of the current chains are left, each with a count of one |
| HashSegment.RunGoesIntoEmptyBucket | hazptr/ConcurrentHashMap-detail.h:463-483 | the slot that a shared run is stored into is still empty: only nodes of the same old bucket can get there, as the new number of buckets is a multiple of the old |
| HashSegment.DoubledIndex | hazptr/ConcurrentHashMap-detail.h:767-769 | with twice the buckets, the new bucket of a key modulo the old number is its old bucket |
| HashSegment.OnlyTheTableIsLeft | hazptr/ConcurrentHashMap-detail.h:643-652 | with no retired array and no retired node left, a node has not been deleted exactly if it is in a chain, and its count is one |
| HashSegment.PushOntoTable | hazptr/ConcurrentHashMap-detail.h:432-444 | pushing a new key onto its bucket adds it to the map |
| HashSegment.ReplaceInTable | hazptr/ConcurrentHashMap-detail.h:391-404 | replacing a node changes the value of its key in the map |
| HashSegment.UnlinkFromTable | hazptr/ConcurrentHashMap-detail.h:548-568 | unlinking a node removes its key from the map |
| HashSegment.AdoptInTable | hazptr/ConcurrentHashMap-detail.h:481-483 | sharing a run adds its keys to the map of the new array |
| HashSegment.Segment.RehashByCopying | src/concurrent/concurrent_hashmap_detail.h:405-426 | the copying rehash: twice the buckets, a copy of every node, and the same map; the old array is unchanged and retired |
| HashSegment.Segment.CopyBucket | src/concurrent/concurrent_hashmap_detail.h:413-422 | one old bucket is copied: its keys and no others have moved |
| HashSegment.Segment.InsertOrReplace | src/concurrent/concurrent_hashmap_detail.h:292-336 | the map gains the key or its value is replaced; the segment rehashes first exactly at the threshold |
| HashSegment.Segment.Find | src/concurrent/concurrent_hashmap_detail.h:378-403 | finds the node of a key, with its value, exactly if the segment has the key |
| MapWriters.CountsAreExact | src/concurrent/concurrent_hashmap_detail.h:292-376 | for every interleaving of the programs that insert, replace, erase, rehash and clear with each other, with readers and with reclaimers, the count of every object is the number of cells that point to it, plus the references that the programs have in hand at that point |
| MapWriters.CountsAtRest | src/concurrent/concurrent_hashmap_detail.h:98-120 | when no writer is at work, the count of an object is its in-degree, and it is linked exactly if something points to it: no operation leaks a reference or takes one too many |
| MapWriters.UsedCountsAreNotZero | src/concurrent/concurrent_hashmap_detail.h:98-109 | acquire is only called on linked nodes with a positive count, and the assertion in release that the count is not zero never fails |
| MapWriters.WritersNeverFault | src/concurrent/concurrent_hashmap_detail.h:292-424 | every object and cell that the next step of a writer under the lock names is there, and the cell its walk has come to is one of the segment or of a linked object |
| MapWriters.StoreNextIsStore | src/concurrent/concurrent_hashmap_detail.h:315-321 | the store that replaces or erases a node balances: with the successor acquired before, what is left to release is the node |
| MapWriters.StoreHeadIsStore | src/concurrent/concurrent_hashmap_detail.h:331-333 | the store that inserts at the head of a bucket balances: the new node takes over the reference of the bucket to the old head |
| MapWriters.PublishIsStore | src/concurrent/concurrent_hashmap_detail.h:423-424 | the one store that publishes a new bucket array balances for all of its clones and shared runs at once, and leaves the old array to retire |
| MapWriters.OthersKeepBuilding | src/concurrent/concurrent_hashmap_detail.h:405-424 | a step of any other thread leaves a bucket array that is being built as it is, and all that its cells lead to linked |
| MapWriters.SetNewFits | src/concurrent/concurrent_hashmap_detail.h:415-421 | making a clone lead to the head of its bucket and the bucket to the clone keeps every reference of the unpublished array accounted for, and so does the store of a shared run into its bucket |
| MapWriters.ShareToFits | hazptr/ConcurrentHashMap-detail.h:482-483 | so does acquiring a run while the old chain leads to it |
| MapWriters.PathStays | src/concurrent/concurrent_hashmap_detail.h:309-330 | what a writer has walked along stays linked while it holds the lock, whatever is released or reclaimed meanwhile |
| MapWriters.MapStepKeepsInv | src/concurrent/concurrent_hashmap_detail.h:292-446 | every step of a writer's program, of a reader and of a reclaimer keeps the invariant: what each writer holds is what its program counter says |
| MapWriters.MapRunKeepsInv | src/concurrent/concurrent_hashmap_detail.h:292-446 | so it holds in every state of every run |
| MapWriters.ProtectedFromWriters | src/concurrent/hazptr.hpp:110-145 | no object under a validated hazard pointer is deleted, whatever these programs do |
| MapWriters.ClearIsRightIff | src/concurrent/concurrent_hashmap_detail.h:439-446 | a clear keeps the counts right if and only if the array that it has read before it took the lock is still the current one |
| MapWriters.TwoClearsRetireOneArray | hazptr/ConcurrentHashMap-detail.h:593-602 | a run of two clears at whose end one is about to retire the array that the other has retired, and nothing leads to the array that the other had put in its place |
| MapChanges.StoreNextChanges | src/concurrent/concurrent_hashmap_detail.h:311-321 | the store that erases makes the cell lead past the node, the one that replaces makes it lead to the new node, which leads where the old one did; no other cell of a linked object changes, and the old node is left to release |
| MapChanges.StoreHeadChanges | src/concurrent/concurrent_hashmap_detail.h:331-333 | the store that inserts makes the bucket lead to the new node and the new node to what the bucket led to, and changes no other cell |
| MapChanges.PublishChanges | src/concurrent/concurrent_hashmap_detail.h:423-424 | the store that publishes an array makes the segment lead to it as it was filled, and changes no other cell |
| MapChanges.FillChanges | hazptr/ConcurrentHashMap-detail.h:481-493 | while an array is filled, a clone goes in front of what its bucket led to, and a run goes into a bucket that leads nowhere |
| MapChanges.OthersChangeNothing | src/concurrent/concurrent_hashmap_detail.h:292-436 | no other step under the lock changes a cell that anybody can come to |
| MapChanges.OutsideChangesNothing | src/concurrent/concurrent_hashmap_detail.h:98-120 | nor does a step without the lock |
| MapChanges.EraseAlone | src/concurrent/concurrent_hashmap_detail.h:338-376 | from every state in which the lock is free, an erasure that nobody interferes with, of the node that a path leads to, makes the end of the path lead to the next node, changes nothing else, releases the lock and has the node to release |
| MapChanges.ReplaceAlone | src/concurrent/concurrent_hashmap_detail.h:307-324 | in the same way a replacement puts a new node in the place of the one that a path leads to |
| MapChanges.InsertAlone | src/concurrent/concurrent_hashmap_detail.h:329-335 | and an insertion puts a new node in front of what a bucket led to |
| MapChanges.CloneAlone | src/concurrent/concurrent_hashmap_detail.h:415-421 | while a writer fills a new array it can put a clone in front of any of its buckets |
| MapChanges.ShareAlone | hazptr/ConcurrentHashMap-detail.h:481-483 | and make an empty bucket lead to any run that it has come to |
| MapChanges.PublishAlone | src/concurrent/concurrent_hashmap_detail.h:423-424 | and publish the array, after which the old one is left to release |
| MapChanges.FinishAlone | src/concurrent/concurrent_hashmap_detail.h:98-105 | what a writer has left to release it can release at any time; the count goes down by one and the last reference retires the object |
| MapChanges.DropAlone | hazptr/ConcurrentHashMap-detail.h:339-342 | a new node that was not needed is deleted without having been published |
| MapChanges.ClearAlone | src/concurrent/concurrent_hashmap_detail.h:439-446 | from every state in which the lock is free, a clear that nobody interferes with makes the segment lead to an empty array, changes nothing else, and has the old array to release |
| CountedQueue.DeletesWhenHoldersMatchDebt | src/nonlock_free_queue.h:40-55 | a step on the count word of a node deletes it exactly when both counted pointers are gone and the holders left equal the node's debt modulo 2^30 |
| CountedQueue.CleanIffNeverStale | src/nonlock_free_queue.h:97-133 | the internal count of every pushed node is, modulo 2^30, the references held less those that a pointer still has to hand over, and the node is deleted once, exactly when both pointers are gone and nobody holds it, in every state of a run - if and only if no push of the run exchanges a tail that has moved on |
| CountedQueue.HeldNodeIsNotDeleted | src/nonlock_free_queue.h:40-55 | in such a run a pushed node is not deleted while a thread holds a counted reference on it |
| CountedQueue.LastHolderDeletes | src/nonlock_free_queue.h:79-96 | in such a run it has been deleted, once, when both pointers are gone and nobody holds it |
| CountedQueue.FirstNodeIsDeletedUnderTwo | src/nonlock_free_queue.h:59-65 | in such a run the constructor's node, whose pointers start with external count 0, is deleted by the step that leaves exactly two threads holding it |
| CountedQueue.OneProducerIsNeverStale | src/nonlock_free_queue.h:97-133 | with one push at a time and any number of pops, no exchange is stale |
| CountedQueue.FirstNodeIsDeletedWhileHeld | src/nonlock_free_queue.h:59-65 | a run in which the constructor's node is deleted while two pushes hold it |
| CountedQueue.StalePushDeletesHeldNode | src/nonlock_free_queue.h:124-146 | a run in which a push sets the data of a node that a pop has emptied, exchanges a tail that has moved on, and a pushed node is then deleted while a pop reads it |
| QueueOrder.FifoWhileNeverStale | src/nonlock_free_queue.h:97-151 | in every run without a stale exchange, for one with a single producer, the pop that exchanges the head after j others comes back with the value that the push was called with which exchanges the tail after j others |
| QueueOrder.OrderedIffNeverStale | src/nonlock_free_queue.h:97-151 | in every state of a run the nodes lead from the head to the tail in the order in which pushes have exchanged the tail, each with the value of the next push - if and only if no exchange of the run is stale |
| QueueOrder.EmptyMeansEmpty | src/nonlock_free_queue.h:134-141 | in such a run a pop finds the queue empty only if as many pops have exchanged the head as pushes the tail |
| QueueOrder.StepKeepsOrdered | src/nonlock_free_queue.h:97-151 | every step but a stale exchange keeps the order: each node that the head has not moved past leads to the next and has the value of the push that brought it |
| QueueOrder.RunIsOrdered | src/nonlock_free_queue.h:97-151 | so it holds in every state of a run without a stale exchange |
| QueueOrder.PushEndsAppended | src/nonlock_free_queue.h:97-133 | a push never gives up: when it returns, it has exchanged the tail |
| QueueOrder.PushAlone | src/nonlock_free_queue.h:97-133 | a push that nobody interferes with appends its value, if no other push is between setting the data and exchanging the tail |
| QueueOrder.PopAlone | src/nonlock_free_queue.h:134-151 | a pop that nobody interferes with comes back with the value that comes next in the order, and without one exactly if there is none |
| CountedQueue.StepKeepsInv | src/nonlock_free_queue.h:66-151 | every atomic step keeps the balance of internal count, external counts, holders and debt of every node |
| CountedQueue.RunKeepsInv | src/nonlock_free_queue.h:66-151 | so it holds in every state of every run |
| PoolStacks.EachNodeIsInOnePlace | src/pool.h:309-373 | every node is at all times in exactly one of the market stack, the collective stack, one thread's cache, one holder or one thread's push |
| PoolStacks.NothingAppearsTwice | src/pool.h:167-194 | and appears there once; a cache never exceeds its capacity |
| PoolStacks.CollectiveIsNeverKept | src/pool.h:353-373 | nodes of the collective are never in a cache and never on the market, and other nodes are never in the collective stack |
| PoolStacks.PopInstallsSuccessor | src/pool.h:375-394 | a pop CAS that succeeds takes off the top of the stack and installs the word of the node below it, if one node is pushed fewer than 2^32 times during the pop |
| PoolStacks.MatchIsAMultiple | src/pool.h:375-394 | a pop CAS, however late, finds the word it expects exactly if the node is on top again and has been pushed a multiple of 2^32 times since |
| PoolStacks.TryPopAlone | src/pool.h:309-333 | a try_pop that nobody interferes with takes the youngest node of its own cache; if that is empty, the top of the market; if that is empty too, the top of the collective; and nothing exactly if all three are empty |
| PoolStacks.NoNodeMeansEmpty | src/pool.h:309-394 | a try_pop that comes back without a node, for any interleaving, has seen first the market and after that the collective empty |
| PoolStacks.ReleaseAlone | src/pool.h:353-373 | a release that nobody interferes with puts a node of the collective on top of the collective, and any other into the thread's cache or, once that has 7 nodes, on top of the market |
| PoolStacks.Build | src/pool.h:283-307 | construction succeeds exactly if each of the two lists gets a node, and otherwise fails at the market's list before the collective's; the loop then builds the two stacks, each running through its nodes in order, with every node pushed once |
| PoolStacks.OneListHasNoNode | src/pool.h:280-307 | ten nodes of which none, or all, are the collective's: neither pool can be constructed |
| PoolStacks.PushBack | src/pool.h:113-126 | the node before a new one leads to it with the tag that the new one had, which is then advanced |
| PoolStacks.PushInto | src/pool.h:414-430 | onto an empty stack: the head's word with its tag, which is advanced, and null behind the tail; it fails exactly if the list has no node |
| PoolStacks.TaggedRoundTrip | src/pool.h:94-104 | index and low half of the tag come back out of the 64-bit word, which depends on nothing else, so equal words mean equal indices and tags modulo 2^32; only the index of all ones can yield the null index |
| PoolStacks.StepKeepsInv | src/pool.h:309-430 | every atomic step of getting and releasing keeps the invariant |
| PoolStacks.RunKeepsInv | src/pool.h:309-430 | so it holds in every state of every run |
| SkipList.List.constructor | src/container/skiplist.h:25-30 | an empty list of any initial height |
| SkipList.List.SearchWithPrevs | src/container/skiplist.h:138-152 | yields the first node that is not less, and on every layer the last one that is |
| SkipList.List.Search | src/container/skiplist.h:186-198 | yields the first node that is not less |
| SkipList.List.Advance | src/container/skiplist.h:142-149 | one layer of the search: on to the last node of the layer that is less |
| SkipList.List.Insert | src/container/skiplist.h:44-68 | the contents become the sorted list with one more value, or stay when the value exists and is not forced; reports whether it existed; the value is lost exactly if the list is of height 0 and its size is 0; no node that has left the list stays unfreed |
| SkipList.FirstInsertIsLost | src/container/skiplist.h:25-30 | a list constructed with height 0, after its first insert: size 1 and no value |
| SkipList.List.Remove | src/container/skiplist.h:70-90 | the contents lose their first such value, if any; nothing leads to the freed node, and no node that has left the list stays unfreed |
| SkipList.List.RemoveNode | src/container/skiplist.h:83-87 | a found node is taken out of each of its layers and freed |
| SkipList.List.Find | src/container/skiplist.h:104-107 | exactly if the contents have the value |
| SkipList.List.GrowForOneMore | src/container/skiplist.h:45-51 | one more layer exactly if one more value exceeds the size limit of the height, and the height is below 24 |
| SkipList.List.GrowHeight | src/container/skiplist.h:92-102 | a higher head and the same contents; the old head is freed |
| SkipList.List.AddNode | src/container/skiplist.h:60-64 | a node of any height up to the list's is linked in on each of its layers |
| SkipList.List.GetHeight | src/container/skiplist-inl.h:76-85 | between 1 and the height of the list, and 0 for a list of height 0 |
| SkipList.GrowKeepsLayers | src/container/skiplist.h:92-102 | a head that takes over the pointers of the old one changes no layer |
| SkipList.LayersAreLists | src/container/skiplist.h:109-117 | following the pointers of a layer from the head goes through exactly the nodes that reach above it, in order of data; each layer is a subsequence of the one below, and the bottom layer has all nodes |
| SkipList.LinkStep | src/container/skiplist.h:61-64 | linking on one layer makes that layer right for the longer list and changes no other |
| SkipList.UnlinkStep | src/container/skiplist.h:83-85 | unlinking on one layer makes that layer right for the shorter list and changes no other |
| SkipList.InsertValueIsMultisetInsert | src/container/skiplist.h:59-66 | the contents stay sorted and gain the value as a multiset |
| SkipList.RemoveValueIsMultisetRemove | src/container/skiplist.h:79-89 | the contents stay sorted and lose one such value as a multiset |
| RingBuffer.Ring.constructor | src/container/ringbuffer.h:111-114 | an empty buffer |
| RingBuffer.Ring.EmplaceBack | src/container/ringbuffer.h:260-277 | a full overwriting buffer loses its oldest element, a full one that does not overwrite is left alone; otherwise the element is added at the end; it fails, with a division by zero, exactly if the buffer overwrites and has no slots |
| RingBuffer.Ring.PopFront | src/container/ringbuffer.h:153-162 | the oldest element goes; nothing happens to an empty buffer |
| RingBuffer.Ring.At | src/container/ringbuffer.h:188-191 | the element at a logical index, through the wrapped slot |
| RingBuffer.Ring.Front | src/container/ringbuffer.h:172-175 | the oldest element |
| RingBuffer.Ring.Back | src/container/ringbuffer.h:164-167 | the newest element |
| RingBuffer.Ring.ClearTrivial | src/container/ringbuffer.h:246-250 | the buffer is empty |
| RingBuffer.Ring.ClearEach | src/container/ringbuffer.h:252-258 | the buffer is empty |
| RingBuffer.Ring.Forward | src/container/ringbuffer.h:58-67 | iterating from begin to end sees the contents in order |
| RingBuffer.Ring.Backward | src/container/ringbuffer.h:204-209 | iterating from rbegin to rend sees the contents in reverse |
| RingBuffer.ShiftedIsLastN | src/container/ringbuffer.h:260-277 | adding elements one by one keeps exactly the last capacity of all that were added |
| RingBuffer.TimeWindow.constructor | small_test/window.cc:264-267 | an empty window of any capacity |
| RingBuffer.TimeWindow.EmplaceBack | small_test/window.cc:273-278 | with timestamps in order the window is the longest suffix of everything added that fits the capacity and lies within the gap of the newest item; in any order it is the old window, one item on, without what the new time makes too old; it fails exactly with a capacity of 0 |
| RingBuffer.TimeWindow.RemoveExpiredData | small_test/window.cc:280-288 | drops items from the front while they are too old |
| RingBuffer.WindowMovesOn | small_test/window.cc:273-288 | the longest fitting suffix of a longer input is the old one, one item on, without its expired front |
| RingBuffer.FixedWindow.constructor | small_test/window.cc:325-328 | an empty window |
| RingBuffer.FixedWindow.EmplaceBack | small_test/window.cc:335-338 | keeps the last items up to its size; it fails exactly with a size of 0 |
| RingBuffer.FixedWindow.Resize | small_test/window.cc:352-359 | keeps the last items that fit the new size, in order; it fails exactly if the new size is 0 and there are items |
| RingBuffer.NoRoomForAnItem | small_test/window.cc:352-359 | windows for no items can be constructed, but adding to either kind fails, and so does shrinking a window with an item to size 0 |
| TopologicalSort.Graph.constructor | small_test/graph_toplogical_sort.cpp:20-24 | an empty graph |
| TopologicalSort.Graph.AddVertex | small_test/graph_toplogical_sort.cpp:22-24 | one more vertex; its edges may have been there before, and nobody checks whether it is one already |
| TopologicalSort.Graph.AddOutput | small_test/graph_toplogical_sort.cpp:14-17 | an edge between any two nodes, vertices or not, on both sides |
| TopologicalSort.Graph.SortForward | small_test/graph_toplogical_sort.cpp:34-51 | vertices only, each at most once and after all its inputs, if and only if no vertex without inputs was added twice; then all of them if and only if no vertex is on a cycle or has an input that is not a vertex |
| TopologicalSort.Graph.SortBackward | small_test/graph_toplogical_sort.cpp:60-77 | the same for outputs; where no edge leaves the vertices, all of them on the same graphs as the forward sort |
| TopologicalSort.SameCyclesBothWays | small_test/graph_toplogical_sort.cpp:60-77 | where no edge leaves the vertices there is a cycle along the inputs exactly if there is one along the outputs |
| TopologicalSort.Graph.QueueSources | small_test/graph_toplogical_sort.cpp:36-41 | exactly the vertices without inputs are queued, in order and as often as they were added, and the count of each vertex is its number of inputs |
| TopologicalSort.Graph.Sort | small_test/graph_toplogical_sort.cpp:34-51 | the two loops, for either direction |
| TopologicalSort.Graph.TakeEdges | small_test/graph_toplogical_sort.cpp:45-50 | the inner loop: no count goes up, and if no source was added twice, the counts are those of the edges left and exactly the ready vertices are queued |
| TopologicalSort.AddedTwice | small_test/graph_toplogical_sort.cpp:22-24 | a vertex without inputs that is added twice is sorted twice |
| TopologicalSort.TakeEdge | small_test/graph_toplogical_sort.cpp:45-50 | taking one edge away keeps the counts of the edges left, and a node is queued exactly when its count becomes zero |
| TopologicalSort.SortedMeansAcyclic | small_test/graph_toplogical_sort.cpp:43-51 | a complete order that respects the edges rules out cycles, and inputs that are not vertices |
| TopologicalSort.StuckMeansCycle | small_test/graph_toplogical_sort.cpp:43-51 | where all inputs are vertices, a vertex that is never queued lies behind a cycle |

## Left out

- Memory orders and fences weaker than sequential consistency, in all concurrent modules.
- Bounded queue: overflow of 64-bit tickets, alignment, the two slot layouts, and `reserve_and_clear` beside other operations.
- moodycamel queue: exception paths, the roll-back of `enqueue_bulk` and `rewind_block_index_tail`, tokens, the producer hash, swap
  and move, memory statistics, the explicit producer's own block index, and the blocks themselves.
- BlockIndex.ImplicitIndex.constructor: does not model a failed allocation of the very first index, after which inserting fails.
- BlockIndex.ImplicitIndex.NewBlockIndex: does not model a successful allocation of more than 2^64 / BLOCK_SIZE entries, in which lookups
  would go wrong.
- Hash maps: `reserve`, `max_size`, the widths of the reference counts, iterators and `for_each`, and the `find` of
  hazptr/ConcurrentHashMap-detail.h that protects both nodes with one holder. Chains are nodes in a heap of numbered objects,
  and a bucket array is a sequence that is reassigned, so aliasing of arrays outside the segment is not modelled.
- HashSegment.Segment.Find: is a find while nobody writes; what a find returns for a key while the map changes is not stated, as the
  concurrent model has no keys.
- HashSegment.Segment.ReclaimAll: reclaims with no reader protecting anything; readers are in the concurrent model of hazard pointers.
- HazptrReclaim.Manager.Retire: does not model destructors that retire other objects in turn; chains of releases are in the hash
  map models. The thread-local record cache is not modelled.
- CountedQueue.DeletesWhenHoldersMatchDebt: says nothing about what the program does after it has used a deleted node, which is
  undefined there.
- Pool: the accessor of per-thread caches for several pools, `PooledObject`, and objects made when the pool is empty.
- SkipList.List.Insert: models a value type with a total order whose equality is `==`, as for integers; nodes are numbered objects, so
  that a freed one can be told from a live one.
- RingBuffer.TimeWindow.EmplaceBack: timestamps are unbounded integers, so the overflow of their difference is not modelled.
- Ring buffer: the copy constructor, which copies physical slots, and the no-op `clear` of small_test/window.cc for trivial types.
- src/lock_free_queue.h, src/stack.h, hazptr/swmr_list, src/concurrent/vector.h, src/concurrent/thread_pool.h and the language
  demos: not modelled; several are incomplete or leave out a release or a validation.
