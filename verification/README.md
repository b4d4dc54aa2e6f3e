# RT-Thread kernel model

A Dafny model of the core of the RT-Thread kernel (rt-thread/src) with proofs about it: the two heap
allocators, the blocking IPC objects, the ready-queue scheduler with its time slices, the lock
protocol of the multi-core build, the fixed-block pool, and the bounded formatter.

The configuration is the 32-bit one: `RT_ALIGN_SIZE` 4, `sizeof(struct heap_mem)` 12,
`sizeof(struct rt_memheap_item)` 24, no `RT_USING_MEMTRACE`. Machine words are integers with their
wrap-around written out (`RtDef.Wrap`); a header, a list node or a pool block is named by its offset.

## How it is built

Every component has a specification on values (modules ending in `Spec`, or the first module of the
file) and, where the source updates fields in place, a class whose methods follow the source branch by
branch and are proved equal to the specification. The laws about all states and all runs are lemmas
about the specification. The modules ending in `Effects`, and FormatText.dfy, say for each call what it
answers and the whole state it leaves, from the state before alone and without the specification's own
helpers, so that a step that is skipped, swapped or taken in the wrong branch contradicts one of them; on
them stand laws about runs, such as how holds count or who owns a block.

| file | part of the kernel |
|---|---|
| RtDef.dfy, Sequences.dfy | widths, alignment; sequences without repeats |
| BlockList.dfy, BlockListExact.dfy, SmallMemSpec.dfy, SmallMemLaws.dfy, SmallMemEffects.dfy, SmallMem.dfy | mem.c and the aligned allocation of kservice.c |
| RtList.dfy | the intrusive ring of rtservice.h |
| MemHeapSpec.dfy, MemHeapEffects.dfy, MemHeap.dfy | memheap.c |
| WaitList.dfy, Semaphore.dfy, SemaphoreEffects.dfy, Mutex.dfy, MutexEffects.dfy, Event.dfy, EventEffects.dfy, Mailbox.dfy, MailboxEffects.dfy, MessageQueueSpec.dfy, MessageQueueEffects.dfy, MessageQueue.dfy, MessageDeque.dfy, MessageQueueTrace.dfy | ipc.c |
| Bitmap.dfy, SchedulerSpec.dfy, SchedulerLaws.dfy, SchedulerFairness.dfy, SchedulerEffects.dfy, Scheduler.dfy | scheduler.c (one core), clock.c, `__rt_ffs` |
| SmpLockSpec.dfy, SmpLockEffects.dfy, SmpLock.dfy | cpu.c and the `RT_USING_SMP` half of scheduler.c |
| MemPoolSpec.dfy, MemPoolEffects.dfy, MemPool.dfy | mempool.c |
| FormatSpec.dfy, FormatText.dfy, FormatGrammar.dfy, Format.dfy | `rt_vsnprintf` and `print_number` of kservice.c |

Concurrency is modelled by steps: a region that runs with interrupts off is one step, a blocking call
is one step up to the point where it schedules and another one from the point where the thread goes
on, and a timeout may fire at any step while a thread waits. The message queue copies outside its
locked regions, so a copy is a sequence of one-byte steps that anything may interleave with.
`rt_thread_suspend`, `rt_thread_resume`, the timer and `RT_THREAD_CTRL_CHANGE_PRIORITY` appear as what
their call sites rely on; thread.c and timer.c are not part of this model. A waiter's priority may
change at any step while it waits, as `rt_mutex_take` does it to an owner that waits for something
else; the waiter then stays where it stands. A thread's place in a waiting list carries a ticket that
numbers the suspensions; the source does not store it.

What the callers of a message queue see of a run is its trace of events (a message offered, entered,
taken, delivered, a reset); MessageDeque.dfy says which traces a deque accepts and where they lead it,
without nodes, memory or copying, and MessageQueueTrace.dfy proves that every run is one of them.

## Where the code and its promises part

* `rt_malloc` of the last three sizes of the type returns a minimum block (`SmallMemLaws.MallocServes`,
  with a heap in `SmallMemLaws.LastSizeGetsMinimum`), and `rt_realloc` to one of them frees the block
  (`SmallMemLaws.NullReallocKeepsBlock`, `SmallMemLaws.NullReallocFrees`). `rt_memheap_alloc` returns a
  minimum block for them too (`MemHeapLaws.AllocServes`, `MemHeapLaws.LastSizeGetsMinimum`).
* `rt_malloc` can miss a last block that fits exactly (`SmallMemLaws.FirstFitIsExact`, with a heap of
  twelve bytes in `SmallMemLaws.LastBlockIsMissed`), and its scan
  never ends for a request that fits the heap when the heap is smaller than the minimum block that the
  request is rounded up to (`SmallMemLaws.ScanNeverEnds`, with four bytes of a four-byte heap in
  `SmallMemLaws.TinyHeapScansForever`).
* `rt_realloc` to a size that is smaller, but by no more than a header and a minimum block, does not keep
  the block: it is served by a new one, and fails if there is none (`SmallMemEffects.ReallocMoves`).
* `rt_malloc_align` leaves too little room exactly when its 32-bit size computation wraps
  (`SmallMem.AlignedRange`, with a request in `SmallMem.AlignedRequestWraps`).
* `rt_memheap_alloc` refuses a request equal to the available bytes (`MemHeapLaws.AllocFails`, with a
  pool in `MemHeapLaws.ExactFitIsRefused`), and the
  guard of the in-place growth of `rt_memheap_realloc` wraps for the last sizes of the type, where the
  growth would run past the pool: the call keeps the pool sound exactly when it does not grow a block on
  a wrapped guard (`MemHeapLaws.GrowGuard`, `MemHeapLaws.GrowIsSound`, `MemHeapLaws.ReallocIsSound`, with
  a pool and a size in `MemHeapLaws.GrowWraps`).
* `rt_mq_recv` fills the buffer it is given up to the queue's message size, whatever the length of the
  message (`MessageQueueLaws.ReceivedBytes`): each byte behind a shorter message is that of the last
  message long enough to reach it that went through the node, or what the memory held at the start
  (`MessageQueueLaws.StaleBytes`; a run in `MessageQueueLaws.ShortMessageIsPadded`).
* A timeout can leave the owner of a mutex lifted. With one mutex at a time inheritance is exact over a
  whole run exactly when no timeout removes a first waiter that lifts the owner while the second one
  does not lift it as far (`MutexSpec.TimeoutExact`, `MutexSpec.RunExact`; a run in
  `MutexSpec.TimeoutLeavesBoost`).
* Priority inheritance breaks for nested mutexes, in two places: a release falls back to the priority
  held at acquisition (`MutexSpec.NestedRelease`; a run in `MutexSpec.NestingLosesInheritance`), and a
  blocking take lifts the owner but nobody whom the owner waits for (`MutexSpec.NestedTake`; a run in
  `MutexSpec.ChainLosesInheritance`). The lifted owner also stays where it stands in the list it waits in
  (`MutexSpec.NestedTakeOrder`; a run in `MutexSpec.LiftUnsortsList`). Over a whole run with any nesting
  everybody inherits exactly when each take and each final release meets its condition
  (`MutexSpec.RunInherits`).
* The waiters of a PRIO object are in serving order only as long as no waiter's priority changes against
  its neighbours (`WaitList.ReprioOrder`; over runs `Semaphore.RunOrder`, `EventSpec.RunOrder`,
  `MailboxSpec.RunOrder` and `MessageQueueLaws.RunOrder`): a release can serve a worse
  waiter first (`Semaphore.LiftedWaiterIsPassedOver`). Conservation and the absence of lost wakeups do
  not depend on it.
* The comment above `rt_enter_critical` allows 65535 nested sections; the counter is signed, and the
  limit is 32768 (`SchedulerLaws.CriticalDepth`).
* A thread created with no ticks has slices of 2^32 ticks: the counter is counted down before it is
  compared with zero (`SchedulerFairness.SliceRuns`, `SchedulerFairness.NextSlice`).
* A memory pool wakes its newest waiter first (`MemPoolSpec.FreeServesNewest`), and initialising a pool
  without room for one block writes in front of it (`MemPool.LastStoreLands`). For four block sizes it
  divides by zero, and for the last three a block has no payload (`MemPool.StrideMeaning`).
* `%o` prints in base sixteen (`FormatSpec.OctalPrintsHex`), precision zero drops every digit
  (`FormatSpec.NumberLength`, `FormatSpec.NumberReadsBack`), and a width cuts a string (`FormatSpec.StringLength`).

## Model

| member | source | states |
|---|---|---|
| RtDef.AlignUpMeaning | rt-thread/include/rtdef.h:336 | `RT_ALIGN` gives the next multiple of four, except for the last three values, where it gives zero (if and only if) |
| BlockList.FreeAtKeeps | rt-thread/src/mem.c:156-194 | freeing a used block and joining its free neighbours keeps the chain and leaves no two free neighbours |
| BlockList.FreeAtAllocated | rt-thread/src/mem.c:156-194 | joining neighbours takes exactly the freed block out of the allocated ones |
| BlockListExact.ListDetermined | rt-thread/src/mem.c:156-194 | a list of blocks that tiles the heap without free neighbours is determined by its allocated blocks |
| SmallMemSpec.TakeKeeps | rt-thread/src/mem.c:305-387 | cutting or taking whole a fitting block keeps the chain, the absence of free neighbours and the count of used bytes |
| SmallMemSpec.ShrinkKeeps | rt-thread/src/mem.c:471-504 | shrinking a block in place keeps the chain and the absence of free neighbours, and lowers the used bytes by what is cut off |
| SmallMemLaws.FirstFitIsExact | rt-thread/src/mem.c:305-312 | the search returns the lowest fitting block; it returns none exactly if the only fitting block is a last one whose payload is exactly the size |
| SmallMemLaws.LastBlockIsMissed | rt-thread/src/mem.c:305-312 | a freshly initialised heap whose one block fits the request and is not found |
| SmallMemLaws.ScanFromLowestFree | rt-thread/src/mem.c:305-307 | starting from `lfree` finds the same block as starting from the first |
| SmallMemLaws.ScanNeverEnds | rt-thread/src/mem.c:280-312 | every iterate of the scan, from `lfree` along the headers to the end header and its self-loop, passes the unsigned guard and finds no block, if and only if the request is nonzero, fits the heap, and the heap is smaller than a minimum block |
| SmallMemLaws.TinyHeapScansForever | rt-thread/src/mem.c:280-312 | a freshly initialised heap of four bytes and a request for four |
| SmallMemLaws.MallocAdds | rt-thread/src/mem.c:305-403 | `rt_malloc` adds one new block to the allocated ones and changes no other |
| SmallMemLaws.MallocServes | rt-thread/src/mem.c:272-300 | the block is large enough for the request if and only if `RT_ALIGN` does not wrap |
| SmallMemLaws.LastSizeGetsMinimum | rt-thread/src/mem.c:272-300 | a freshly initialised heap that serves a request for 2^32 - 1 bytes with a block of twelve |
| SmallMemLaws.FreeRemoves | rt-thread/src/mem.c:552-614 | `rt_free` takes exactly the named block out of the allocated ones |
| SmallMemLaws.ReallocMeaning | rt-thread/src/mem.c:421-516 | `rt_realloc` frees, fails leaving the heap as it was, or replaces the block by one that is a cut of it or entirely new and holds the size; all other blocks stay |
| SmallMemLaws.NullReallocKeepsBlock | rt-thread/src/mem.c:431-448 | a NULL result for a nonzero size leaves the old block allocated if and only if `RT_ALIGN` does not wrap |
| SmallMemLaws.NullReallocFrees | rt-thread/src/mem.c:431-448 | a live block that `rt_realloc` to 2^32 - 1 bytes frees while it returns NULL |
| SmallMemLaws.FreeUndoesMalloc | rt-thread/src/mem.c:156-194 | freeing what was just allocated restores the list of blocks, and with it `lfree` and `used_mem` |
| SmallMemLaws.AllocatedApart | rt-thread/src/mem.c:305-403 | live blocks are disjoint, lie inside the heap, and their payloads are aligned |
| SmallMemLaws.StepKeeps | rt-thread/src/mem.c:272-614 | each operation keeps the invariant, and raises `max_mem` to the most that was in use at any moment of it |
| SmallMemLaws.RunKeeps | rt-thread/src/mem.c:272-614 | over every run the chain tiles the heap without free neighbours, and `max_mem` is the true high-water mark |
| SmallMemLaws.InitialInv | rt-thread/src/mem.c:233-256 | initialisation establishes the invariant |
| SmallMemEffects.MallocEffect | rt-thread/src/mem.c:272-410 | the answer is NULL if and only if the request is nothing, exceeds the heap, or no block can serve it; otherwise the lowest block that can is cut exactly behind the request if a header and twelve bytes more remain, or handed out whole, and the bytes in use rise by just that |
| SmallMemEffects.MallocGivesBlock | rt-thread/src/mem.c:305-403 | that block, and no other, is new among the allocated ones |
| SmallMemEffects.FreeEffect | rt-thread/src/mem.c:552-614 | freeing a block leaves one free block over it and its free neighbours, and every other block stays |
| SmallMemEffects.FreeNothing | rt-thread/src/mem.c:556-575 | NULL and addresses outside the heap change nothing; the model says the same of an address without a block, which the source asserts against |
| SmallMemEffects.ReallocEnds | rt-thread/src/mem.c:431-442 | too large a size is refused, and zero frees the block |
| SmallMemEffects.ReallocKeepsAll | rt-thread/src/mem.c:463-469 | the aligned size the block has changes nothing |
| SmallMemEffects.ReallocCuts | rt-thread/src/mem.c:471-504 | a size that leaves more than a header and twelve bytes cuts the block at its place to exactly that size and gives the rest back |
| SmallMemEffects.ReallocMoves | rt-thread/src/mem.c:505-515 | any other size, a slightly smaller one included, is served by `rt_malloc`, and the old block is freed unless that fails |
| SmallMemEffects.ReallocOther | rt-thread/src/mem.c:444-457 | NULL allocates, and an address outside the heap comes back; the model says the same of an address without a block |
| SmallMem.SystemHeapInit | rt-thread/src/mem.c:204-257 | a heap comes into being exactly if two headers fit the aligned region; it ends inside the region and is one free block, and it begins inside the region if and only if the begin address does not wrap under `RT_ALIGN` |
| SmallMem.Heap.PlugHoles | rt-thread/src/mem.c:156-194 | the joins on the heap array do what the block list says, keep every payload word, and keep `lfree` the lowest free block |
| SmallMem.Heap.Search | rt-thread/src/mem.c:305-312 | the loop over the headers from `lfree` finds the block the specification finds |
| SmallMem.Heap.Serve | rt-thread/src/mem.c:313-386 | header writes, `used_mem`, `max_mem` and `lfree` after serving a request |
| SmallMem.Heap.Malloc | rt-thread/src/mem.c:272-410 | on the array, every `rt_malloc` that returns is the specification's allocation and writes no word of another live payload |
| SmallMem.Heap.Free | rt-thread/src/mem.c:552-615 | the same for `rt_free` |
| SmallMem.Heap.Realloc | rt-thread/src/mem.c:421-516 | the same for every `rt_realloc` that returns, and the first min(old, new) bytes are kept wherever the block ends up |
| SmallMem.Heap.MallocAlign | rt-thread/src/kservice.c:1235-1271 | the aligned range and the saved word lie inside a fresh block; no other payload is written |
| SmallMem.Heap.FreeAlign | rt-thread/src/kservice.c:1280-1286 | frees exactly the block whose address was saved |
| SmallMem.AlignedRange | rt-thread/src/kservice.c:1242-1264 | the address is aligned and leaves a word in front; the range ends inside the requested bytes if and only if the size computation does not wrap |
| SmallMem.AlignedRequestWraps | rt-thread/src/kservice.c:1242-1264 | a size and an alignment for which the computation wraps and the range runs past the requested bytes |
| RtList.RingLink | rt-thread/include/rtservice.h:58-80 | linking a node into a ring inserts it at that place of the sequence |
| RtList.RingUnlink | rt-thread/include/rtservice.h:86-92 | unlinking a node removes it from the sequence |
| RtList.Nodes.Init | rt-thread/include/rtservice.h:47-50 | the node becomes an empty ring, and every other ring is as before |
| RtList.Nodes.InsertAfter | rt-thread/include/rtservice.h:58-65 | the four pointer writes put the node right behind the other; every other ring is as before |
| RtList.Nodes.InsertBefore | rt-thread/include/rtservice.h:73-80 | the four pointer writes put the node right in front of the other |
| RtList.Nodes.Remove | rt-thread/include/rtservice.h:86-92 | the node leaves the ring and becomes a ring of its own |
| RtList.Nodes.IsEmpty | rt-thread/include/rtservice.h:98-101 | true exactly for an empty ring |
| RtList.Nodes.Len | rt-thread/include/rtservice.h:107-119 | the loop counts the nodes |
| MemHeapLaws.PickMeaning | rt-thread/src/memheap.c:213-224 | the search returns the first entry of the free list that is large enough, and all entries before it are too small |
| MemHeapLaws.AllocFails | rt-thread/src/memheap.c:199-227 | allocation fails if and only if no free block is large enough or the request is not strictly below the available bytes |
| MemHeapLaws.ExactFitIsRefused | rt-thread/src/memheap.c:199-227 | a freshly initialised pool that refuses a request its one free block fits exactly |
| MemHeapLaws.AllocKeeps | rt-thread/src/memheap.c:182-326 | success adds one new block of at least the rounded size, keeps the invariant and sets the high-water mark; failure changes nothing |
| MemHeapLaws.AllocServes | rt-thread/src/memheap.c:190-326 | the block handed out is large enough for the request if and only if `RT_ALIGN` does not wrap |
| MemHeapLaws.LastSizeGetsMinimum | rt-thread/src/memheap.c:190-326 | a freshly initialised pool that serves a request for 2^32 - 1 bytes with a block of twelve |
| MemHeapLaws.GrowGuard | rt-thread/src/memheap.c:406 | the guard of the in-place growth says what it means if and only if the sum does not wrap |
| MemHeapLaws.GrowIsSound | rt-thread/src/memheap.c:406-462 | for a size the guard lets through, growing keeps the invariant if and only if the sum does not wrap |
| MemHeapLaws.ReallocIsSound | rt-thread/src/memheap.c:339-556 | `rt_memheap_realloc` of a live block, for any size, keeps the invariant if and only if it does not grow the block in place on a wrapped guard |
| MemHeapLaws.GrowWraps | rt-thread/src/memheap.c:406-462 | a reachable pool, a live block and a size for which the guard wraps and the invariant is lost |
| MemHeapLaws.GrowKeeps | rt-thread/src/memheap.c:406-462 | growing in place keeps the invariant and replaces exactly that block |
| MemHeapLaws.ShrinkKeeps | rt-thread/src/memheap.c:479-556 | shrinking in place keeps the invariant and replaces exactly that block |
| MemHeapLaws.FreeKeeps | rt-thread/src/memheap.c:603-659 | freeing with its two joins keeps the invariant and removes exactly that block |
| MemHeapLaws.ResizeKeeps | rt-thread/src/memheap.c:370-556 | realloc fails without a change or replaces the block by one that holds the size |
| MemHeapLaws.StepKeeps | rt-thread/src/memheap.c:182-659 | each operation, other than a growth on a wrapped guard, keeps the invariant and the true high-water mark |
| MemHeapLaws.RunKeeps | rt-thread/src/memheap.c:182-659 | over every run: the ring is address-ordered and tiles the pool, the free list holds exactly the free blocks, no two of them touch, each has a minimum payload, and `max_used_size` is the true high-water mark |
| MemHeapLaws.InitialInv | rt-thread/src/memheap.c:102-155 | initialisation establishes the invariant if and only if two headers and a minimum block fit |
| MemHeapEffects.AllocEffect | rt-thread/src/memheap.c:182-326 | NULL if and only if the rounded request is not below the available bytes or no entry of the free list holds it; otherwise the first entry that does is cut exactly behind the request if a header and a minimum block remain, or handed out whole; the rest becomes the head of the free list, and the available bytes fall by just that |
| MemHeapEffects.FreeEffect | rt-thread/src/memheap.c:603-659 | freeing a block leaves one free block over it and its free neighbours, the free list and the available bytes to match, and every other block as it was |
| MemHeapEffects.FreeNothing | rt-thread/src/memheap.c:559-602 | NULL changes nothing; the model says the same of an address without a block, which the source asserts against |
| MemHeapEffects.ReallocOther | rt-thread/src/memheap.c:349-363 | zero frees and NULL allocates; an address without a block, which the source does not check, comes back in the model |
| MemHeapEffects.ReallocKeepsAll | rt-thread/src/memheap.c:479-481 | a size that leaves no room for a header and more than a minimum block changes nothing |
| MemHeapEffects.ReallocCuts | rt-thread/src/memheap.c:479-556 | a smaller size cuts the block at its place to exactly that size; the rest joins a free right neighbour, and the available bytes rise by what is given back, less a header that stays |
| MemHeapEffects.ReallocGrows | rt-thread/src/memheap.c:395-462 | with room to the right the address stays, the block has exactly the size, and the free neighbour keeps the rest |
| MemHeapEffects.ReallocMoves | rt-thread/src/memheap.c:465-477 | any other larger size is served by `rt_memheap_alloc`, and the old block is freed unless that fails |
| MemHeap.Heap.constructor | rt-thread/src/memheap.c:90-165 | the pointer fields represent one free block and the tailer |
| MemHeap.Heap.SplitAt | rt-thread/src/memheap.c:257-261 | the pointer writes of a split insert one header into the address ring |
| MemHeap.Heap.JoinNext | rt-thread/src/memheap.c:633-641 | the pointer writes of a join remove one header from the address ring |
| MemHeap.Heap.Alloc | rt-thread/src/memheap.c:182-336 | on the two rings, `rt_memheap_alloc` is the specification's allocation; `available_size` is the sum of the free payloads |
| MemHeap.Heap.Free | rt-thread/src/memheap.c:559-667 | the same for `rt_memheap_free` |
| MemHeap.Heap.GrowItem | rt-thread/src/memheap.c:406-462 | the same for the in-place growth |
| MemHeap.Heap.ShrinkItem | rt-thread/src/memheap.c:479-556 | the same for the shrink |
| MemHeap.Heap.Realloc | rt-thread/src/memheap.c:339-556 | the same for `rt_memheap_realloc`, other than a growth on a wrapped guard |
| WaitList.EnqueueKeepsOrder | rt-thread/src/ipc.c:116-148 | suspending a thread is a stable insertion: the list stays sorted by priority, and by arrival among equals |
| WaitList.EnqueueMembers | rt-thread/src/ipc.c:116-148 | the insertion adds the newcomer and nobody else, and keeps one entry per thread |
| WaitList.WithoutMembers | rt-thread/src/ipc.c:217-231 | unlinking a thread removes its entry and no other |
| WaitList.WithoutKeepsOrder | rt-thread/src/ipc.c:217-231 | unlinking keeps the serving order |
| WaitList.Suspend | rt-thread/src/ipc.c:109-156 | the loop finds the place that the insertion asks for, by the priorities at that moment |
| WaitList.ResumeAll | rt-thread/src/ipc.c:207-235 | everybody is resumed, in list order |
| WaitList.WithoutOne | rt-thread/src/ipc.c:217-231 | exactly the thread's entry is taken out, and nothing if it has none |
| WaitList.PlaceFound | rt-thread/src/ipc.c:116-148 | a newcomer goes to the end, under PRIO in front of the first that is less urgent |
| WaitList.ReprioOrder | rt-thread/src/ipc.c:978-990 | when the priority of a waiter changes, the list stays in serving order if and only if the new priority suits the waiters right before and right after it; under FIFO it always does |
| WaitList.ReprioQueued | rt-thread/src/ipc.c:978-990 | a change of priority adds, removes and resumes nobody |
| Semaphore.StepKeeps | rt-thread/src/ipc.c:464-684 | each step, a change of a waiter's priority included, keeps the invariant and the balance of units |
| Semaphore.RunConserves | rt-thread/src/ipc.c:464-684 | over every run, resets and changes of priority included, nobody waits while a unit is there, the value stays in 16 bits, and initial value plus releases plus what resets added equals value plus takes |
| Semaphore.StepOrder | rt-thread/src/ipc.c:116-148 | each step keeps the waiters in serving order, a change of priority if and only if it suits the neighbours |
| Semaphore.RunOrder | rt-thread/src/ipc.c:464-684 | over every run the waiters are in serving order in all states if and only if every change of priority suits its place at that moment |
| Semaphore.ReleaseServesFirst | rt-thread/src/ipc.c:600-624 | with the list in serving order, nobody who keeps waiting comes before the waiter a release serves |
| Semaphore.ReleaseFull | rt-thread/src/ipc.c:600-624 | a release fails if and only if the value is at its top |
| Semaphore.LiftedWaiterIsPassedOver | rt-thread/src/ipc.c:600-624 | a run in which a waiter is lifted where it stands and a release serves a less urgent one before it |
| SemaphoreEffects.TakeEffect | rt-thread/src/ipc.c:464-549 | a take succeeds if and only if there is a unit, and takes one; else it times out at once without waiting time, or joins the waiters at the place that suits it |
| SemaphoreEffects.ReleaseEffect | rt-thread/src/ipc.c:600-634 | the first waiter alone is resumed, or the value rises by one, or the release is refused at the top value |
| SemaphoreEffects.ExpireEffect | rt-thread/src/ipc.c:520-542 | a timeout takes out the thread's entry alone |
| SemaphoreEffects.BoundedWaiting | rt-thread/src/ipc.c:464-684 | under FIFO a waiter with k threads in front is served by the (k+1)-st release, whatever else happens in the run |
| SemaphoreEffects.NobodyOvertakes | rt-thread/src/ipc.c:464-634 | under FIFO, while nobody gives up, it waits through k releases and moves one place with each |
| Semaphore.Sem.Take | rt-thread/src/ipc.c:464-549 | the method is the specification's step, in each branch |
| Semaphore.Sem.Release | rt-thread/src/ipc.c:586-634 | the same for the release |
| Semaphore.Sem.Reset | rt-thread/src/ipc.c:652-684 | the method is the specification's step: all waiters are resumed and the value is replaced |
| MutexSpec.InsertSorted | rt-thread/src/ipc.c:124-148 | the insertion by priority keeps the list of waiters sorted |
| MutexSpec.StepKeeps | rt-thread/src/ipc.c:893-1184 | a mutex is free (value 1, no owner, hold 0) or owned (value 0, hold at least 1), and nobody waits in two lists |
| MutexSpec.OnlyOwnerLowersHold | rt-thread/src/ipc.c:1103-1115 | `hold` falls only by a release of the owner; another thread's release changes nothing |
| MutexSpec.StepDisciplined | rt-thread/src/ipc.c:893-1184 | with one mutex at a time, each step keeps inheritance and the threads' own priorities |
| MutexSpec.RunDisciplined | rt-thread/src/ipc.c:893-1184 | over every such run each owner is at least as urgent as all its waiters, and a thread without a mutex has its own priority |
| MutexSpec.FinalRelease | rt-thread/src/ipc.c:1114-1174 | the final release restores the priority held at acquisition and hands over to a waiter as urgent as any |
| MutexSpec.TimeoutExact | rt-thread/src/ipc.c:999-1021 | after a timeout the owner still has exactly the better of its own priority and that of its first waiter, if and only if the thread that timed out was not a first waiter that lifts the owner further than the second one |
| MutexSpec.StepExact | rt-thread/src/ipc.c:893-1184 | inheritance stays exact through every step with one mutex at a time, a timeout included if and only if it takes no lift away |
| MutexSpec.RunExact | rt-thread/src/ipc.c:893-1184 | over every run with one mutex at a time, timeouts included, inheritance is exact in all states if and only if no timeout takes a lift away at its moment |
| MutexSpec.TimeoutLeavesBoost | rt-thread/src/ipc.c:978-1021 | a run from a free mutex after which the owner has the priority of a thread that has timed out |
| MutexSpec.NestedRelease | rt-thread/src/ipc.c:1114-1174 | after a final release, by a thread with any number of mutexes and whatever the order of the lists, everybody still inherits if and only if the restored priority is good enough for the waiters of the thread's other mutexes and the head of the list is its best |
| MutexSpec.NestedTake | rt-thread/src/ipc.c:978-990 | after a take everybody still inherits if and only if the call does not lift the owner or whoever the owner waits for is urgent enough already |
| MutexSpec.NestedTakeOrder | rt-thread/src/ipc.c:978-990 | after a take that lifts the owner the lists are sorted if and only if whoever stands right before the owner in the list it waits in is as urgent |
| MutexSpec.LiftUnsortsList | rt-thread/src/ipc.c:978-990 | a run from free mutexes to a state in which a take leaves a list of waiters unsorted |
| MutexSpec.StepInherits | rt-thread/src/ipc.c:893-1184 | with any nesting, everybody still inherits after a take, a release or a timeout if and only if a take lifts nobody whose own owner stays behind and a final release falls back to a priority good enough and hands over to the best |
| MutexSpec.RunInherits | rt-thread/src/ipc.c:893-1184 | over every run of takes, releases and timeouts with any nesting, everybody inherits in all states if and only if each step meets that condition at its moment |
| MutexSpec.ChainLosesInheritance | rt-thread/src/ipc.c:978-990 | a run from free mutexes to a state in which a take lifts an owner and not the one that keeps that owner waiting |
| MutexSpec.NestingLosesInheritance | rt-thread/src/ipc.c:1114-1125 | a run from free mutexes to a state in which a nested release has lost inheritance |
| MutexEffects.OwnerTakes | rt-thread/src/ipc.c:920-931 | a take by the owner raises `hold` by exactly one and changes nothing else; at 255 it is refused |
| MutexEffects.FreeTaken | rt-thread/src/ipc.c:938-957 | a take of a free mutex records the caller, one hold and the caller's priority |
| MutexEffects.OtherTakes | rt-thread/src/ipc.c:959-1021 | without waiting time another thread's mutex gives a timeout and nothing changes; otherwise the caller joins the waiters at its place and the owner is lifted to its priority if that is better |
| MutexEffects.OwnerReleases | rt-thread/src/ipc.c:1114-1117 | a release of a deeper hold lowers it by exactly one and keeps the owner |
| MutexEffects.LastReleases | rt-thread/src/ipc.c:1117-1174 | the last release restores the priority the mutex remembers, and hands over to the first waiter with one hold or frees the mutex |
| MutexEffects.OtherReleases | rt-thread/src/ipc.c:1103-1112 | a release by anybody else is an error and changes nothing |
| MutexEffects.Expires | rt-thread/src/ipc.c:999-1021 | a timeout takes the thread out of the list it waits in, and changes nothing else |
| MutexEffects.RunDepth | rt-thread/src/ipc.c:893-1184 | over every run with any nesting, what a thread holds of a mutex is what it held, plus its grants, less its releases |
| MutexEffects.OwnsWhileUnreturned | rt-thread/src/ipc.c:893-1184 | from a free mutex a thread owns it if and only if it has been granted it more often than it has released it: k takes need k releases |
| MutexEffects.Exclusion | rt-thread/src/ipc.c:893-1184 | no two threads have both been granted a mutex and not released it |
| Mutex.Lock.Take | rt-thread/src/ipc.c:893-1038 | the method is the specification's step, including the change of the owner's priority |
| Mutex.Lock.Release | rt-thread/src/ipc.c:1076-1184 | the same for the release |
| EventSpec.WalkLeaves | rt-thread/src/ipc.c:1453-1506 | the set only shrinks during a send, and no waiter that is left is satisfied by what remains |
| EventSpec.WalkKeepsOrder | rt-thread/src/ipc.c:1453-1506 | those left keep their order |
| EventSpec.WalkPartition | rt-thread/src/ipc.c:1453-1506 | the waiters before a send are those left and those resumed, merged in list order |
| EventSpec.WalkTurn | rt-thread/src/ipc.c:1461-1504 | each waiter is resumed if and only if it is satisfied by the set without what the CLEAR deliveries before its turn took, and stays otherwise |
| EventSpec.WokenWasSatisfied | rt-thread/src/ipc.c:1461-1504 | each resumed waiter was satisfied by that set and received what it is owed of it |
| EventSpec.WalkDelivers | rt-thread/src/ipc.c:1461-1504 | each resumed waiter gets a non-empty part of what it wanted, all of it under AND |
| EventSpec.ConsumedOnce | rt-thread/src/ipc.c:1489-1504 | a bit taken by a CLEAR waiter goes to no later waiter and does not remain |
| EventSpec.StepKeeps | rt-thread/src/ipc.c:1427-1717 | each step keeps: no suspended waiter is satisfied |
| EventSpec.RunKeeps | rt-thread/src/ipc.c:1427-1717 | the same over every run |
| EventSpec.StepOrder | rt-thread/src/ipc.c:1427-1717 | each step keeps the waiters in serving order, a change of priority if and only if it suits the neighbours |
| EventSpec.RunOrder | rt-thread/src/ipc.c:1427-1717 | over every run the waiters are in serving order in all states if and only if every change of priority suits its place at that moment |
| EventEffects.ReceiveNow | rt-thread/src/ipc.c:1582-1612 | a receive succeeds if and only if the AND or OR condition holds of the set before; it answers exactly the wanted bits that are set; under CLEAR these leave the set, every other bit stays, and without CLEAR the set is unchanged |
| EventEffects.ReceiveLater | rt-thread/src/ipc.c:1614-1671 | otherwise it times out at once without waiting time and changes nothing, or waits with its request at the place that suits it and leaves the set |
| EventEffects.StepBit | rt-thread/src/ipc.c:1427-1717 | a bit is set after a step if and only if it was set or is sent, is not taken under CLEAR, and the step is no reset |
| EventEffects.TakenOnce | rt-thread/src/ipc.c:1427-1717 | over every run, a bit that a CLEAR receive or delivery took is given to nobody before it is sent again |
| EventEffects.GivenWasSet | rt-thread/src/ipc.c:1453-1618 | what is given was set at that moment or is being sent |
| EventEffects.SendResumes | rt-thread/src/ipc.c:1453-1506 | each waiter is resumed if and only if its request is met, bit by bit, by what those resumed before it have left, and gets the bits it wants of that |
| EventEffects.OthersStay | rt-thread/src/ipc.c:1440-1717 | sends, timeouts and resets leave everything they are not about |
| Event.Flags.Send | rt-thread/src/ipc.c:1427-1516 | the send is the specification's step |
| Event.Flags.WalkWaiters | rt-thread/src/ipc.c:1453-1506 | the loop that unlinks as it goes is the specification's walk |
| Event.Flags.Recv | rt-thread/src/ipc.c:1552-1671 | the same for the receive |
| Event.Flags.Reset | rt-thread/src/ipc.c:1689-1717 | all waiters are resumed and the set is empty |
| MailboxSpec.StepKeeps | rt-thread/src/ipc.c:1977-2400 | each step, changes of priority included, keeps the bound and loses no wakeup, in either direction |
| MailboxSpec.StepOrder | rt-thread/src/ipc.c:1977-2400 | each step keeps both lists in serving order, a change of priority if and only if it suits the neighbours |
| MailboxSpec.RunOrder | rt-thread/src/ipc.c:1977-2400 | over every run both lists are in serving order in all states if and only if every change of priority suits its place at that moment |
| MailboxSpec.RunKeeps | rt-thread/src/ipc.c:1977-2400 | over every interleaving: if receivers wait, the mails are no more than the receivers on their way; if senders wait, the free slots are no more than the senders on their way |
| MailboxSpec.RecvBalanced | rt-thread/src/ipc.c:2315-2327 | a receive succeeds if and only if there is a mail, and gives the newest urgent mail or, without one, the oldest plain mail |
| MailboxSpec.RunIsFifo | rt-thread/src/ipc.c:1977-2400 | over every run, urgent mails and resets included, the urgent mails stand in front, the last one first, and the plain mails received followed by those stored are those sent and not dropped by a reset, in order |
| MailboxEffects.SendEffect | rt-thread/src/ipc.c:1977-2104 | a send succeeds if and only if the box has room: the mail goes to the end and the first receiver alone is resumed; a full box is an error at once, or the sender joins the waiting senders at its place |
| MailboxEffects.UrgentEffect | rt-thread/src/ipc.c:2148-2200 | the same with the mail in front and without waiting |
| MailboxEffects.ReceiveEffect | rt-thread/src/ipc.c:2222-2350 | a receive gives the first mail if and only if there is one, and the first sender alone is resumed; an empty box is a timeout at once, or the receiver joins the waiting receivers |
| MailboxEffects.ExpireEffect | rt-thread/src/ipc.c:2292-2300 | a timeout takes out the thread's entries alone |
| Mailbox.SlotIsModulo | rt-thread/src/ipc.c:2069-2073 | the ring's index by comparison is the index modulo the size |
| Mailbox.Box.PushBack | rt-thread/src/ipc.c:2069-2085 | writing at `in_offset` appends to the deque, and `in = (out + entry) mod size` holds again |
| Mailbox.Box.PushFront | rt-thread/src/ipc.c:2161-2181 | stepping `out_offset` back prepends to the deque |
| Mailbox.Box.PopFront | rt-thread/src/ipc.c:2315-2327 | stepping `out_offset` forward takes the head |
| Mailbox.Box.Send | rt-thread/src/ipc.c:1977-2104 | the method is the specification's step; the branch for a full counter is not reached |
| Mailbox.Box.Urgent | rt-thread/src/ipc.c:2148-2200 | the same for the urgent send |
| Mailbox.Box.Recv | rt-thread/src/ipc.c:2222-2350 | the same for the receive |
| Mailbox.Box.Reset | rt-thread/src/ipc.c:2368-2400 | all waiters are resumed and the ring is empty |
| MessageQueueLaws.StepKeeps | rt-thread/src/ipc.c:2721-3244 | each step, also each byte of a copy, keeps: every node is free, queued or in one thread's hands; stored messages are intact; no wakeup is lost |
| MessageQueueLaws.StepOrder | rt-thread/src/ipc.c:2721-3244 | each step keeps both lists in serving order, a change of priority if and only if it suits the neighbours |
| MessageQueueLaws.RunOrder | rt-thread/src/ipc.c:2721-3244 | over every run both lists are in serving order in all states if and only if every change of priority suits its place at that moment |
| MessageDeque.PlainIsFifo | rt-thread/src/ipc.c:2836-2878 | over every sequence of events that a deque accepts, urgent messages stand in front, the last one first, and plain messages leave in the order in which they entered |
| MessageQueueTrace.StepRefines | rt-thread/src/ipc.c:2721-3244 | each step of each caller, read off from its arguments and its answer, is one event that the deque accepts, or none, and leaves the queue holding what the deque holds |
| MessageQueueTrace.RunRefinesDeque | rt-thread/src/ipc.c:2721-3244 | over every interleaving of senders, urgent senders, receivers, timeouts and resets, replaying the events in order gives the messages of the queue, and each receiver gets the message it took as far as its buffer and the message go |
| MessageQueueTrace.FreshIsEmpty | rt-thread/src/ipc.c:2486-2508 | a fresh queue is the empty deque |
| MessageQueueTrace.RunIsFifo | rt-thread/src/ipc.c:2721-3244 | over every run from an empty queue, urgent messages and resets included, plain messages are first in, first out, with the urgent ones in front of them |
| MessageQueueTrace.QueuedWasSent | rt-thread/src/ipc.c:2836-2878 | every queued message is the data of an earlier send or urgent send of the run |
| MessageQueueTrace.ReceivedWasSent | rt-thread/src/ipc.c:3148-3177 | the bytes a receive returns are those of a message sent by an earlier call of the run, as far as that message reaches |
| MessageQueueLaws.ReceivedBytes | rt-thread/src/ipc.c:3148-3149 | a receive returns bytes of the node, those of the message taken as far as that reaches; they are a prefix of the bytes sent if and only if the buffer is no longer than the message |
| MessageQueueLaws.RunByte | rt-thread/src/ipc.c:2831-2834 | over every run each byte of a node is that of the last message a sender has copied that far into it, and the initial one if there is none |
| MessageQueueLaws.StaleBytes | rt-thread/src/ipc.c:3148-3149 | a byte received behind the message taken is such an older byte of the node |
| MessageQueueLaws.ShortMessageIsPadded | rt-thread/src/ipc.c:3148-3149 | a run from a fresh queue in which one byte is sent and two are received |
| MessageQueueLaws.InitialInv | rt-thread/src/ipc.c:2486-2508 | a fresh queue has all its nodes free and meets the invariant |
| MessageQueueEffects.SendEffect | rt-thread/src/ipc.c:2751-2829 | too long a message is an error; else a sender takes the first free node if and only if there is one, and without one it is an error at once or joins the waiting senders at its place |
| MessageQueueEffects.UrgentEffect | rt-thread/src/ipc.c:2950-2964 | the same without waiting |
| MessageQueueEffects.CopyInEffect | rt-thread/src/ipc.c:2831-2834 | a copy step writes the next byte of the message to its place in the node, and no other byte of any node |
| MessageQueueEffects.LinkEffect | rt-thread/src/ipc.c:2836-2878 | the node and its message go to the end of the queue, or to the front if urgent, and the first receiver alone is resumed |
| MessageQueueEffects.ReceiveEffect | rt-thread/src/ipc.c:3056-3146 | a receiver takes the first node if and only if there is one, to copy as much as buffer and message size allow; else it times out at once or joins the waiting receivers at its place |
| MessageQueueEffects.CopyOutEffect | rt-thread/src/ipc.c:3148-3149 | a copy step appends the next byte of the node |
| MessageQueueEffects.GiveBackEffect | rt-thread/src/ipc.c:3151-3177 | the answer is the bytes copied; the node becomes the first free one, and the first sender alone is resumed |
| MessageQueueEffects.ResetEffect | rt-thread/src/ipc.c:3196-3244 | the queued nodes become free, the last one first, and nodes in threads' hands stay there |
| MessageQueue.Queue.constructor | rt-thread/src/ipc.c:2461-2511 | the number of messages follows from the sizes, and the links form the free list |
| MessageQueue.Queue.Send | rt-thread/src/ipc.c:2751-2829 | the first locked region of a send takes a node or suspends |
| MessageQueue.Queue.CopyIn | rt-thread/src/ipc.c:2831-2834 | one step of the copy outside the lock, the first of which clears the link |
| MessageQueue.Queue.Link | rt-thread/src/ipc.c:2836-2878 | the second locked region links behind the tail or in front of the head, counts and wakes |
| MessageQueue.Queue.Urgent | rt-thread/src/ipc.c:2950-2964 | the first locked region of an urgent send |
| MessageQueue.Queue.Recv | rt-thread/src/ipc.c:3056-3146 | the first locked region of a receive takes the head node or suspends; `tail` is the last node, NULL exactly for an empty queue |
| MessageQueue.Queue.CopyOut | rt-thread/src/ipc.c:3148-3149 | one byte of the copy outside the lock |
| MessageQueue.Queue.GiveBack | rt-thread/src/ipc.c:3151-3177 | the second locked region returns the node and wakes a sender |
| MessageQueue.Queue.Reset | rt-thread/src/ipc.c:3196-3244 | the loop moves every queued node to the free list |
| MessageQueue.EntryFits | rt-thread/src/ipc.c:2851-2860 | while a thread holds a node the queue is not full, so that the branch for a full counter is not reached |
| Bitmap.SetBitSets | rt-thread/src/scheduler.c:732-736 | setting a bit changes that bit alone |
| Bitmap.ClearBitClears | rt-thread/src/scheduler.c:821-829 | clearing a bit changes that bit alone |
| Bitmap.LowestBitMeaning | rt-thread/src/kservice.c:1313-1321 | the lowest bit is set and all below it are clear |
| Bitmap.TableIsExact | rt-thread/src/kservice.c:1292-1310 | every entry of the table but the first is the lowest set bit of its index |
| Bitmap.Ffs | rt-thread/src/kservice.c:1322-1336 | `__rt_ffs` is zero for zero and one more than the lowest set bit otherwise |
| ReadyIndex.SetTwoLevel | rt-thread/src/scheduler.c:732-736 | setting a level's bit and its group's keeps: a bit is set if and only if its list, or its group of lists, is non-empty |
| ReadyIndex.ClearTwoLevel | rt-thread/src/scheduler.c:819-830 | the same for clearing, where the group's bit falls only with its last level |
| ReadyIndex.OneLevelLookup | rt-thread/src/scheduler.c:163-170 | with up to 32 levels the lowest bit is the best ready priority |
| ReadyIndex.TwoLevelLookup | rt-thread/src/scheduler.c:163-170 | with up to 256 levels the lowest bit of the lowest non-zero byte is |
| ReadyIndex.GroupMeansReady | rt-thread/src/scheduler.c:427 | the group word is non-zero if and only if some thread is ready |
| SchedulerSpec.HighestMeaning | rt-thread/src/scheduler.c:158-180 | the specification's choice is the least level with a ready thread |
| SchedulerLaws.ScheduleIsOptimal | rt-thread/src/scheduler.c:413-535 | unlocked with some thread ready, `rt_schedule` ends with the current thread RUNNING and nothing better ready; otherwise it changes nothing; and when exactly the processor changes hands |
| SchedulerLaws.StartIsOptimal | rt-thread/src/scheduler.c:239-263 | the start hands the processor to the head of the best list |
| SchedulerLaws.StepKeeps | rt-thread/src/scheduler.c:413-969 | each step keeps: exactly the READY threads are listed, once, at their priority; only the current thread is RUNNING, and it is on no list |
| SchedulerLaws.RunKeeps | rt-thread/src/scheduler.c:413-969 | the same over every run |
| SchedulerLaws.LockedKeepsCurrent | rt-thread/src/scheduler.c:422-424 | between locked states no step takes the processor away |
| SchedulerLaws.CriticalDepth | rt-thread/src/scheduler.c:880-969 | leaving the innermost of k sections leaves k - 1 if and only if k is at most 32768; deeper, it unlocks |
| SchedulerEffects.ScheduleEffect | rt-thread/src/scheduler.c:413-535 | locked, `rt_schedule` does nothing; a current thread that does not give way only loses its yield bit; otherwise the head of the best list gets the processor, a RUNNING thread goes to the tail of its own list, and nothing else changes |
| SchedulerEffects.StartEffect | rt-thread/src/scheduler.c:239-263 | the head of the best list leaves it and is RUNNING alone; nothing else changes |
| SchedulerEffects.TickEffect | rt-thread/src/clock.c:63-97 | a tick counts down; only the last one of a slice reloads the counter, sets the yield bit and schedules |
| SchedulerEffects.BlockEffect | rt-thread/src/scheduler.c:804-834 | blocking suspends the current thread and moves nobody |
| SchedulerEffects.ResumeEffect | rt-thread/src/scheduler.c:707-741 | a resumed thread goes READY to the tail of its list, and the current one is RUNNING again |
| SchedulerEffects.PriorityEffect | rt-thread/src/scheduler.c:707-834 | a READY thread leaves its place for the tail of the list of its new priority; any other only gets the priority |
| SchedulerEffects.ExitEffect | rt-thread/src/scheduler.c:944-969 | leaving takes one level away, and at the outermost or at none schedules unlocked |
| SchedulerEffects.SleepsUntilResumed | rt-thread/src/scheduler.c:413-969 | over every run a suspended thread is neither ready nor running before it is resumed |
| SchedulerFairness.ScheduleFair | rt-thread/src/scheduler.c:434-466 | a thread that stays ready moves forward by exactly one place when its level is picked from, and not otherwise |
| SchedulerFairness.StepFair | rt-thread/src/scheduler.c:413-969 | no step moves a thread that stays ready back |
| SchedulerFairness.RunIsFair | rt-thread/src/scheduler.c:413-969 | over every run through which a thread stays ready, its level is picked from at most as often as the place it started at |
| SchedulerFairness.StepKeepsSlices | rt-thread/src/clock.c:78-95 | `remaining_tick` stays in 1..`init_tick` |
| SchedulerFairness.SliceRuns | rt-thread/src/clock.c:63-97 | the current thread keeps the processor for exactly the ticks that remain to it, 2^32 of them for a counter of zero, then the ring turns by one and the counter is reloaded |
| SchedulerFairness.NextSlice | rt-thread/src/clock.c:78-95 | the slice after that is at most `init_tick` long if and only if `init_tick` is at least one; for zero it is 2^32 ticks |
| SchedulerFairness.RoundRobin | rt-thread/src/clock.c:63-97 | with ticks alone, slice k of n equal threads goes to member k of the ring, and n slices restore the order |
| SchedulerFairness.RingDistinct | rt-thread/src/scheduler.c:723-727 | no thread is twice in the ring |
| Scheduler.Core.constructor | rt-thread/src/scheduler.c:187-232 | empty lists and a cleared index |
| Scheduler.Core.InsertThread | rt-thread/src/scheduler.c:707-741 | the method is the specification's insertion and keeps the bitmap index exact |
| Scheduler.Core.RemoveThread | rt-thread/src/scheduler.c:804-834 | the same for the removal |
| Scheduler.Core.HighestPriorityThread | rt-thread/src/scheduler.c:158-180 | through the bitmap alone, the head of the best non-empty list |
| Scheduler.Core.Schedule | rt-thread/src/scheduler.c:413-535 | the method is the specification's `rt_schedule` |
| Scheduler.Core.StartScheduler | rt-thread/src/scheduler.c:239-263 | the same for the start |
| Scheduler.Core.EnterCritical | rt-thread/src/scheduler.c:880-895 | the method is the specification's step, in 16-bit signed arithmetic |
| Scheduler.Core.ExitCritical | rt-thread/src/scheduler.c:944-969 | the counter goes down, stops at zero, and at zero schedules |
| Scheduler.Core.TickIncrease | rt-thread/src/clock.c:63-97 | the counter is counted down, reloaded with the yield flag set, and the scheduler called |
| SmpLockLaws.StepKeeps | rt-thread/src/cpu.c:20-185 | each step of each CPU keeps: a thread's scheduler count is one for holding the lock, plus its critical sections, plus its preempt-disable depth; a CPU holds the lock if and only if it is switching or its thread has a positive count |
| SmpLockLaws.RunKeeps | rt-thread/src/cpu.c:20-185 | the same over every interleaving of all CPUs |
| SmpLockLaws.FreshIsOk | rt-thread/src/scheduler.c:187-232 | the machine before its first thread meets the invariant |
| SmpLockLaws.GuardMeaning | rt-thread/src/scheduler.c:326 | a scheduler count of one means exactly: no critical section and no preempt-disable |
| SmpLockLaws.ChosenIsFree | rt-thread/src/scheduler.c:326-378 | only a thread without critical section and spinlock is switched out, by the CPU that has the lock, to a thread on no CPU |
| SmpLockLaws.HandOver | rt-thread/src/cpu.c:176-185 | after a switch the lock is released if and only if the new thread's count is zero, and is kept on its behalf otherwise |
| SmpLockLaws.PinnedStays | rt-thread/src/scheduler.c:326-631 | no step takes a thread in a critical section or with a spinlock off its CPU |
| SmpLockLaws.CriticalSectionsExclude | rt-thread/src/scheduler.c:841-878 | at most one thread of the whole machine is inside a critical section |
| SmpLockLaws.OneHolder | rt-thread/src/cpu.c:126-168 | at most one CPU holds the lock |
| SmpLockLaws.OneCpuPerThread | rt-thread/src/scheduler.c:331-352 | no thread runs on two CPUs |
| SmpLockEffects.LockEffect | rt-thread/src/cpu.c:126-147 | one level more, the outermost also in the scheduler lock count, and the CPU has the lock; nothing else changes |
| SmpLockEffects.UnlockEffect | rt-thread/src/cpu.c:153-168 | one level less, and the outermost gives the lock back |
| SmpLockEffects.EnterEffect | rt-thread/src/scheduler.c:841-878 | a critical section counts in all three counters |
| SmpLockEffects.LeaveEffect | rt-thread/src/scheduler.c:903-942 | and leaving it takes the same away |
| SmpLockEffects.PreemptEffect | rt-thread/src/cpu.c:20-81 | disabling and enabling preemption, and spinlocks, touch only the running thread's counters and leave the lock |
| SmpLockEffects.WakeEffect | rt-thread/src/scheduler.c:642-664 | a woken thread goes to a ready queue, or runs on if its CPU has not switched yet |
| SmpLockEffects.ChooseEffect | rt-thread/src/scheduler.c:326-629 | a switch detaches the old thread with its counters, makes the new one RUNNING on this CPU, and the CPU keeps the lock; in an interrupt the old thread gives up the level the interrupt took |
| SmpLockEffects.RestoreEffect | rt-thread/src/cpu.c:176-185 | the chosen thread becomes the current one, and the CPU keeps the lock if and only if its count is positive |
| SmpLockEffects.RunDepth | rt-thread/src/cpu.c:20-185 | over every interleaving, on whatever CPUs a thread runs, its count is the levels it has taken less those it has given back |
| SmpLockEffects.HeldWhileNested | rt-thread/src/cpu.c:126-168 | a running thread has the lock on all CPUs if and only if it has taken more levels than it has given back |
| SmpLock.Machine.CpusLock | rt-thread/src/cpu.c:126-147 | the method is the specification's step; without a thread it does nothing |
| SmpLock.Machine.CpusUnlock | rt-thread/src/cpu.c:153-168 | the same for the unlock |
| SmpLock.Machine.EnterCritical | rt-thread/src/scheduler.c:841-878 | the same for entering a critical section |
| SmpLock.Machine.ExitCritical | rt-thread/src/scheduler.c:903-942 | the same for leaving one; it goes on to schedule exactly when nothing is left locked |
| SmpLock.Machine.PreemptDisable | rt-thread/src/cpu.c:20-40 | the same for disabling preemption |
| SmpLock.Machine.PreemptEnable | rt-thread/src/cpu.c:45-66 | the same for enabling it, up to the call of the scheduler |
| SmpLock.Machine.InsertThread | rt-thread/src/scheduler.c:642-664 | on a suspended thread, the specification's wake-up by the calling CPU, which keeps the invariant; a thread on a CPU stays RUNNING |
| SmpLock.Machine.SwitchOut | rt-thread/src/scheduler.c:326-378 | the switch of `rt_schedule`, and with the interrupt flag that of `rt_scheduler_do_irq_switch` (570-629), is the specification's step |
| SmpLock.Machine.LockStatusRestore | rt-thread/src/cpu.c:176-185 | the same for the end of a switch |
| MemPoolSpec.StepKeeps | rt-thread/src/mempool.c:303-449 | each step keeps: every block is once on the chain or live, the newest waiter comes first, and no wakeup is lost |
| MemPoolSpec.RunKeeps | rt-thread/src/mempool.c:303-449 | the same over every interleaving |
| MemPoolSpec.InitialInv | rt-thread/src/mempool.c:97-121 | a fresh pool has all its blocks on the chain, in order |
| MemPoolSpec.AllocGrants | rt-thread/src/mempool.c:319-390 | a block is granted if and only if one is not live, and it was not live |
| MemPoolSpec.FreeServesNewest | rt-thread/src/mempool.c:337-338 | a release resumes the thread that began to wait last |
| MemPoolSpec.FreeUndoesAlloc | rt-thread/src/mempool.c:371-423 | freeing the block just granted restores the chain |
| MemPoolEffects.AllocEffect | rt-thread/src/mempool.c:303-391 | an allocation takes the first block of the chain if and only if there is one; else it times out at once, or the caller waits in front of all others |
| MemPoolEffects.FreeEffect | rt-thread/src/mempool.c:399-449 | the block comes to the front of the chain, and the first waiter alone is resumed |
| MemPoolEffects.HeldIsNotGranted | rt-thread/src/mempool.c:303-449 | over every run a granted block stays its owner's, and is granted to nobody else, until it is freed |
| MemPool.Pool.constructor | rt-thread/src/mempool.c:77-124 | for every block size that does not lead to a division by zero, the loop chains blocks 0..n-1 in order |
| MemPool.Pool.Alloc | rt-thread/src/mempool.c:303-391 | the address is start + k * stride + 4 for the block the specification grants, and its header names the pool |
| MemPool.Pool.Free | rt-thread/src/mempool.c:399-449 | the block goes to the front of the chain, and the first waiter is resumed |
| MemPool.LinkedIsChain | rt-thread/src/mempool.c:107-121 | the links of the initialisation form the chain of all blocks |
| MemPool.PayloadsApart | rt-thread/src/mempool.c:390 | payloads of different blocks do not overlap and end inside the pool |
| MemPool.LastStoreLands | rt-thread/src/mempool.c:118-119 | the store that ends the chain lands in the last block if there is room for one, and otherwise one block in front of the pool |
| MemPool.StrideMeaning | rt-thread/src/mempool.c:96-101 | the distance between blocks has room for header and block if and only if the block size is at most 2^32 - 8; it is zero for exactly four sizes, and the header alone for the last three |
| FormatSpec.DigitsParse | rt-thread/src/kservice.c:578-595 | the digits produced by repeated division read back as the number |
| FormatSpec.DigitsFit | rt-thread/src/kservice.c:644-693 | a 32-bit number has at most ten digits, within the sixteen of the scratch buffer |
| FormatSpec.NumberLength | rt-thread/src/kservice.c:695-784 | for nonzero precision a field has max(width, max(digits, precision) + sign) characters; for precision zero the digits are missing |
| FormatSpec.NumberReadsBack | rt-thread/src/kservice.c:661-784 | for every width, precision and flag set the field is blanks, the sign, a numeral and blanks, with blanks on one side only; the numeral reads back as the 32-bit magnitude in base 10 or 16 if and only if the precision is not zero or the number is |
| FormatSpec.OctalPrintsHex | rt-thread/src/kservice.c:578-595 | an octal conversion prints the octal digits if and only if the number is below eight |
| FormatSpec.StringLength | rt-thread/src/kservice.c:923-953 | given a width, a string field is exactly that wide; without one, the precision cuts |
| FormatSpec.PlainTextIsCopied | rt-thread/src/kservice.c:820-828 | a format without conversions is copied |
| FormatGrammar.EveryFormat | rt-thread/src/kservice.c:820-898 | every format reads as plain characters and conversions, whose flags, width, precision and qualifier each go as far as they can, and perhaps a conversion cut off at the end |
| FormatGrammar.EveryFormatPrints | rt-thread/src/kservice.c:820-1035 | for every format and all arguments the text is that of its items one after the other, each with the arguments the ones before have left |
| FormatText.ConversionRead | rt-thread/src/kservice.c:830-893 | flags in any order, a width and a precision in digits as the decimal numbers they write, a star as the next argument (a negative width as its magnitude with the left flag, a negative precision as zero), and the qualifier |
| FormatText.NumberRead | rt-thread/src/kservice.c:845-866 | a run of digits is read as the decimal number it writes |
| FormatText.PieceIsItem | rt-thread/src/kservice.c:820-1035 | one turn of the loop prints one item, moves behind it, and uses one argument for each star and one for a conversion of a value |
| FormatText.ExpandIsRendering | rt-thread/src/kservice.c:820-1035 | a format made of items prints them one after the other |
| FormatText.CutConversion | rt-thread/src/kservice.c:994-1007 | a conversion cut off by the end of the format prints its percent sign, and the format ends |
| FormatText.DecimalShown | rt-thread/src/kservice.c:988-1034 | `%d` and `%i` print the signed value in decimal, with a minus sign if and only if it is negative and otherwise the sign the flags ask for, in the field's layout |
| FormatText.UnsignedShown | rt-thread/src/kservice.c:977-1034 | `%u` prints the unsigned value in decimal, `%x` and `%X` in base sixteen with small or large letters, and `%o` in base sixteen as well; none prints a sign |
| FormatText.PointerShown | rt-thread/src/kservice.c:955-970 | `%p` prints the address in base sixteen, filled with zeros to eight characters if it has no width |
| FormatText.CharacterShown | rt-thread/src/kservice.c:900-921 | `%c` prints the low byte with the blanks on one side |
| FormatText.StringShown | rt-thread/src/kservice.c:923-953 | `%s` prints the longest prefix that width and precision allow, "(NULL)" for none, with the blanks on one side |
| FormatText.OtherShown | rt-thread/src/kservice.c:972-1007 | `%%` prints one percent sign, and any other character is printed behind one |
| FormatText.AskedIsPlain | rt-thread/src/kservice.c:830-874 | what these ask of a conversion holds of every one that is read |
| Format.TerminatedMeaning | rt-thread/src/kservice.c:1037-1044 | the buffer holds the first n-1 characters and a terminator, and nothing else is touched |
| Format.RoomIsMemory | rt-thread/src/kservice.c:810-818 | the size is cut exactly if the buffer would leave the address space |
| Format.ToDigits | rt-thread/src/kservice.c:689-693 | the division loop leaves the digits in the scratch buffer, last one first |
| Format.PrintNumber | rt-thread/src/kservice.c:616-785 | the loops on the size counter write the field that the specification lays out |
| Format.PutString | rt-thread/src/kservice.c:923-953 | the three loops write the string field |
| Format.PutConv | rt-thread/src/kservice.c:898-1034 | each conversion writes its text |
| Format.PutPiece | rt-thread/src/kservice.c:820-1035 | one turn of the loop reads flags, width, precision and qualifier, writes one piece and moves on |
| Format.Vsnprintf | rt-thread/src/kservice.c:787-1050 | it writes only inside the room it has, leaves the cut text with its terminator, and returns a length that does not depend on the room |

## Left out

- MemHeap.Heap.Realloc: excludes the calls that grow a block in place on a wrapped guard, because the block would run past the pool; `MemHeapLaws.ReallocIsSound` states that these are all that must be excluded.
- MemHeapLaws.StepKeeps: excludes the same calls.
- MemHeapLaws.RunKeeps: excludes runs with such a call.
- MemHeap.Heap.constructor: asks for a pool with room for two headers and a minimum block; `MemHeapLaws.InitialInv` states that a smaller one does not meet the invariant.
- SmallMem.Heap.Malloc: excludes the calls that never return; `SmallMemLaws.ScanNeverEnds` states which.
- SmallMem.Heap.Realloc: excludes the same calls.
- SmallMem.Heap.MallocAlign: excludes the calls that never return, and asks for a power of two and for sizes whose sum does not wrap; `SmallMem.AlignedRange` states what happens otherwise. The mask of a size that is no power of two is not modelled.
- MessageQueue.Queue.constructor: takes the payload words as given; the alignment of the message size is part of its size computation only.
- SmpLockLaws.StepKeeps: leaves open which ready thread a switch picks, and assumes that the 16-bit depths do not run over, which the source says it does not check.
- Format.Vsnprintf: does not model a text so long that its length leaves 32 bits, or a width or precision beyond the range of int; a mismatch between format and arguments has no meaning in C and is read as whatever the argument's other form holds.
- MemPool.Pool.constructor: excludes the four block sizes for which the source divides by zero, which `MemPool.StrideMeaning` names, and asks for room for one block; `MemPool.LastStoreLands` states what happens without that room.
- Scheduler.Core.Schedule: without the record of the current priority, the hooks, signals and the stack check.
- Init, create, detach and delete of the IPC objects and pools, except for the memory they set up: object bookkeeping.
- The waiter lists of the IPC objects are sequences: `RtList.Nodes`, the ring that holds them in the source, is proved on its own and not used by the IPC classes.
- A change of a waiter's priority is a step of the specifications and no method of the IPC classes: the source makes it in thread.c. The mutex model is the one that makes it from its own code, on the owner.
- Return codes and `thread->error` of resumed threads beyond the outcome of a step; the semaphores around the heap operations, each of which is one critical section.
- `rt_calloc`, `rt_memory_info`, the heap that memheap.c offers in place of mem.c, the shell commands and memory tracing: thin layers or not part of the state.
- The payload bytes of memheap blocks: data preservation is proved for mem.c only.
- The `prev` field of the end header in mem.c, which a split does not maintain and nothing reads.
- Event words wider than their set of bits: `Event.Flags` keeps the set of the numbers of the set bits, so that its unions and differences are the word's masks.
- A 64-bit build, `RT_PRINTF_LONGLONG`, `RT_PRINTF_SPECIAL` and processors with their own find-first-set instruction.
- Binding threads to a CPU, the per-CPU ready lists and the inter-processor interrupt.
- Real time: a timeout may fire at any step while a thread waits, and the timer itself is not modelled.
- thread.c, timer.c, slab.c, device.c, object.c, components.c, irq.c, idle.c and the drivers are not part of this model.
