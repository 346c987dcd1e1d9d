# RT-Thread kernel and flash layer: verified models

This project models, in Dafny, the parts of the RT-Thread 4.0.2 kernel in
`Bootloader/bootloader_for_weact/rt-thread` that other code leans on hardest, together with the QSPI
flash layer that programs the boot image, and proves what they promise: over every run and every
interleaving, not for single calls. `dafny verify dfyconfig.toml` checks all of it.

The build modelled is the uniprocessor one: 32 priorities, RT_ALIGN_SIZE 4, no signals. A section with
interrupts disabled (or the heap lock held) is one atomic step, an operation of several sections is
several steps with anything else between them, and a context switch is an assignment to the current
thread. RT_ASSERT compiles to nothing here, so what it asks of callers became `requires`.

How the files fit together:

- `Seqs`, `Ring`, `Chain`, `Cells`, `Bits`: list edits, the doubly linked rings of rtservice.h,
  null-terminated chains, buffers cut into cells, and bit masks on natural numbers.
- `HeapModel`, `HeapExact`, `Memheap`, `HeapRuns`, `HeapContents`: the memheap allocator. `HeapModel`
  defines what alloc, free and realloc do to the address-ordered block list and the free list; `HeapExact`
  says what that comes to in blocks and sizes; `Memheap` is the object with its header pointers, marks,
  counters and bytes, proved against both, with every header word it changes shown to lie outside the
  payloads kept; `HeapRuns` is about clients over whole runs, and `HeapContents` about what they find in
  their blocks.
- `TimerModel`, `TimerEffects`, `SkipList`: a timer queue on an unwrapped clock, with starts in one step or
  in three; what stops, starts and firings mean for the runs that follow; and the skip list on the
  wrapping 32-bit tick that carries it out.
- `Sched`, `SchedEffects`, `Scheduler`, `RoundRobin`: ready queues, thread states, the choice of thread and
  the threads some caller is in the middle of deleting or resuming; what each operation changes and leaves
  alone; the same with the ready bitmap, in place; and time slicing.
- `WaitLists`, `Sides`, `MutexModel`, `MutexEffects`, `Mutex`, `Semaphore`, `EventFlags`, `EventEffects`,
  `QueueModel`, `QueueEffects`, `MessageQueue`, `Mailbox`, `MailboxEffects`: the IPC objects as transition
  systems in which any thread that is not blocked may move next, what each section does and what a run
  comes to in terms of the calls alone, and the objects themselves, section by section.
- `Mempool`; `PageModel`, `Pages`, `Zones`, `SlabZone`, `SlabModel`, `SlabRuns`, `SlabEffects`: the
  fixed-block pool, and the slab allocator from its page list to its clients.
- `Flash`: the W25Q64 driver over a model of the chip (programming only clears bits, wraps inside a page
  of 256 bytes and needs write enable, as in the data sheet), and the programming entries of FlashPrg.c.

A pattern recurs. A specification is a datatype with functions, one per operation, and lemmas about every
run of them. Beside each function stands a predicate that states the new state and what stays as it was
without naming the function, proved of it (the lemmas called `...Means` and `...Exact`). An object that the
source updates in place is a class whose methods end in `ensures` clauses saying that the new abstract state
is that function of the old one. Fields with names such as `held`, `sent`, `owed` or `log` record history
for the statements and drive nothing; what a run conserves or delivers is counted from its calls where such
a record would be the only witness.

Where the code does less than one might expect, the code is modelled and the exact condition is proved:

- rt_memheap_alloc compares sizes with `<`, so a request that would use up all free bytes is refused
  (`HeapModel.ExactFitRefused`, `HeapModel.TakeFails`).
- RT_ALIGN wraps for sizes above 2^32 - 4 (`HeapModel.NeedCovers`).
- The growth test of rt_memheap_realloc wraps for the last three rounded sizes below 2^32; with a free
  block behind, the new free header then goes into the block's own header (`HeapModel.ReallocBreaks`,
  `HeapModel.ReallocExact`, `HeapRuns.ReallocExactly`).
- rt_timer_start reads the tick counter between its two sections, so a tick there makes a start late and
  can put it behind a timer with a later deadline (`TimerModel.OnTime`, `TimerModel.OneTickLate`,
  `TimerModel.OutOfOrder`).
- rt_thread_delete and rt_thread_resume leave the thread in no list between their sections; nobody else
  may turn to it there (`Sched.Reachable`, `Sched.ClosedInQueue`, `Sched.QueuedTwice`).
- Handing over a FIFO mutex can leave a waiter above the new owner (`MutexModel.HandoffInverts`,
  `MutexModel.FifoInversion`).
- A message queue receiver with a large buffer also gets whatever the slot held before, behind the
  message (`QueueModel.DrainExact`, `QueueModel.Leaks`).
- ProgramPage reports success whatever happened (`Flash.Driver.ProgramPage`, `Flash.ProgramPageFails`),
  and Verify compares with stale data after a refused read (`Flash.VerifyTrusted`, `Flash.VerifyFails`).

rt_mp_alloc inserts sleepers at the front of the list, so a memory pool wakes the last one first; the
model does the same.

## Model

| member | source | states |
|---|---|---|
| `Ring.Linked` | Bootloader/bootloader_for_weact/rt-thread/include/rtservice.h:58-78 | inserting a node after any ring position keeps `next` and `prev` mutually inverse and visiting exactly the old nodes plus the new one |
| `Ring.Unlinked` | Bootloader/bootloader_for_weact/rt-thread/include/rtservice.h:86-92 | removing a node keeps the ring of the remaining nodes |
| `Ring.Members` | Bootloader/bootloader_for_weact/rt-thread/include/rtservice.h:58-92 | both neighbours of every ring member are ring members |
| `HeapModel.NeedCovers` | Bootloader/bootloader_for_weact/rt-thread/src/memheap.c:148-150 | the rounded size covers the request if and only if RT_ALIGN does not wrap at 32 bits |
| `HeapModel.InitOk` | Bootloader/bootloader_for_weact/rt-thread/src/memheap.c:50-121 | a fresh heap satisfies the whole invariant and has no live block |
| `HeapModel.TakeOk` | Bootloader/bootloader_for_weact/rt-thread/src/memheap.c:138-281 | allocation keeps the invariant (blocks tile the pool, free list exact, no two free neighbours, byte counters equal to sums over the lists); success adds one aligned live block of at least the size and leaves every other live block where and as large as it was; failure changes nothing; how large exactly is in `HeapExact.TakeExact` |
| `HeapModel.TakeFails` | Bootloader/bootloader_for_weact/rt-thread/src/memheap.c:155-183 | allocation fails exactly when the size is not below the number of free bytes or no single free block is large enough |
| `HeapModel.ExactFitRefused` | Bootloader/bootloader_for_weact/rt-thread/src/memheap.c:155-155 | a heap whose only free block fits exactly refuses the request, because the size test is strict |
| `HeapModel.FreeOk` | Bootloader/bootloader_for_weact/rt-thread/src/memheap.c:495-595 | freeing keeps the invariant, takes exactly that block out of use, moves no other block and leaves the high-water mark alone |
| `HeapModel.ResizeOk` | Bootloader/bootloader_for_weact/rt-thread/src/memheap.c:350-485 | growing in place and shrinking keep the invariant, make the block exactly the new size and touch no other live block |
| `HeapModel.ReallocOk` | Bootloader/bootloader_for_weact/rt-thread/src/memheap.c:284-492 | for every size, with the growth test in 32-bit words: if that test does not wrap or the right neighbour is in use, the invariant is kept whichever path is taken, failure changes nothing, and success leaves one block of at least the new size in place of the old and every other live block untouched |
| `HeapModel.GrowTest32` | Bootloader/bootloader_for_weact/rt-thread/src/memheap.c:350-350 | the 32-bit growth test gives the answer of the exact sum if and only if the sum of size and minimum does not wrap, or wraps above the available sum |
| `HeapModel.GrowExact` | Bootloader/bootloader_for_weact/rt-thread/src/memheap.c:350-393 | below the wrap the 32-bit test and the stores that follow are exactly in-place growth on unbounded numbers |
| `HeapModel.BoundaryFresh` | Bootloader/bootloader_for_weact/rt-thread/src/memheap.c:370-370 | whatever the size, the new free header is built at an address inside the pool that is no header yet |
| `HeapModel.ReallocBreaks` | Bootloader/bootloader_for_weact/rt-thread/src/memheap.c:350-393 | a free right neighbour and a rounded size of 2^32 - 12, 2^32 - 8 or 2^32 - 4: the test wraps and passes, the new free header lies inside the block's own header, and the invariant is gone |
| `HeapModel.ReallocExact` | Bootloader/bootloader_for_weact/rt-thread/src/memheap.c:284-492 | reallocation keeps the invariant if and only if size plus minimum does not wrap or the right neighbour is in use, which a caller can see before the call |
| `HeapExact.TakeExact` | Bootloader/bootloader_for_weact/rt-thread/src/memheap.c:155-268 | a request is served from the first block of the free list with room: cut to exactly the size asked for when the rest can be a block, which then is free behind it and listed first, and whole otherwise; the available bytes fall by exactly the block and a header if it was cut; no other block moves and the free list is otherwise the old one |
| `HeapExact.FreeExact` | Bootloader/bootloader_for_weact/rt-thread/src/memheap.c:495-595 | a freed block becomes free and one with its free neighbours on both sides, its front at the block before or at itself; exactly the headers in between go, each adding its bytes to the available ones; no other block moves and the free list is otherwise the old one |
| `HeapExact.ResizeExact` | Bootloader/bootloader_for_weact/rt-thread/src/memheap.c:350-485 | growing in place and shrinking leave a block of exactly the new size and behind it one free block that takes up all the rest, as far as the old block and a free neighbour reached; the available bytes follow exactly |
| `HeapExact.ReallocMeans` | Bootloader/bootloader_for_weact/rt-thread/src/memheap.c:284-492 | which of the paths reallocation takes, from sizes and the free list alone, and what each leaves: nothing changed, resized in place, or served elsewhere and then released |
| `HeapExact.GrowsExactly` | Bootloader/bootloader_for_weact/rt-thread/src/memheap.c:350-350 | outside the wrap the 32-bit growth test is the exact one and leaves room for a free block |
| `HeapExact.Determined` | Bootloader/bootloader_for_weact/rt-thread/src/memheap.c:535-591 | two heaps over the same pool with the same live blocks of the same sizes have the same blocks, free blocks and available bytes, whatever happened in them before |
| `HeapModel.PayloadsDisjoint` | Bootloader/bootloader_for_weact/rt-thread/src/memheap.c:188-225 | payloads of two live blocks never overlap and lie between the first header and the tailer |
| `HeapModel.HeaderMissesPayload` | Bootloader/bootloader_for_weact/rt-thread/src/memheap.c:188-225 | no block header lies inside a live payload |
| `HeapModel.AllFreeIsInitial` | Bootloader/bootloader_for_weact/rt-thread/src/memheap.c:535-591 | when nothing is live the heap is the single initial free block with the initial byte count |
| `Memheap.MemHeap.constructor` | Bootloader/bootloader_for_weact/rt-thread/src/memheap.c:50-121 | the pointers, marks and counters written represent the initial heap |
| `Memheap.MemHeap.LinkBlock` | Bootloader/bootloader_for_weact/rt-thread/src/memheap.c:210-213 | the header is linked into the address-ordered ring behind the given one |
| `Memheap.MemHeap.UnlinkBlock` | Bootloader/bootloader_for_weact/rt-thread/src/memheap.c:550-551 | the header leaves the address-ordered ring, which stays a ring of the others |
| `Memheap.MemHeap.LinkFree` | Bootloader/bootloader_for_weact/rt-thread/src/memheap.c:583-586 | the header becomes the first of the free ring |
| `Memheap.MemHeap.UnlinkFree` | Bootloader/bootloader_for_weact/rt-thread/src/memheap.c:576-577 | the header leaves the free ring, which stays a ring of the others |
| `Memheap.MemHeap.Find` | Bootloader/bootloader_for_weact/rt-thread/src/memheap.c:169-180 | the walk of the free ring stops at the first block that is large enough, or at the list head if there is none |
| `Memheap.MemHeap.Grab` | Bootloader/bootloader_for_weact/rt-thread/src/memheap.c:155-268 | search, split and accounting carry out the model's allocation, and header words differ only at blocks of the heap before or after |
| `Memheap.MemHeap.Alloc` | Bootloader/bootloader_for_weact/rt-thread/src/memheap.c:138-281 | serves the first free block with room for the rounded size, cut to exactly that size if the rest can be a block, with counters and free list following; null and an unchanged heap exactly when the size is not below the free bytes or no block fits; every header word that differs belongs to a block before or after, and no such header touches a payload that stays live |
| `Memheap.MemHeap.Coalesce` | Bootloader/bootloader_for_weact/rt-thread/src/memheap.c:540-591 | merging left and right and relinking produce exactly the merged rings, and the counter gains one header for each merge |
| `Memheap.MemHeap.Free` | Bootloader/bootloader_for_weact/rt-thread/src/memheap.c:495-595 | null is ignored; otherwise the block is free and merged with its free neighbours, and no other block moves; every header word that differs belongs to a block before or after, and no such header touches a payload that stays live |
| `Memheap.MemHeap.GrowBlock` | Bootloader/bootloader_for_weact/rt-thread/src/memheap.c:357-393 | the free neighbour is dropped and a new free header built at the new boundary, in both rings |
| `Memheap.MemHeap.ShrinkBlock` | Bootloader/bootloader_for_weact/rt-thread/src/memheap.c:432-485 | the block is cut and the remainder merged with a free neighbour, in both rings, with the counter following |
| `Memheap.MemHeap.Copy` | Bootloader/bootloader_for_weact/rt-thread/src/memheap.c:412-412 | exactly the given bytes are copied and no other byte changes |
| `Memheap.MemHeap.Realloc` | Bootloader/bootloader_for_weact/rt-thread/src/memheap.c:284-492 | for every 32-bit size: size zero frees, null allocates, otherwise the model's reallocation, wrap included; on success the first min(old, new) bytes are at the result and no other payload byte differs; whenever the heap stays in order, no header that differs touches a payload that is live before and after, as far as it is in both, nor the block moved to; header words differ only at blocks before and after and, for a move, in the middle |
| `Memheap.MemHeap.MoveBlock` | Bootloader/bootloader_for_weact/rt-thread/src/memheap.c:408-416 | allocate, copy, free: the model's move, with the old contents at the new address, and no header written in either section touching a payload kept or the new one |
| `Memheap.SparedBy` | Bootloader/bootloader_for_weact/rt-thread/src/memheap.c:188-225 | headers that differ only where blocks of the heap before or after are, or in the list head outside the pool, miss the payload of every block live in both, as far as both have it |
| `Memheap.SparedTwice` | Bootloader/bootloader_for_weact/rt-thread/src/memheap.c:408-416 | the same across both sections of a move, for every block kept and for the one granted |
| `Memheap.MemHeap.Grow` | Bootloader/bootloader_for_weact/rt-thread/src/memheap.c:350-393 | the growing branch in 32-bit words does to rings, marks and counters what the model says, wrap included |
| `HeapRuns.RunGood` | Bootloader/bootloader_for_weact/rt-thread/src/memheap.c:138-595 | after every run of allocations, reallocations of any size outside the wrapping case, and frees the live blocks are exactly those the client holds, each at least as large as asked |
| `HeapRuns.StartGood` | Bootloader/bootloader_for_weact/rt-thread/src/memheap.c:50-121 | a fresh pool of a client that holds nothing satisfies the same |
| `HeapRuns.ReallocExactly` | Bootloader/bootloader_for_weact/rt-thread/src/memheap.c:284-492 | a reallocation leaves the client a heap in order if and only if the growth test does not wrap or the right neighbour is in use |
| `HeapRuns.HeldDisjoint` | Bootloader/bootloader_for_weact/rt-thread/src/memheap.c:188-225 | any two blocks held are disjoint, aligned and inside the pool |
| `HeapRuns.AllReturned` | Bootloader/bootloader_for_weact/rt-thread/src/memheap.c:535-591 | after any run in which everything was returned the block list, free list and byte count are the initial ones |
| `HeapRuns.RunMarks` | Bootloader/bootloader_for_weact/rt-thread/src/memheap.c:231-242 | over every run max_used_size is the maximum of pool size minus available size over all states passed through |
| `HeapContents.RunKeeps` | Bootloader/bootloader_for_weact/rt-thread/src/memheap.c:138-595 | over every run in which an operation may leave anything in the headers before, between and after its sections, the client finds in every block it holds what it wrote there last, and after a reallocation in the part that was in both |
| `HeapContents.StillThere` | Bootloader/bootloader_for_weact/rt-thread/src/memheap.c:138-595 | a byte written once is still there after any run that neither writes it again nor frees or reallocates its block |
| `HeapContents.HeadersOnly` | Bootloader/bootloader_for_weact/rt-thread/src/memheap.c:188-225 | a memory that differs, apart from the copy, only where header words differ, and these only in headers of the heaps on the way, is one the operation may leave in such a run |
| `HeapContents.ReallocWrites` | Bootloader/bootloader_for_weact/rt-thread/src/memheap.c:284-492 | the header words rt_memheap_realloc changes, in one section or two, are of that kind |
| `HeapContents.Survives` | Bootloader/bootloader_for_weact/rt-thread/src/memheap.c:138-595 | a block the operation is not called on is live with the same extent in every heap on the way |
| `HeapContents.ResultClear` | Bootloader/bootloader_for_weact/rt-thread/src/memheap.c:350-416 | the bytes a reallocated block inherits lie clear of every header before, between and after |
| `TimerModel.Exact` | Bootloader/bootloader_for_weact/rt-thread/src/timer.c:296-547 | over every run in which ticks may fall anywhere into a start, every firing happened at the later of its deadline and the tick after its insertion, nothing is queued past that tick, and firings come in order of tick, deadline and insertion |
| `TimerModel.OnTime` | Bootloader/bootloader_for_weact/rt-thread/src/timer.c:310-396 | a firing comes at the tick its start asked for if and only if fewer ticks than that passed between the read of the counter and the insertion, and then no firing before it had a later deadline |
| `TimerModel.OneTickLate` | Bootloader/bootloader_for_weact/rt-thread/src/timer.c:310-396 | a run in which a one-tick start interrupted by one tick fires one tick late |
| `TimerModel.OutOfOrder` | Bootloader/bootloader_for_weact/rt-thread/src/timer.c:310-396 | a run in which an interrupted start fires after a timer with a later deadline |
| `TimerModel.Fires` | Bootloader/bootloader_for_weact/rt-thread/src/timer.c:296-391 | a timer started with interrupts off for n ticks and left alone fires, at the n-th following tick |
| `TimerModel.FinishFires` | Bootloader/bootloader_for_weact/rt-thread/src/timer.c:310-396 | a start with interrupts on, once inserted and left alone, fires n ticks after the tick it read or at the next tick, whichever is later |
| `TimerModel.Uninterrupted` | Bootloader/bootloader_for_weact/rt-thread/src/timer.c:296-396 | with nothing in between, removal, read and insertion are the one step of a start with interrupts off |
| `TimerModel.Run` | Bootloader/bootloader_for_weact/rt-thread/src/timer.c:296-547 | every run of ticks, starts in one step or in three, and stops ends with a sorted queue in which nothing is overdue, every firing so far exact and every pending start out of the queue |
| `TimerModel.DrainOk` | Bootloader/bootloader_for_weact/rt-thread/src/timer.c:507-547 | one check fires everything due, at the current tick only, and leaves nothing due |
| `TimerModel.StepOk` | Bootloader/bootloader_for_weact/rt-thread/src/timer.c:296-547 | every step keeps the queue sorted, duplicate-free and free of overdue timers and pending starts out of it, and only extends the log of firings |
| `TimerEffects.StopMeans` | Bootloader/bootloader_for_weact/rt-thread/src/timer.c:422-445 | stopping an active timer takes it off the queue and makes it inactive; every other entry, the firings so far and the pending starts stay; stopping any other changes nothing |
| `TimerEffects.SortedUnique` | Bootloader/bootloader_for_weact/rt-thread/src/timer.c:342-370 | a queue in order is determined by its entries, so the other timers keep their places |
| `TimerEffects.StoppedStays` | Bootloader/bootloader_for_weact/rt-thread/src/timer.c:422-445 | after a stop, in every run that leaves the timer alone, no later firing is of that timer |
| `TimerEffects.StartFires` | Bootloader/bootloader_for_weact/rt-thread/src/timer.c:310-396 | a start with interrupts on and anything that leaves the timer alone between its sections and after them fires at the tick read plus the timeout, or at the tick after the insertion if that is later |
| `TimerEffects.FireMeans` | Bootloader/bootloader_for_weact/rt-thread/src/timer.c:516-544 | a firing is recorded with its tick; a periodic timer that its function does not stop counts anew from this tick, any other is off the queue and inactive; a timer its function does not turn to is untouched |
| `TimerEffects.FireCalls` | Bootloader/bootloader_for_weact/rt-thread/src/timer.c:516-544 | of the starts and stops a timeout function performs on another timer the last one counts |
| `TimerEffects.PeriodicFires` | Bootloader/bootloader_for_weact/rt-thread/src/timer.c:516-544 | over every run that leaves it alone a queued periodic timer fires at its tick and then every period, at exactly those ticks, for as long as the run lasts |
| `SkipList.LaterIsAfter` | Bootloader/bootloader_for_weact/rt-thread/src/timer.c:359-366 | the wrapping insertion comparison agrees with the unwrapped deadlines whenever these are closer than half the tick range |
| `SkipList.ReachedIsDue` | Bootloader/bootloader_for_weact/rt-thread/src/timer.c:516-516 | the wrapping expiry test agrees with the unwrapped clock |
| `SkipList.RowsNest` | Bootloader/bootloader_for_weact/rt-thread/src/timer.c:342-391 | each row of the skip list is a subsequence of the row below it |
| `SkipList.RowInsert` | Bootloader/bootloader_for_weact/rt-thread/src/timer.c:342-391 | inserting into the queue inserts into every row up to the timer's height, at the place found there, and into no other |
| `SkipList.RowWithout` | Bootloader/bootloader_for_weact/rt-thread/src/timer.c:121-129 | removing a timer removes it from every row and changes nothing else |
| `SkipList.BottomRow` | Bootloader/bootloader_for_weact/rt-thread/src/timer.c:342-391 | the bottom row lists every pending timer in queue order |
| `SkipList.TimerList.constructor` | Bootloader/bootloader_for_weact/rt-thread/src/timer.c:679-687 | the empty list satisfies the invariant |
| `SkipList.TimerList.RowsSorted` | Bootloader/bootloader_for_weact/rt-thread/src/timer.c:342-391 | in every valid state each row is in circular tick order and a subsequence of the row below |
| `SkipList.TimerList.BottomIsQueue` | Bootloader/bootloader_for_weact/rt-thread/src/timer.c:342-391 | in every valid state the bottom row is the sorted queue |
| `SkipList.TimerList.RemoveAll` | Bootloader/bootloader_for_weact/rt-thread/src/timer.c:121-129 | the rows become those of the queue without the timer |
| `SkipList.TimerList.Search` | Bootloader/bootloader_for_weact/rt-thread/src/timer.c:342-370 | top-down search finds in every row the position behind the timers due no later |
| `SkipList.TimerList.Raise` | Bootloader/bootloader_for_weact/rt-thread/src/timer.c:376-391 | the timer enters the bottom row and as many rows above as the low bits of the insertion counter say |
| `SkipList.TimerList.Start` | Bootloader/bootloader_for_weact/rt-thread/src/timer.c:296-391 | with interrupts off: stable sorted insertion into the queue on the unwrapped clock |
| `SkipList.TimerList.BeginStart` | Bootloader/bootloader_for_weact/rt-thread/src/timer.c:310-315 | the first section takes the timer out of every row and clears its flag |
| `SkipList.TimerList.ReadTick` | Bootloader/bootloader_for_weact/rt-thread/src/timer.c:324-324 | the timeout tick on 32 bits is that of the unwrapped deadline counted from the tick read |
| `SkipList.TimerList.FinishStart` | Bootloader/bootloader_for_weact/rt-thread/src/timer.c:327-396 | the second section inserts the timer in every row by its timeout tick, however many ticks have passed, if the deadlines are within half the tick range |
| `SkipList.TimerList.StartSection` | Bootloader/bootloader_for_weact/rt-thread/src/timer.c:296-396 | each of the three takes the model's step and keeps the object valid |
| `SkipList.TimerList.Stop` | Bootloader/bootloader_for_weact/rt-thread/src/timer.c:422-445 | an inactive timer is refused and nothing changes; an active one is out of every row and inactive, every other entry, firing and pending start stays |
| `SkipList.TimerList.FireFirst` | Bootloader/bootloader_for_weact/rt-thread/src/timer.c:516-544 | the first timer is unlinked, called, and restarted if periodic and still active |
| `SkipList.TimerList.Check` | Bootloader/bootloader_for_weact/rt-thread/src/timer.c:494-547 | the loop fires exactly the timers the model fires |
| `SkipList.TimerList.Tick` | Bootloader/bootloader_for_weact/rt-thread/src/timer.c:494-547 | one tick of the 32-bit counter and a check take one step of the model |
| `Sched.BootOk` | Bootloader/bootloader_for_weact/rt-thread/src/scheduler.c:191-240 | a kernel with one running thread and no other started satisfies the invariant |
| `Sched.UnlinkOk` | Bootloader/bootloader_for_weact/rt-thread/src/scheduler.c:805-835 | taking a thread off its list disturbs no other list, whoever else is between two lists |
| `Sched.SuspendOk` | Bootloader/bootloader_for_weact/rt-thread/src/thread.c:715-750 | suspend keeps the invariant |
| `Sched.ResumeOk` | Bootloader/bootloader_for_weact/rt-thread/src/thread.c:764-799 | resume with interrupts off keeps the invariant |
| `Sched.ChangePriorityOk` | Bootloader/bootloader_for_weact/rt-thread/src/thread.c:630-671 | a priority change keeps the invariant; where it moves the thread is in `SchedEffects.ChangePriorityMeans` |
| `Sched.DeleteOk` | Bootloader/bootloader_for_weact/rt-thread/src/thread.c:431-462 | delete with interrupts off or of the caller itself, and exit, keep the invariant |
| `Sched.SetAsideOk` | Bootloader/bootloader_for_weact/rt-thread/src/thread.c:440-447 | after the first section of a deletion or resumption the thread is in no list and everything else is as it was |
| `Sched.CloseAsideOk` | Bootloader/bootloader_for_weact/rt-thread/src/thread.c:449-459 | the second section of a deletion keeps the invariant, whatever happened to other threads meanwhile |
| `Sched.InsertAsideOk` | Bootloader/bootloader_for_weact/rt-thread/src/thread.c:780-794 | the second section of a resumption keeps the invariant, whatever happened to other threads meanwhile |
| `Sched.Uninterrupted` | Bootloader/bootloader_for_weact/rt-thread/src/thread.c:431-462 | with nothing in between, the two sections are the one step |
| `Sched.ClosedInQueue` | Bootloader/bootloader_for_weact/rt-thread/src/thread.c:431-462 | if another caller suspends and resumes a ready thread between the sections of its deletion it ends up closed, defunct and in a ready queue |
| `Sched.QueuedTwice` | Bootloader/bootloader_for_weact/rt-thread/src/thread.c:764-799 | if another caller resumes a thread between the sections of its resumption it is queued twice |
| `Sched.BlockOk` | Bootloader/bootloader_for_weact/rt-thread/src/ipc.c:80-124 | suspending the running thread on a wait list keeps the invariant |
| `Sched.StartupOk` | Bootloader/bootloader_for_weact/rt-thread/src/thread.c:289-321 | startup keeps the invariant |
| `Sched.ScheduleOk` | Bootloader/bootloader_for_weact/rt-thread/src/scheduler.c:418-538 | rescheduling keeps the invariant and, unlocked with a thread ready, ends with a running thread that no ready thread outranks |
| `Sched.Run` | Bootloader/bootloader_for_weact/rt-thread/src/scheduler.c:418-835 | every run of startup, suspend, resume, blocking, timeout, priority change, delete, exit, locking and ticks, and of the separate sections of delete and resume with anything between them that leaves the thread alone, keeps the invariant |
| `Sched.Reachable` | Bootloader/bootloader_for_weact/rt-thread/src/scheduler.c:418-538 | in every reachable state a thread is queued exactly when it is READY, at its own priority and nowhere else, if and only if it is not READY in the middle of its deletion; and every operation that reschedules ends with the best thread running |
| `SchedEffects.ChangePriorityMeans` | Bootloader/bootloader_for_weact/rt-thread/src/thread.c:630-671 | the thread has the new priority and is otherwise as it was; if it was ready it is last in the queue of the new priority and in no other list, if not it stays where it is; all other threads, the order of the others in every list, the running thread and the lock are unchanged |
| `SchedEffects.SuspendMeans` | Bootloader/bootloader_for_weact/rt-thread/src/thread.c:715-750 | a ready or running thread is suspended and in no list, any other call changes nothing; all else is unchanged |
| `SchedEffects.ResumeMeans` | Bootloader/bootloader_for_weact/rt-thread/src/thread.c:764-799 | a suspended thread is ready, last in the queue of its priority and in no other list; any other call changes nothing; all else is unchanged |
| `SchedEffects.DeleteMeans` | Bootloader/bootloader_for_weact/rt-thread/src/thread.c:431-462 | the thread is closed, first among the defunct and in no other list; all else is unchanged |
| `SchedEffects.StartupMeans` | Bootloader/bootloader_for_weact/rt-thread/src/thread.c:289-321 | before it reschedules, startup makes the thread ready at its initial priority, last in that queue; all else is unchanged |
| `SchedEffects.TimeoutMeans` | Bootloader/bootloader_for_weact/rt-thread/src/thread.c:807-829 | before it reschedules, a timeout makes the thread ready, last in the queue of its priority and off the wait list; all else is unchanged |
| `SchedEffects.BlockMeans` | Bootloader/bootloader_for_weact/rt-thread/src/ipc.c:80-124 | the running thread is suspended and last on that wait list; all else is unchanged |
| `SchedEffects.ChargeMeans` | Bootloader/bootloader_for_weact/rt-thread/src/clock.c:72-96 | a tick takes one from what is left of the slice; the last one reloads the full slice and marks it as used up; all else is unchanged |
| `SchedEffects.SetAsideMeans` | Bootloader/bootloader_for_weact/rt-thread/src/thread.c:440-447 | the first section of a deletion or resumption takes the thread out of its list and changes nothing else |
| `SchedEffects.TakeUpMeans` | Bootloader/bootloader_for_weact/rt-thread/src/thread.c:449-459 | the second section of a deletion closes the thread and that of a resumption makes it ready, last in its queue |
| `SchedEffects.ScheduleMeans` | Bootloader/bootloader_for_weact/rt-thread/src/scheduler.c:418-538 | rescheduling changes nothing when locked, when nothing is queued, or when the running thread is better than the best queued one or equal to it with its slice not used up; otherwise the head of the best queue runs, a thread that was running goes to the end of its own queue, and nothing else changes |
| `SchedEffects.EffectMeans` | Bootloader/bootloader_for_weact/rt-thread/src/scheduler.c:418-835 | the state each of the sixteen events leaves before it reschedules, and that it changes nothing else |
| `SchedEffects.StepMeans` | Bootloader/bootloader_for_weact/rt-thread/src/scheduler.c:418-835 | a whole operation is that state, followed by rescheduling in exactly the cases in which the source calls it |
| `Scheduler.Scheduler.RemoveThread` | Bootloader/bootloader_for_weact/rt-thread/src/scheduler.c:805-835 | unlinks the thread and clears its priority bit exactly when its queue became empty |
| `Scheduler.Scheduler.InsertThread` | Bootloader/bootloader_for_weact/rt-thread/src/scheduler.c:708-742 | appends to the queue of its priority and sets the bit; the running thread is only marked |
| `Scheduler.Scheduler.Highest` | Bootloader/bootloader_for_weact/rt-thread/src/scheduler.c:162-184 | the lowest set bit is the first non-empty queue, and its head is returned |
| `Scheduler.Scheduler.Schedule` | Bootloader/bootloader_for_weact/rt-thread/src/scheduler.c:418-538 | leaves things alone or switches to the head of the best queue, exactly as `SchedEffects.ScheduleMeans` says, and keeps bit p set exactly when queue p is non-empty |
| `Scheduler.Scheduler.SuspendThread` | Bootloader/bootloader_for_weact/rt-thread/src/thread.c:715-750 | refuses a thread that is neither ready nor running; any other is suspended and in no list, and all else is unchanged |
| `Scheduler.Scheduler.ResumeThread` | Bootloader/bootloader_for_weact/rt-thread/src/thread.c:764-799 | with interrupts off: refuses a thread that is not suspended; any other is ready, last in its queue and in no other list, and all else is unchanged |
| `Scheduler.Scheduler.SetPriority` | Bootloader/bootloader_for_weact/rt-thread/src/thread.c:630-671 | the thread has the new priority and mask; if ready it is last in the queue of that priority and in no other list; bitmap and queues agree, and all else is unchanged |
| `Scheduler.Scheduler.DeleteThread` | Bootloader/bootloader_for_weact/rt-thread/src/thread.c:431-462 | with interrupts off or of the caller itself: the thread is closed, first among the defunct and in no other list, and all else is unchanged |
| `Scheduler.Scheduler.DeleteOffSection` | Bootloader/bootloader_for_weact/rt-thread/src/thread.c:440-444 | takes the model's step and keeps queues, bitmap and masks in agreement |
| `Scheduler.Scheduler.DeleteEndSection` | Bootloader/bootloader_for_weact/rt-thread/src/thread.c:449-459 | takes the model's step and keeps queues, bitmap and masks in agreement |
| `Scheduler.Scheduler.ResumeOffSection` | Bootloader/bootloader_for_weact/rt-thread/src/thread.c:782-791 | takes the model's step and keeps queues, bitmap and masks in agreement |
| `Scheduler.Scheduler.ResumeEndSection` | Bootloader/bootloader_for_weact/rt-thread/src/thread.c:793-794 | takes the model's step and keeps queues, bitmap and masks in agreement |
| `Scheduler.Scheduler.ExitThread` | Bootloader/bootloader_for_weact/rt-thread/src/thread.c:80-115 | the model's exit and reschedule |
| `Scheduler.Scheduler.StartupThread` | Bootloader/bootloader_for_weact/rt-thread/src/thread.c:289-321 | the model's startup |
| `Scheduler.Scheduler.TimeoutThread` | Bootloader/bootloader_for_weact/rt-thread/src/thread.c:807-829 | the model's timeout and reschedule |
| `Scheduler.Scheduler.BlockCurrent` | Bootloader/bootloader_for_weact/rt-thread/src/ipc.c:80-124 | the model's blocking of the running thread |
| `Scheduler.Scheduler.EnterCritical` | Bootloader/bootloader_for_weact/rt-thread/src/scheduler.c:878-893 | nesting goes up by one |
| `Scheduler.Scheduler.ExitCritical` | Bootloader/bootloader_for_weact/rt-thread/src/scheduler.c:940-965 | nesting goes down to no less than zero, and reschedules at zero |
| `Scheduler.Scheduler.TickIncrease` | Bootloader/bootloader_for_weact/rt-thread/src/clock.c:72-96 | the slice is charged, and at its end refilled with a reschedule |
| `RoundRobin.TickLast` | Bootloader/bootloader_for_weact/rt-thread/src/clock.c:84-96 | the last tick of a slice hands the processor to the head of the queue and sends the running thread to its end |
| `RoundRobin.TakesTurn` | Bootloader/bootloader_for_weact/rt-thread/src/clock.c:84-96 | a thread queued at the running level runs after exactly the sum of the slices left to the running thread and to those queued ahead of it, and not before |
| `WaitLists.Rank` | Bootloader/bootloader_for_weact/rt-thread/src/ipc.c:87-121 | with FIFO the new waiter goes last; with PRIO behind all of equal or better priority and before the first worse one |
| `WaitLists.Place` | Bootloader/bootloader_for_weact/rt-thread/src/ipc.c:93-118 | the search loop finds that position |
| `WaitLists.EnlistSorted` | Bootloader/bootloader_for_weact/rt-thread/src/ipc.c:80-124 | the list stays in wake-up order: arrival, or priority with ties by arrival |
| `WaitLists.EnlistMembers` | Bootloader/bootloader_for_weact/rt-thread/src/ipc.c:80-124 | exactly the new waiter is added, once |
| `WaitLists.DelistOk` | Bootloader/bootloader_for_weact/rt-thread/src/thread.c:816-826 | a timeout takes exactly that waiter off and keeps the order |
| `WaitLists.HeadFirst` | Bootloader/bootloader_for_weact/rt-thread/src/ipc.c:134-147 | the first of the list comes before all others in wake-up order |
| `MutexModel.TakeOk` | Bootloader/bootloader_for_weact/rt-thread/src/ipc.c:654-779 | a take keeps ownership, waiting and inheritance invariants |
| `MutexModel.ReleaseOk` | Bootloader/bootloader_for_weact/rt-thread/src/ipc.c:790-881 | a release keeps them, and the last one returns the owner to its own priority |
| `MutexModel.ReleaseMeans` | Bootloader/bootloader_for_weact/rt-thread/src/ipc.c:790-881 | the release of an inner take leaves the owner with one hold less and nothing else changed; the last one restores the owner's own priority and hands the mutex to the first waiter in wake-up order with one hold, or to nobody |
| `MutexModel.TimeoutOk` | Bootloader/bootloader_for_weact/rt-thread/src/thread.c:807-829 | a timeout keeps them |
| `MutexModel.ReturnOk` | Bootloader/bootloader_for_weact/rt-thread/src/ipc.c:753-778 | a resumed taker has RT_EOK exactly when it is the owner |
| `MutexModel.Exclusive` | Bootloader/bootloader_for_weact/rt-thread/src/ipc.c:654-881 | over every interleaving: value 1 iff no owner iff hold 0, waiters imply an owner, a blocked take returns RT_EOK exactly to the owner, everybody else is at its own priority, and with PRIO the waiters are sorted and none outranks the owner |
| `MutexModel.Run` | Bootloader/bootloader_for_weact/rt-thread/src/ipc.c:654-881 | every interleaving of takes, releases, timeouts and returns keeps ownership, waiting and inheritance invariants |
| `MutexEffects.TakeMeans` | Bootloader/bootloader_for_weact/rt-thread/src/ipc.c:654-779 | a take by the owner adds one hold and nothing else; of a free mutex it makes the caller owner with one hold; of a taken one it fails at once, or lists the caller and raises the owner to its priority if that is better |
| `MutexEffects.ReleaseExact` | Bootloader/bootloader_for_weact/rt-thread/src/ipc.c:790-881 | a release by another thread is refused; by the owner it takes one hold off, and at the last one restores its own priority and wakes the first waiter as the new owner, or frees the mutex; nothing else changes |
| `MutexEffects.OwnerStep` | Bootloader/bootloader_for_weact/rt-thread/src/ipc.c:654-881 | whatever the next call is, the owner keeps the mutex with its holds plus its own take or less its own release, unless that leaves none |
| `MutexEffects.HoldCounts` | Bootloader/bootloader_for_weact/rt-thread/src/ipc.c:654-881 | over every interleaving in which a thread's takes stay ahead of its releases it is the owner, and its holds are its takes less its releases since, counted from the calls |
| `MutexEffects.HoldEnds` | Bootloader/bootloader_for_weact/rt-thread/src/ipc.c:829-875 | the release with which the two become equal ends its ownership |
| `MutexEffects.NestsExactly` | Bootloader/bootloader_for_weact/rt-thread/src/ipc.c:654-881 | a thread that takes a free mutex n times owns it through all but the last of n releases and not after it |
| `MutexModel.HandoffInverts` | Bootloader/bootloader_for_weact/rt-thread/src/ipc.c:833-858 | a handoff leaves no waiter above the new owner if and only if the first waiter has the best priority |
| `MutexModel.FifoInversion` | Bootloader/bootloader_for_weact/rt-thread/src/ipc.c:833-858 | a run from a new FIFO mutex whose handoff leaves a waiter above the new owner |
| `Mutex.Mutex.constructor` | Bootloader/bootloader_for_weact/rt-thread/src/ipc.c:530-552 | an initial mutex satisfies the invariant |
| `Mutex.Mutex.TakeFor` | Bootloader/bootloader_for_weact/rt-thread/src/ipc.c:654-745 | keeps the invariants; the owner gets one hold more, a free mutex its first, and a caller that has to wait is refused at once or listed, lending the owner its priority |
| `Mutex.Mutex.ReleaseFor` | Bootloader/bootloader_for_weact/rt-thread/src/ipc.c:790-881 | keeps ownership, waiting and inheritance invariants; succeeds only for the owner; the release of an inner take leaves one hold less and the owner where it is; the last release gives the owner its own priority back and the mutex to the first waiter, or to nobody |
| `Mutex.Mutex.TimeoutFor` | Bootloader/bootloader_for_weact/rt-thread/src/thread.c:807-829 | keeps the invariants and takes exactly that waiter off the list, with its error set |
| `Mutex.Mutex.ReturnFrom` | Bootloader/bootloader_for_weact/rt-thread/src/ipc.c:753-778 | returns RT_EOK exactly to the owner |
| `Semaphore.InitialOk` | Bootloader/bootloader_for_weact/rt-thread/src/ipc.c:199-222 | a new semaphore satisfies the invariant |
| `Semaphore.StepOk` | Bootloader/bootloader_for_weact/rt-thread/src/ipc.c:324-471 | every step keeps the invariant, and a release goes to the first waiter in wake-up order |
| `Semaphore.StepMeans` | Bootloader/bootloader_for_weact/rt-thread/src/ipc.c:324-471 | a take uses up one unit, is refused, or lists the caller; a release adds one unit or wakes the first waiter with it; a timeout removes that waiter only; and none changes anything else |
| `Semaphore.Conserved` | Bootloader/bootloader_for_weact/rt-thread/src/ipc.c:324-471 | over every interleaving value at the start plus releases called equals value at the end plus takes served, both counted from the calls and the states they met; blocked waiters imply value 0, every handoff went to a waiter that comes before all those it left waiting, and FIFO handoffs follow arrival order across the run |
| `Semaphore.Sem.TakeFor` | Bootloader/bootloader_for_weact/rt-thread/src/ipc.c:324-395 | with a unit there is success and exactly one unit less, with waiters and threads unchanged; without one and no time to wait, failure and nothing changed; otherwise the caller is listed |
| `Semaphore.Sem.ReleaseOne` | Bootloader/bootloader_for_weact/rt-thread/src/ipc.c:433-471 | keeps the invariant; a unit goes to the first waiter in wake-up order, or to the value if nobody waits |
| `EventFlags.Antitone` | Bootloader/bootloader_for_weact/rt-thread/src/ipc.c:1062-1085 | clearing bits never satisfies a request |
| `EventFlags.SweepOk` | Bootloader/bootloader_for_weact/rt-thread/src/ipc.c:1053-1102 | the scan, which clears bits as it goes, leaves nobody waiting who could go on; everybody woken got bits that were set, a bit is gone exactly when a clearing waiter was given it, and no bit goes to two clearing waiters |
| `EventFlags.RecvOk` | Bootloader/bootloader_for_weact/rt-thread/src/ipc.c:1127-1237 | an immediate receive yields a non-empty part of what was asked, all of it with AND, and keeps the invariant |
| `EventFlags.NobodyMissed` | Bootloader/bootloader_for_weact/rt-thread/src/ipc.c:1029-1237 | over every interleaving no suspended waiter is satisfied by the event set, and everybody woken holds all it wanted (AND) or a non-empty part of it (OR) |
| `EventEffects.SweepExact` | Bootloader/bootloader_for_weact/rt-thread/src/ipc.c:1053-1102 | the scan passes the waiters first to last: one whose request is met by the bits that are then set wakes with exactly its share of them, which is gone for those behind it if it clears; any other is left as it was |
| `EventEffects.SendMeans` | Bootloader/bootloader_for_weact/rt-thread/src/ipc.c:1029-1111 | the scan starts with the old bits and all those sent, and what it leaves is the new set; sending no bits does nothing |
| `EventEffects.RecvMeans` | Bootloader/bootloader_for_weact/rt-thread/src/ipc.c:1127-1214 | a receive gets its share at once, removing the requested bits if it clears, fails at once, or is listed with its request; and nothing else changes |
| `EventFlags.EventObject.SendAll` | Bootloader/bootloader_for_weact/rt-thread/src/ipc.c:1029-1111 | the loop carries out the model's send; an empty set is refused |
| `EventFlags.EventObject.RecvFor` | Bootloader/bootloader_for_weact/rt-thread/src/ipc.c:1127-1214 | carries out the model's receive with its outcome |
| `Sides.WakeOneOk` | Bootloader/bootloader_for_weact/rt-thread/src/ipc.c:134-147 | each new item while somebody is blocked is matched by one more woken thread, the first in order |
| `Sides.ProceedOk` | Bootloader/bootloader_for_weact/rt-thread/src/ipc.c:1508-1530 | a woken thread that runs again uses an item unless others have taken them all |
| `Sides.BlockOk` | Bootloader/bootloader_for_weact/rt-thread/src/ipc.c:80-124 | a thread blocks only when there is no item, so no wakeup is lost |
| `QueueModel.StepOk` | Bootloader/bootloader_for_weact/rt-thread/src/ipc.c:1975-2442 | every section keeps pool partition, messages, thread bookkeeping and wakeups |
| `QueueEffects.StepMeans` | Bootloader/bootloader_for_weact/rt-thread/src/ipc.c:1975-2442 | what each section does to nodes, wait lists and the calling thread, urgent sends, copies and resets included, and that it does nothing else |
| `QueueEffects.Refines` | Bootloader/bootloader_for_weact/rt-thread/src/ipc.c:1975-2442 | over every interleaving the messages queued are those of a list computed from the calls alone: a send puts the message it was called with at the end when its last section runs, an urgent one at the front, receives take the first, a reset empties it; and each queued node carries its message |
| `QueueModel.OneOwner` | Bootloader/bootloader_for_weact/rt-thread/src/ipc.c:1975-2384 | over every interleaving each pool node is free, queued or in the hands of exactly one thread, and a receiver's copy agrees with the message that was first when it took the node |
| `QueueModel.NoLostWakeups` | Bootloader/bootloader_for_weact/rt-thread/src/ipc.c:2017-2124 | over every interleaving, with stealing, timeouts and resets: free nodes never outnumber woken senders while senders are blocked, nor messages woken receivers while receivers are blocked |
| `QueueModel.Conserved` | Bootloader/bootloader_for_weact/rt-thread/src/ipc.c:1975-2442 | over every run each message queued was received once, is still queued, or was dropped by a reset |
| `QueueModel.Fifo` | Bootloader/bootloader_for_weact/rt-thread/src/ipc.c:1975-2384 | without urgent messages and resets, messages are received in exactly the order they were queued |
| `QueueModel.LinkRefines` | Bootloader/bootloader_for_weact/rt-thread/src/ipc.c:2090-2108 | linking appends the sender's message, or prepends an urgent one |
| `QueueModel.RecvRefines` | Bootloader/bootloader_for_weact/rt-thread/src/ipc.c:2339-2348 | receiving takes the first message, or finds none |
| `QueueModel.FillStutters` | Bootloader/bootloader_for_weact/rt-thread/src/ipc.c:2087-2088 | copying into an unlinked node changes no queued message and no other node in flight |
| `QueueModel.OthersStutter` | Bootloader/bootloader_for_weact/rt-thread/src/ipc.c:1975-2384 | no other section touches the queue or a message |
| `QueueModel.DrainOk` | Bootloader/bootloader_for_weact/rt-thread/src/ipc.c:2354-2355 | what the receiver copies agrees with the message at the head when it was unlinked |
| `QueueModel.DrainExact` | Bootloader/bootloader_for_weact/rt-thread/src/ipc.c:2354-2355 | the bytes a receiver gets are the message if and only if there are as many; if there are more, they are the message followed by what the slot held behind it |
| `QueueModel.Leaks` | Bootloader/bootloader_for_weact/rt-thread/src/ipc.c:2354-2355 | a run in which a receiver with a large buffer gets bytes of an earlier message behind its own |
| `QueueModel.ResetOk` | Bootloader/bootloader_for_weact/rt-thread/src/ipc.c:2397-2442 | a reset keeps all invariants |
| `MessageQueue.InitialOk` | Bootloader/bootloader_for_weact/rt-thread/src/ipc.c:1781-1832 | a new queue satisfies the invariant |
| `MessageQueue.Thread` | Bootloader/bootloader_for_weact/rt-thread/src/ipc.c:1810-1820 | the loop links every node of the buffer into the free list |
| `Cells.CellsApart` | Bootloader/bootloader_for_weact/rt-thread/src/ipc.c:1805-1820 | the nodes of a buffer do not overlap and end inside it |
| `MessageQueue.Queue.constructor` | Bootloader/bootloader_for_weact/rt-thread/src/ipc.c:1781-1832 | represents the initial state |
| `MessageQueue.Queue.SendSection` | Bootloader/bootloader_for_weact/rt-thread/src/ipc.c:2004-2080 | one round of the send loop takes the model's step, with its outcome |
| `MessageQueue.Queue.UrgentSection` | Bootloader/bootloader_for_weact/rt-thread/src/ipc.c:2170-2189 | takes the model's step |
| `MessageQueue.Queue.FillNode` | Bootloader/bootloader_for_weact/rt-thread/src/ipc.c:2085-2088 | takes the model's step |
| `MessageQueue.Queue.AppendNode` | Bootloader/bootloader_for_weact/rt-thread/src/ipc.c:2090-2124 | relinks tail, head and counter as the model's append |
| `MessageQueue.Queue.PrependNode` | Bootloader/bootloader_for_weact/rt-thread/src/ipc.c:2194-2224 | relinks head, tail and counter as the model's prepend |
| `MessageQueue.Queue.RecvSection` | Bootloader/bootloader_for_weact/rt-thread/src/ipc.c:2262-2351 | one round of the receive loop takes the model's step, with its outcome |
| `MessageQueue.Queue.DrainNode` | Bootloader/bootloader_for_weact/rt-thread/src/ipc.c:2354-2355 | the buffer agrees with the message that was first in the queue |
| `MessageQueue.Queue.ReleaseNode` | Bootloader/bootloader_for_weact/rt-thread/src/ipc.c:2357-2383 | pushes the node on the free list and wakes a sender as the model does |
| `MessageQueue.Queue.FlushNodes` | Bootloader/bootloader_for_weact/rt-thread/src/ipc.c:2416-2431 | the loop moves all queued nodes to the free list, first to last, and changes no other link |
| `MessageQueue.Queue.ResetQueue` | Bootloader/bootloader_for_weact/rt-thread/src/ipc.c:2397-2442 | takes the model's reset step |
| `Mailbox.StepOk` | Bootloader/bootloader_for_weact/rt-thread/src/ipc.c:1442-1755 | every section keeps the invariant |
| `MailboxEffects.StepMeans` | Bootloader/bootloader_for_weact/rt-thread/src/ipc.c:1442-1755 | what each section does to the mails, the two wait lists and the calling thread, and that it does nothing else |
| `MailboxEffects.Refines` | Bootloader/bootloader_for_weact/rt-thread/src/ipc.c:1442-1755 | over every interleaving the mails are those of a bounded queue computed from the calls alone: a send appends the value it was called with if there is room, a receive takes the first, a reset empties it |
| `Mailbox.NoLostWakeups` | Bootloader/bootloader_for_weact/rt-thread/src/ipc.c:1473-1713 | over every interleaving, with stealing, timeouts and resets: free slots never outnumber woken senders while senders are blocked, nor mails woken receivers while receivers are blocked; and mails leave in the order they were posted |
| `Mailbox.Box.constructor` | Bootloader/bootloader_for_weact/rt-thread/src/ipc.c:1294-1323 | the empty ring represents an empty mailbox |
| `Mailbox.Box.Put` | Bootloader/bootloader_for_weact/rt-thread/src/ipc.c:1535-1542 | the ring buffer appends |
| `Mailbox.Box.Get` | Bootloader/bootloader_for_weact/rt-thread/src/ipc.c:1683-1691 | the ring buffer takes the first mail |
| `Mailbox.Box.SendSection` | Bootloader/bootloader_for_weact/rt-thread/src/ipc.c:1467-1560 | one round of the send loop takes the model's step, with its outcome |
| `Mailbox.Box.RecvSection` | Bootloader/bootloader_for_weact/rt-thread/src/ipc.c:1613-1713 | one round of the receive loop takes the model's step, with its outcome and the first mail |
| `Mailbox.Box.ResetBox` | Bootloader/bootloader_for_weact/rt-thread/src/ipc.c:1726-1757 | takes the model's reset step |
| `Mempool.StepOk` | Bootloader/bootloader_for_weact/rt-thread/src/mempool.c:303-449 | every step keeps the invariant |
| `Mempool.StepMeans` | Bootloader/bootloader_for_weact/rt-thread/src/mempool.c:303-449 | a caller takes the first free block, gives up, or sleeps in front of all others; a freed block goes in front and wakes the first sleeper; nothing else changes |
| `Mempool.Refines` | Bootloader/bootloader_for_weact/rt-thread/src/mempool.c:303-449 | over every interleaving the free blocks are a stack computed from the calls alone, and all other blocks are handed out |
| `Mempool.Conserved` | Bootloader/bootloader_for_weact/rt-thread/src/mempool.c:303-449 | in every run of allocations, frees and timeouts each block is free once or handed out, none is lost, and no sleeper is left behind by a free block |
| `Mempool.OutApart` | Bootloader/bootloader_for_weact/rt-thread/src/mempool.c:96-121 | blocks handed out lie inside the pool and do not overlap |
| `Mempool.Thread` | Bootloader/bootloader_for_weact/rt-thread/src/mempool.c:109-118 | the loop and the store behind it chain all blocks in address order |
| `Mempool.Pool.constructor` | Bootloader/bootloader_for_weact/rt-thread/src/mempool.c:77-124 | all blocks are free and counted |
| `Mempool.Pool.AllocSection` | Bootloader/bootloader_for_weact/rt-thread/src/mempool.c:314-388 | one round of the loop takes the model's step; the block taken is stamped with its pool and the counter is the chain's length |
| `Mempool.Pool.FreeBlock` | Bootloader/bootloader_for_weact/rt-thread/src/mempool.c:399-449 | null is ignored; any other block carries its pool's stamp and goes to the front of the chain, waking the first sleeper |
| `PageModel.AllocOk` | Bootloader/bootloader_for_weact/rt-thread/src/slab.c:236-270 | the list stays sorted, disjoint and coalesced and loses exactly the pages returned; failure changes nothing |
| `PageModel.AllocFirst` | Bootloader/bootloader_for_weact/rt-thread/src/slab.c:246-264 | whenever some stretch of n free pages exists the allocation succeeds, at an address no higher than that stretch |
| `PageModel.AllocFails` | Bootloader/bootloader_for_weact/rt-thread/src/slab.c:246-264 | allocation fails if and only if there is no stretch of that many free pages |
| `PageModel.FreeOk` | Bootloader/bootloader_for_weact/rt-thread/src/slab.c:272-322 | the list stays sorted, disjoint and coalesced and gains exactly the freed pages |
| `PageModel.Canonical` | Bootloader/bootloader_for_weact/rt-thread/src/slab.c:272-322 | a coalesced list is determined by the set of its pages |
| `PageModel.AllocThenFree` | Bootloader/bootloader_for_weact/rt-thread/src/slab.c:236-322 | giving back what was just taken restores the list exactly |
| `Pages.PageList.constructor` | Bootloader/bootloader_for_weact/rt-thread/src/slab.c:327-334 | one run holding all pages |
| `Pages.PageList.PageAlloc` | Bootloader/bootloader_for_weact/rt-thread/src/slab.c:236-270 | the pointer walk and stores carry out first fit on the list |
| `Pages.PageList.PageFree` | Bootloader/bootloader_for_weact/rt-thread/src/slab.c:272-322 | the pointer walk and stores carry out the coalescing free on the list |
| `Zones.ZoneIndexOk` | Bootloader/bootloader_for_weact/rt-thread/src/slab.c:401-459 | every request below 16 KiB gets an index below 72 and that index's chunk size, which holds it with less than 8 bytes or at most an eighth of waste |
| `Zones.SameZone` | Bootloader/bootloader_for_weact/rt-thread/src/slab.c:401-459 | two requests share an index exactly when they share a chunk size |
| `Zones.OffsetOk` | Bootloader/bootloader_for_weact/rt-thread/src/slab.c:628-638 | chunks start behind the header at a multiple of 8, and of the chunk size if that is a power of two |
| `Zones.OffsetLeast` | Bootloader/bootloader_for_weact/rt-thread/src/slab.c:628-638 | they start as early as that alignment lets them |
| `Zones.CapacityFull` | Bootloader/bootloader_for_weact/rt-thread/src/slab.c:628-639 | a zone has as many chunks as fit behind its header |
| `Bits.PowerTest` | Bootloader/bootloader_for_weact/rt-thread/src/slab.c:635-635 | the or-and-increment test holds exactly of the powers of two |
| `Zones.NewZoneOk` | Bootloader/bootloader_for_weact/rt-thread/src/slab.c:640-648 | a new zone with its first chunk handed out satisfies the zone invariant |
| `Zones.TakeOk` | Bootloader/bootloader_for_weact/rt-thread/src/slab.c:539-568 | a zone with a positive counter hands out a chunk that was not in use, and every touched chunk stays in use or listed, once, with the counter equal to untouched plus listed chunks |
| `Zones.GiveOk` | Bootloader/bootloader_for_weact/rt-thread/src/slab.c:830-846 | a freed chunk goes back on the list and the zone invariant holds |
| `Zones.FullIsUnused` | Bootloader/bootloader_for_weact/rt-thread/src/slab.c:854-855 | the counter is at its maximum exactly when no chunk is in use |
| `Zones.ChunksInside` | Bootloader/bootloader_for_weact/rt-thread/src/slab.c:628-648 | chunks in use lie behind the header, inside the zone, and do not overlap |
| `Zones.ChunksAligned` | Bootloader/bootloader_for_weact/rt-thread/src/slab.c:631-638 | chunks are 8-byte aligned, and size-aligned for power-of-two sizes in an aligned zone |
| `SlabZone.Header.constructor` | Bootloader/bootloader_for_weact/rt-thread/src/slab.c:625-648 | represents the new zone |
| `SlabZone.Header.TakeChunk` | Bootloader/bootloader_for_weact/rt-thread/src/slab.c:539-568 | takes the model's chunk |
| `SlabZone.Header.GiveChunk` | Bootloader/bootloader_for_weact/rt-thread/src/slab.c:830-846 | pushes the chunk on the zone's chain |
| `SlabRuns.MallocOk` | Bootloader/bootloader_for_weact/rt-thread/src/slab.c:478-659 | undisturbed, allocation keeps page list, zones, zone lists and page marks consistent and hands out a block that was not in use, at least as large as asked; failure changes nothing |
| `SlabRuns.MallocFails` | Bootloader/bootloader_for_weact/rt-thread/src/slab.c:486-607 | undisturbed, allocation fails if and only if the size is zero or no stretch of free pages is long enough and, for a small request, no zone of its index has a chunk left and no zone is spare |
| `SlabEffects.RoomTight` | Bootloader/bootloader_for_weact/rt-thread/src/slab.c:486-568 | a block is no larger than it has to be: no page beyond those the request reaches into, or a chunk with less than 8 bytes or at most an eighth of waste |
| `SlabEffects.ServedAtOnce` | Bootloader/bootloader_for_weact/rt-thread/src/slab.c:496-568 | a small request is served without new pages exactly when a zone of its index has a chunk left or a zone is spare |
| `SlabRuns.Finds` | Bootloader/bootloader_for_weact/rt-thread/src/slab.c:795-828 | the page marks lead from any live block to its zone or to its page count |
| `SlabRuns.FreeBlockOk` | Bootloader/bootloader_for_weact/rt-thread/src/slab.c:771-904 | undisturbed, free takes exactly that block out of use and keeps everything consistent |
| `SlabRuns.FreeSection` | Bootloader/bootloader_for_weact/rt-thread/src/slab.c:795-903 | up to the page allocator, free takes exactly that block out of use; the pages it is about to return hold no block and are in nobody else's hands |
| `SlabEffects.ChunkMeans` | Bootloader/bootloader_for_weact/rt-thread/src/slab.c:830-904 | a freed chunk is the next one its zone hands out again; a zone that is unused then leaves the array exactly if another of its index has chunks left, to become the first spare one or to go back to the page allocator if two are spare already; no other zone changes |
| `SlabRuns.PlaceAdds` | Bootloader/bootloader_for_weact/rt-thread/src/slab.c:490-657 | pages got from the page allocator become a block, or a zone with its first chunk handed out, whatever others did to lists and spare zones meanwhile |
| `SlabRuns.StepGood` | Bootloader/bootloader_for_weact/rt-thread/src/slab.c:478-904 | every section under the heap lock keeps heap, owed blocks and pages in flight consistent |
| `SlabRuns.OffFlight` | Bootloader/bootloader_for_weact/rt-thread/src/slab.c:478-904 | no live block lies on pages that are between two sections of some caller |
| `SlabRuns.BlocksApart` | Bootloader/bootloader_for_weact/rt-thread/src/slab.c:478-659 | two live blocks are the same or disjoint |
| `SlabRuns.OffFreePages` | Bootloader/bootloader_for_weact/rt-thread/src/slab.c:478-904 | no live block overlaps a free page |
| `SlabRuns.RunGood` | Bootloader/bootloader_for_weact/rt-thread/src/slab.c:478-904 | after every interleaving of the sections of rt_malloc and rt_free exactly the blocks owed to the clients are live, each large enough, and pages in flight belong to no zone and no block |
| `SlabRuns.OwedApart` | Bootloader/bootloader_for_weact/rt-thread/src/slab.c:478-904 | after every such interleaving the bytes asked for in two different blocks do not overlap |
| `SlabEffects.ReturnedWhole` | Bootloader/bootloader_for_weact/rt-thread/src/slab.c:272-322 | pages given back are free again, and no other page changes hands |
| `SlabEffects.StepComplete` | Bootloader/bootloader_for_weact/rt-thread/src/slab.c:478-904 | every section keeps each page free or in exactly one pair of hands, and at most two zones spare |
| `SlabEffects.RunComplete` | Bootloader/bootloader_for_weact/rt-thread/src/slab.c:478-904 | over every interleaving of sections no page is lost: each is free, or held by exactly one of the usage table, a zone, one of at most two spare zones, a large allocation and a caller between two sections |
| `SlabEffects.InitialComplete` | Bootloader/bootloader_for_weact/rt-thread/src/slab.c:344-394 | the heap after initialisation has all its pages, free or in the usage table |
| `SlabRuns.InitialGood` | Bootloader/bootloader_for_weact/rt-thread/src/slab.c:344-394 | the heap after initialisation is consistent and owes nothing |
| `Flash.ProgramOnPage` | Bootloader/bootloader_for_weact/applications/w25qxx.c:474-509 | a program command that stays on its page ands exactly the data in |
| `Flash.ProgramStaysOnPage` | Bootloader/bootloader_for_weact/applications/w25qxx.c:474-509 | a program command never changes another page, even when it wraps |
| `Flash.WriteExact` | Bootloader/bootloader_for_weact/applications/w25qxx.c:518-551 | after a write the range holds the data if and only if no bit had to go from 0 to 1 |
| `Flash.RoundTrip` | Bootloader/bootloader_for_weact/applications/w25qxx.c:389-418 | after a block erase a write inside the block reads back exactly, and every other block is unchanged |
| `Flash.Driver.WriteEnable` | Bootloader/bootloader_for_weact/applications/w25qxx.c:271-307 | succeeds if and only if both calls do and the chip is idle, and then the chip will accept the next command |
| `Flash.Driver.BlockErase64K` | Bootloader/bootloader_for_weact/applications/w25qxx.c:389-418 | success means the block is erased and the chip idle; failure leaves the memory as it was or erased |
| `Flash.Driver.WritePage` | Bootloader/bootloader_for_weact/applications/w25qxx.c:474-509 | some prefix of the data is written, all of it if and only if the chip is idle and the calls up to the transfer succeed, or the transfer moves it all; with at most one program command |
| `Flash.Driver.WriteBuffer` | Bootloader/bootloader_for_weact/applications/w25qxx.c:518-551 | terminates; exactly a prefix of the buffer is written, so a failing page leaves later ones untouched; it is all of it, and the result is success, if and only if the chip is idle and the calls named succeed; no program command crosses a page |
| `Flash.Driver.ReadBuffer` | Bootloader/bootloader_for_weact/applications/w25qxx.c:560-590 | what the buffer holds afterwards, exactly, by the results of command and transfer and the chip's readiness; success if and only if all three calls succeed |
| `Flash.Driver.EraseSector` | FlashAlgorithm/flm_h750/Flash/FlashPrg.c:75-85 | 0 means that the block is erased and the chip idle, which a reliable hardware layer and an idle chip guarantee |
| `Flash.Driver.ProgramPage` | FlashAlgorithm/flm_h750/Flash/FlashPrg.c:110-116 | reports success whatever came of the write; all of the data has been written if and only if the chip was idle and the calls of each page up to its transfer succeeded |
| `Flash.Driver.Verify` | FlashAlgorithm/flm_h750/Flash/FlashPrg.c:130-145 | returns the first address that differs in what was read, exactly as command, transfer and chip let it be read; that is the first address where the chip differs if command and transfer brought the whole range from an idle chip |
| `Flash.VerifyTrusted` | FlashAlgorithm/flm_h750/Flash/FlashPrg.c:130-145 | Verify is right for every memory, stale buffer and data if and only if the command succeeded, the chip was idle and the transfer succeeded or moved the whole range |
| `Flash.PrefixEnough` | FlashAlgorithm/flm_h750/Flash/FlashPrg.c:110-116 | a written prefix leaves the same memory as the whole data if and only if the rest would clear no bit |
| `Flash.ProgramPageFails` | FlashAlgorithm/flm_h750/Flash/FlashPrg.c:110-116 | a run in which ProgramPage reports success and nothing has been written |
| `Flash.VerifyFails` | FlashAlgorithm/flm_h750/Flash/FlashPrg.c:130-145 | a run in which Verify finds data that are not on the chip |
| `Flash.Driver.Burn` | FlashAlgorithm/flm_h750/Flash/FlashPrg.c:75-145 | erase, program and verify on an idle chip with a reliable hardware layer return adr + sz, with the data in place and all other blocks unchanged |

## Left out

- SMP, signals (and the retry of rt_mutex_take after -RT_EINTR), hooks, debug logging, modules, the object and device registries, idle.c, irq.c, kservice.c and mem.c.
- Hardware access: HAL calls are steps that succeed or fail as a parameter says; a failing transfer moves some prefix of its data.
- Choosing among several memory heaps (rt_malloc and rt_realloc of memheap.c), and the semaphore that locks one heap: an operation on a heap runs under its lock as one step. A moving reallocation takes the lock twice; undisturbed it is one step that passes through the heap in the middle, and with others in between it is, in `HeapRuns` and `HeapContents`, an allocation, writes and a free by whoever holds the block.
- HeapModel.ReallocBreaks: which words of the overlapped header are lost is not followed further.
- Memheap.MemHeap.Alloc: the header writes of one split or merge are grouped by link rather than in the order of the source lines, which nobody can see inside one locked section.
- HeapModel.InitOk: asks for an aligned start and room for two headers; smaller pools underflow in the source.
- TimerModel.Fires: timeout functions that start their own timer, periodic timers of period 0 and rt_tick_set are outside the statement, as is changing the period of a pending timer other than by starting it anew.
- TimerModel.Exact: nobody else starts a timer whose start is under way, and an interrupted start reaches the queue within a bound that, added to the longest time, stays below half the tick range; beyond that the 32-bit comparison itself goes wrong.
- TimerModel.StepOk: rt_timer_stop is one step; the source tests the flag before its section and clears it behind it, which can only be told by what a stop that meets a tick there returns.
- Soft timers, rt_timer_detach and rt_timer_delete, and rt_timer_next_timeout_tick.
- Sched.Reachable: wait lists hold threads in arrival order; their order by priority is in WaitLists. Threads are not created or freed, only started, closed and listed as defunct.
- Sched.Run: nobody, the thread's own timer included, turns to a thread between the two sections of its deletion or resumption, and neither is called by the thread on itself with interrupts on, except that a running thread that deletes itself is one step, its first section changing nothing.
- rt_thread_detach, which closes the thread between its sections.
- The stretch between rt_schedule calls: lowering the running thread in rt_mutex_release does not reschedule, so the running thread need not be the best one there.
- rt_thread_yield, rt_thread_sleep and rt_thread_delay_until as services of their own.
- MutexModel.Exclusive: one mutex used alone, with no explicit priority changes and nesting within the 8-bit hold counter; inheritance over several mutexes is not what the source provides.
- Semaphore.Conserved: the value stays within 16 bits; rt_sem_control is not modelled.
- Detaching and deleting IPC objects and pools, and rt_event_control.
- Mempool.Pool.constructor: asks for memory for at least one block; with none the source writes in front of the pool.
- SlabRuns.MallocOk: the undisturbed call; with others between its sections see SlabRuns.StepGood, where pages for a zone may be asked for at any time, whether or not a zone was looked for before.
- SlabRuns.FreeBlockOk: the undisturbed call; with others between its sections see SlabRuns.FreeSection and SlabRuns.StepGood.
- SlabRuns.RunGood: zone lists and page marks are values here, while page list and zone chains are also modelled in place. rt_realloc and rt_calloc of slab.c are not modelled.
- Flash.Driver.WriteBuffer: asks for a non-empty buffer inside the chip.
- Memory-mapped mode, sector and chip erase, reset and identification of the flash chip, and the boot code around it.
