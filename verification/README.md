# Verification of the kernel's in-memory data structures

This project models nine parts of a RIOT-based kernel for Sancus and MSP430 in Dafny and proves what
they promise. Each part has an abstract description on sequences and maps, with its invariant and its
theorems, and the code in the form it runs, proved to carry that description out. Run
`dafny verify dfyconfig.toml` to verify everything.

- **Heap allocator** (`Memory`, `Ascending`, `HeapLayout`, `HeapRuns`, `HeapLinks`, `Allocator`). A heap
  layout is the map of chunks, the free list and the break. Sound layouts are determined by their live
  chunks, so `free` can be stated as "the sound layout without this block". `Allocator.Heap` is the code
  on an array of 65536 bytes with little-endian words.
- **Circular list and its merge sort** (`CircularList`, `MergeSpec`, `CircularSort`) on linked node objects.
- **Scheduler, run queues and mutexes** (`Scheduling`, `WaitOrder`, `Mutexes`, `SchedulerRuns`,
  `SchedulerEffects`, `SchedulerReference`; `BitCache`, `LinkedChains`, `KeyedLists`, `KernelLinks`, `Kernel`).
  One link per thread serves run queues and mutex queues. Every entry into the kernel is one step, and a
  reference says of each what it does to which field, completely.
- **Timer multiplexer** (`Timers`, `Multiplexer`): the period clock and the timer lists. The hardware counter
  is an argument wherever the code reads it.
- **Calendar** (`Calendar`), **division by multiplication** (`Remainders`, `Division`), **UART receive
  buffer** (`Uart`, one step per access to a shared variable), **circular index buffer and mailbox**
  (`CircularIndex`, `Mailboxes`) and **byte ring buffer** (`RingBuffer`). `Sequences` and `Windows` hold what
  several parts need about sequences.

Pointers into the thread table and the timer storage are indices, 0 for NULL; a mutex word is -1 for
`mutex_LOCKED`. Fixed widths are written out where they matter: 16-bit addresses and sizes in the allocator,
the 16- and 32-bit counters, the 32- and 64-bit products.

Where the code does not do what its documentation says, or does so only if its callers take care, the code is
modelled and the exact condition is proved:

- `realloc` with a length below 2 on a block of more than four bytes leaves a block too small to be freed, and
  on the topmost chunk a length of 0xFFFE or more wraps the break (`HeapRuns.ReallocKeeps`; inputs in
  `HeapRuns.ReallocStarves` and `HeapRuns.ReallocWraps`).
- `div_u64_by_15625`, and with it `div_u64_by_1000000`, and both versions of the division by 15625/512 are one too
  large for some dividends (`Division.By15625Low`, `Division.By1000000Right`, `Division.By15625Div512Exact`; first
  inputs in `Division.By15625First`, `Division.By1000000Fails`, `Division.By15625Div512Fails` and
  `Division.By15625Div512FailsLong`).
- A timer whose 32-bit target lies in the first 300 ticks of a 32-bit period gets a deadline that is 2^32 ticks
  too early, unless it is less than 300 ticks ahead; one from 201 to 299 ticks ahead with any other target gets
  one that is 2^32 ticks too late (`Timers.DeadlineExact`; inputs in `Timers.DeadlineFails`). A deadline that is
  too early puts the timer on a list overdue, where it holds up the timers behind it; exactly when setting a
  timer keeps the lists in order is `Timers.InsertKeeps`, with an input that does not in `Timers.InsertFails`.
- Changing the timer period drops the timers of a current list that is not empty (`Timers.NextPeriodKeeps`; input
  in `Timers.NextPeriodFails`).
- `ringbuffer_remove` leaves `start` one past the array when the removed bytes end there (`RingBuffer.Buffer.Remove`;
  input in `RingBuffer.RemoveFails`). Adding and bulk reading still work from there, a single read of a buffer that
  is not empty does not.
- `sched_set_status` takes the first thread off a run queue whichever thread was meant, and it links a thread into
  a run queue even if its link is in use on a mutex queue (`Scheduling.SetStatusKeeps`; inputs in
  `Scheduling.SetStatusFails` and `Scheduling.ExpireFails`). A timer fires for its thread whatever that has done
  since: waking a thread early or ending it does not stop its timer. Firing is right exactly when each thread has
  its slot in use and does not wait for a mutex (`Scheduling.ExpireKeeps`; inputs in `Scheduling.ExpireFails` and
  `Scheduling.ExpireEnded`).
- `mutex_unlock` does not ask who unlocks (`Mutexes.ReleaseKeeps`; input in `Mutexes.ReleaseFails`).

## Model

| member | source | states |
|---|---|---|
| HeapLayout.MallocSound | cpu/msp430_common/malloc.c:79-216 | From every sound heap layout malloc leads to a sound one in which exactly one block was added: it was not live before, holds the request and wastes less than a chunk. It fails only when no free chunk is large enough and the break cannot move, and then nothing changes. Sound means: live and free chunks tile the bytes from the heap start to the break exactly, the free list holds exactly the free chunks in ascending order, no two of them touch and none touches the break. |
| HeapRuns.FitIsBest | cpu/msp430_common/malloc.c:106-132 | The entry the search finds is the best of all free chunks of the heap, and it finds none exactly when no free chunk is large enough. |
| HeapRuns.MallocServes | cpu/msp430_common/malloc.c:91-216 | A request is served from the smallest free chunk that holds it, the lowest of that size: from its upper end, or from all of it when the rest could not be a chunk. The break moves only when no free chunk holds the request, and then by exactly the new chunk; malloc fails exactly when that would pass the heap end. |
| HeapLayout.BestFit | cpu/msp430_common/malloc.c:106-132 | The entry chosen is large enough, no smaller sufficient one exists, and it is the first of its size; without a sufficient entry the length of the list is returned. |
| HeapLayout.TakeWholeSound | cpu/msp430_common/malloc.c:143-154 | Taking a whole free chunk keeps the layout sound and turns just that chunk live. |
| HeapLayout.SplitSound | cpu/msp430_common/malloc.c:164-171 | Handing out the upper part of a free chunk keeps the layout sound: both parts tile the old chunk, the lower one stays on the list. |
| HeapLayout.ExtendSound | cpu/msp430_common/malloc.c:204-210 | Moving the break up adds one live chunk at the old break and keeps the layout sound. |
| HeapLayout.InsertSound | cpu/msp430_common/malloc.c:263-290 | Entering a given-back chunk at its place leaves the list complete and ascending; only the new entry and the one below may now touch a neighbour. |
| HeapLayout.JoinSound | cpu/msp430_common/malloc.c:271-296 | Joining an entry with the one above it when they touch restores the gap and changes no live chunk. |
| HeapLayout.TrimSound | cpu/msp430_common/malloc.c:297-314 | A last entry that touches the break is given back by lowering the break; afterwards the layout is sound and the live chunks are the same. |
| HeapLayout.ReleaseSteps | cpu/msp430_common/malloc.c:218-317 | Insert, join upwards, join downwards and lower the break, one after the other, lead from a sound layout to the sound one without the chunk given back. |
| HeapLayout.ReleaseBySteps | cpu/msp430_common/malloc.c:218-317 | Any sound layout with the same start whose live chunks are those left over is the result of these steps. |
| HeapLayout.Canonical | cpu/msp430_common/malloc.c:218-317 | There is only one sound layout for given live chunks: coalescing is complete, so neither the free list nor the break depends on the order of calls. |
| HeapRuns.ReallocSound | cpu/msp430_common/malloc.c:321-450 | For every live block and every length the layout after realloc is sound exactly when the request does not wrap past the top of memory; then the new block holds the length, other live chunks stay where they were, and a failure changes nothing. |
| HeapRuns.ReallocServes | cpu/msp430_common/malloc.c:321-450 | realloc leaves a block where it is if and only if it does not grow, or the free chunk touching it from above has the room, or it is the topmost block, no free chunk holds the request and the heap end is above the new end. Any other request is served like one to malloc, except that it fails for the topmost block no free chunk can replace, and when the new end wraps. |
| HeapRuns.ReallocSizes | cpu/msp430_common/malloc.c:349-440 | A block that stays has exactly the length asked for afterwards, except that it gives nothing back, or takes the whole chunk above it, when what would be left could not be a chunk. |
| HeapRuns.ReallocTight | cpu/msp430_common/malloc.c:349-449 | A block returned by realloc holds the length asked for and at most four bytes more. |
| HeapRuns.AboveIs | cpu/msp430_common/malloc.c:374-383 | The entry found above a block is the free chunk that touches it, and none is found exactly when none does. |
| HeapRuns.ReallocKeeps | cpu/msp430_common/malloc.c:341-367 | realloc leads to a heap that is sound and whose blocks can all be freed if and only if it neither wraps on the topmost chunk (lengths of 0xFFFE and more) nor shrinks a block of more than four bytes below two. |
| HeapRuns.ReallocWraps | cpu/msp430_common/malloc.c:341-440 | A heap of one two-byte block on which a length of 0xFFFE moves the break back to the start of the block. |
| HeapRuns.ReallocStarves | cpu/msp430_common/malloc.c:354-368 | A heap of one eight-byte block which a length of 0 leaves without room for a link. |
| HeapRuns.ShrinkSound | cpu/msp430_common/malloc.c:354-368 | Shrinking keeps the block in place and gives back exactly the released part, or nothing when it is too small for a chunk. |
| HeapRuns.GrowSound | cpu/msp430_common/malloc.c:374-405 | Growing into the free chunk above keeps the block in place; the rest of that chunk stays free when it is large enough, otherwise it is used whole. |
| HeapRuns.TopSound | cpu/msp430_common/malloc.c:419-440 | Growing the topmost chunk moves the break, and is sound exactly when the new end was not wrapped. |
| HeapRuns.MoveSound | cpu/msp430_common/malloc.c:442-449 | Moving a block allocates the new chunk before it gives the old one back, and no other live chunk changes. |
| HeapRuns.StepHealthy | cpu/msp430_common/malloc.c:79-450 | Every legal call of malloc, free or realloc keeps the layout sound, within 16-bit addresses, and every block large enough to be freed later. |
| HeapRuns.StepLive | cpu/msp430_common/malloc.c:79-450 | A step adds one new live block, takes away exactly the one freed, or replaces the one resized, and touches no other. |
| HeapRuns.RunHealthy | cpu/msp430_common/malloc.c:79-450 | The same for every state of every run of such calls, of any length and in any order. |
| HeapRuns.HistoryIndependent | cpu/msp430_common/malloc.c:79-450 | Two runs over the same heap that leave the same blocks allocated leave the same free list and the same break. |
| HeapRuns.WalkVisitsAll | cpu/msp430_common/malloc.c:79-450 | Stepping over the headers from the heap start meets every chunk once, in ascending order, and headers and payloads add up to the distance to the break. |
| HeapRuns.StatsCountOnce | cpu/msp430_common/malloc.c:464-478 | What heap_stats reports as free, plus all headers and live payloads, is exactly the distance it measures: no byte is counted twice or forgotten. |
| Allocator.Search | cpu/msp430_common/malloc.c:106-132 | The loop over the list in memory returns the best-fit entry and its predecessor. |
| Allocator.Heap.constructor | cpu/msp430_common/malloc.c:64-77 | The heap before the first call shows the empty layout. |
| Allocator.Heap.Malloc | cpu/msp430_common/malloc.c:79-216 | On 64 KiB of bytes: the links and sizes in memory show exactly the layout the abstract malloc leads to, the pointer returned is its new block, and no byte of any live block changes. The pointer is NULL exactly when no free chunk holds the request and the break cannot move, the block behind it is new and holds the request, and the break moves only when no free chunk holds the request. |
| Allocator.Heap.Free | cpu/msp430_common/malloc.c:218-317 | free makes the memory show the one sound layout without the block, keeps every byte of the other blocks, and does nothing for NULL. |
| Allocator.Heap.Shrink | cpu/msp430_common/malloc.c:354-368 | The shrunk block keeps its remaining bytes, the released part is a free chunk, all other blocks keep their bytes. |
| Allocator.Heap.GrowInto | cpu/msp430_common/malloc.c:374-405 | The list is relinked around the chunk grown into; the bytes of the grown block and of all others are kept; it has at least the length asked for and at most four bytes more. |
| Allocator.Heap.AtTop | cpu/msp430_common/malloc.c:419-440 | Either the break moves and the block grows in place, or NULL is returned and nothing changes; the wrapping request is described exactly. |
| Allocator.Heap.Move | cpu/msp430_common/malloc.c:442-449 | The payload arrives unchanged in a new block and the old one is free; without memory NULL is returned and the old block is intact. |
| Allocator.Heap.Realloc | cpu/msp430_common/malloc.c:321-450 | On all paths memory shows exactly the layout the abstract realloc leads to, the first min(old, new) bytes are found at the pointer returned, every other live block keeps its bytes, and after NULL the heap is as it was; the block at the pointer holds the length and at most four bytes more, and is the old one or new; the heap is valid afterwards if and only if the request did not wrap. |
| Allocator.Heap.Stats | cpu/msp430_common/malloc.c:464-478 | The numbers reported are the occupied and the free bytes of the heap. |
| MergeSpec.MergeOrdered | core/clist.c:94-135 | Merging two ordered runs, the first of earlier elements, gives an ordered run in which equal elements keep their order. |
| MergeSpec.PassRuns | core/clist.c:75-139 | A pass over ordered runs of w elements leaves ordered runs of 2w. |
| MergeSpec.SortIsStable | core/clist.c:52-153 | For every total preorder the result has the same elements, ascending, and equal ones in their old order. |
| MergeSpec.StableUnique | core/clist.c:52-153 | There is only one such arrangement, so this says exactly what the sort returns. |
| CircularSort.Choose | core/clist.c:96-125 | The node taken next comes from the first run unless the second has a strictly smaller one; the pointer behind it is NULL exactly at the end of the old ring, found by comparing with the old head while links are being rewritten. |
| CircularSort.MergeRuns | core/clist.c:90-138 | On linked nodes: the merged list grows by the merge of the two runs, and the links of all nodes still to come are those of the old ring. |
| CircularSort.StepAlong | core/clist.c:77-88 | The second run starts where the first ends: after the given number of nodes or at the end of the ring. |
| CircularSort.Pass | core/clist.c:68-148 | A pass rewrites the ring into the ring of the pass result over the same nodes; one merge or none was enough exactly when two runs cover all nodes. |
| CircularSort.Sort | core/clist.c:52-153 | The sort terminates with a ring over the same nodes and returns its last one. |
| CircularSort.SortList | core/include/clist.h:417-422 | clist_sort turns the list into its sorted ring. |
| CircularSort.SortStably | core/include/clist.h:417-422 | For every total preorder clist_sort leaves the stable sorting of the nodes. |
| CircularList.List.RPush | core/include/clist.h:114-124 | Appends a node; the ring stays closed. |
| CircularList.List.LPush | core/include/clist.h:135-145 | Puts a node in front; the ring stays closed. |
| CircularList.List.LPop | core/include/clist.h:155-170 | Takes the first node off and returns it, NULL for the empty list. |
| CircularList.List.LPopRPush | core/include/clist.h:185-190 | The first node becomes the last one. |
| CircularList.List.LPeek | core/include/clist.h:200-206 | Returns the first node without changing the list. |
| CircularList.List.RPop | core/include/clist.h:229-241 | Takes the last node off by advancing the list around once; the others keep their order. |
| CircularList.List.FindBefore | core/include/clist.h:255-269 | Returns the node before the one asked for, the last one for the first, and NULL exactly when it is not on the list. |
| CircularList.List.Remove | core/include/clist.h:306-325 | Takes exactly the node asked for off the list, wherever it is, and leaves the list alone when it is not on it. |
| CircularList.List.Count | core/include/clist.h:431-443 | Counts the nodes. |
| BitCache.LowestBit | core/sched.c:102-112 | The loop ends whenever some bit is set, and returns the lowest one. |
| BitCache.SetBits | core/sched.c:316 | Setting a bit changes that bit only. |
| BitCache.ClearBits | core/sched.c:326 | Clearing a bit changes that bit only. |
| Scheduling.SetStatusKeeps | core/sched.c:309-333 | For every thread and every status: changing the status keeps every thread on exactly the list its status dictates if and only if the slot is in use (or the status is stopped), the thread neither starts nor ends a wait for a mutex by it, and a thread that stops being runnable is the first of its run queue, since the function takes off the first one. |
| SchedulerEffects.SetStatusMoves | core/sched.c:309-333 | For every thread and every status: the status is stored, a thread that becomes runnable is the last of its run queue, when one stops being runnable the first thread of that queue has left it, and no other field or list changes. |
| SchedulerEffects.SetStatusGets | core/sched.c:309-333 | Where the change is allowed the thread taken off is the one that was meant. |
| Scheduling.OutOfWait | core/sched.c:309-333 | A status change that ends a wait for a mutex leaves the mutex queue as it is, so the thread's link is used there still. |
| Scheduling.SetStatusFails | core/sched.c:324-331 | Two runnable threads on one level: putting the second one to sleep takes the first one off the queue. |
| Scheduling.RunNextSound | core/sched.c:242-280 | After a scheduling decision the running thread is the first of its level, no runnable thread has a higher priority, and the queues are unchanged. |
| SchedulerEffects.RunNextDecides | core/sched.c:242-280 | A decision makes the first thread of the highest level that can run the running one; a thread that was running becomes pending, all other statuses stay, and the request for a switch is withdrawn. |
| SchedulerEffects.YieldYields | core/sched.c:390-394 | A yield moves a running thread to the end of its run queue, and moves nothing for one that cannot run; then it decides. |
| Scheduling.YieldSound | core/sched.c:390-407 | Rotating the queue of the running thread and deciding again keeps the invariant. |
| Scheduling.RoundRobin | core/sched.c:390-407 | In every sequence of yields, n yields among the n runnable threads of the highest level run each of them once, in queue order, and leave the queue as it was. |
| Scheduling.CreateSound | core/thread.c:125-157 | A new thread takes the first unused slot and the end of its run queue; without a free slot nothing changes. |
| SchedulerEffects.CreateAppears | core/thread.c:125-157 | Exactly when some slot is unused, the lowest such slot is in use with the priority asked for, its thread is pending and the last of its run queue, and nothing else changes; otherwise nothing does. |
| Scheduling.FreeSlot | core/thread.c:127-137 | The slot found is unused and all slots before it are in use. |
| Scheduling.ExitedQueues | core/sched.c:409-422 | An ending thread leaves its run queue and its slot; no other thread moves. |
| SchedulerEffects.ExitedDisappears | core/sched.c:409-422 | The slot of the thread that ends is free and stopped, the thread has left the head of its run queue, nothing is running and nothing else has changed. |
| Scheduling.ExpireKeeps | sys/secure_mintimer/secure_mintimer_core.c:345-352 | For any threads whose timers fire: the queues stay in order if and only if each of them has a slot in use and does not wait for a mutex. |
| Scheduling.ExpireFails | sys/secure_mintimer/secure_mintimer_core.c:345-352 | Thread 1 runs and holds a mutex thread 2 waits for: after the timer of thread 2 its link is on the run queue and on the mutex queue. |
| Scheduling.ExpireEnded | sys/secure_mintimer/secure_mintimer_core.c:345-352 | The timer of a thread that has ended puts a slot that is not in use on a run queue. |
| Scheduling.ExpireQueues | sys/secure_mintimer/secure_mintimer_core.c:345-352 | Firing timers of sleeping or runnable threads makes exactly those threads pending and keeps the queues in order. |
| SchedulerEffects.FiredFires | sys/secure_mintimer/secure_mintimer_core.c:345-352 | Timers that fire make their threads pending and ask for a decision; each run queue is continued by the threads of its level that could not run, in the order of their timers, and mutex queues stay. |
| WaitOrder.Slot | core/thread.c:113-119 | A waiting thread is entered behind all of at least its priority and before the first of lower priority. |
| WaitOrder.FirstIsBest | core/thread.c:106-123 | The head of a queue built this way is the waiter of the highest priority that came first, and taking it off leaves the queue of the others. |
| Mutexes.AcquireSound | core/mutex.c:40-46 | Taking a free mutex keeps the invariant and makes the caller its only holder. |
| Mutexes.AcquireHeld | core/mutex.c:40-46 | Taking a mutex another thread holds would give it two holders and break the invariant, so the test for a free mutex is needed. |
| Mutexes.BlockQueues | core/mutex.c:47-59 | A thread that blocks leaves its run queue and is last to arrive at the mutex. |
| SchedulerEffects.BlockBlocks | core/mutex.c:47-59 | The running thread is mutex-blocked, has left the head of its run queue and is the last to wait; no other list, thread or mutex changes. |
| Mutexes.HandOverSound | core/mutex.c:86-97 | Unlocking with waiters makes the waiter of the highest priority, the earliest among equals, the only holder and puts it at the end of its run queue; the mutex stays locked and the other waiters keep their order. |
| Mutexes.ReleaseSound | core/mutex.c:75-97 | Unlocking a mutex that may be unlocked keeps the invariant: at most one holder, waiters only on locked mutexes, every thread on one list. |
| SchedulerEffects.ReleaseFrees | core/mutex.c:75-97 | Unlocking does nothing to a free mutex, frees one nobody waits for, and passes any other to the foremost waiter, who is pending and alone its holder; nothing else changes. |
| SchedulerEffects.UnlockDoes | core/mutex.c:69-105 | A switch is asked for exactly when the waiter served is of higher priority than the caller. |
| Mutexes.ReleaseKeeps | core/mutex.c:75-97 | For any running thread that unlocks: the invariant is kept if and only if the mutex is free, or the thread holds it, or its holder has locked it twice and is the waiter to be served. |
| Mutexes.ReleaseFails | core/mutex.c:80-84 | Thread 2 unlocks the mutex of thread 1: it is free for thread 2 to take while thread 1 has not given it back. |
| SchedulerRuns.Step | core/sched.c:207-422 | Every entry of the kernel, made as the kernel relies on, leads from a sound state to a sound state. |
| SchedulerEffects.StepDoes | core/sched.c:207-422 | Every entry of the kernel does what a reference says that uses none of the functions above, only the fields before and after: which status changes to what, which thread joins or leaves which queue at which end, who holds which mutex, whether a switch is asked for, and that nothing else changes. |
| SchedulerReference.StepIsOnly | core/sched.c:207-422 | The reference leaves nothing open: the step of an entry is the one state it allows, up to the home of each thread, which only repeats the lists. |
| SchedulerEffects.WakeupGets | core/thread.c:82-91 | A sleeping thread that is woken is running in status and the last of its run queue, and nothing else changes; any other is left alone. |
| SchedulerRuns.RunSafe | core/sched.c:207-422 | In every reachable state a mutex has at most one holder, it is locked exactly when it has one, a runnable thread is on the run queue of its priority only, and any other listed thread is mutex-blocked and on a mutex queue only. |
| SchedulerRuns.BootSound | core/sched.c:50-60 | At boot no slot is in use, no mutex is locked, every list is empty, nothing runs, and the state is sound. |
| SchedulerRuns.IdleAllowsExit | core/sched.c:245-250 | With one more runnable thread, such as the idle thread, an exit leaves a thread to run. |
| SchedulerRuns.IdleAllowsLock | core/mutex.c:47-62 | The same for blocking on a mutex. |
| SchedulerRuns.IdleAllowsSleep | core/mutex.c:107-130 | The same for unlocking and going to sleep. |
| SchedulerRuns.RunnableStays | core/sched.c:207-422 | No entry made by another thread or by an interrupt stops a runnable thread from being runnable. |
| Kernel.Threads.constructor | core/sched.c:50-60 | The tables at boot show the sound empty state. |
| Kernel.Threads.RPush | core/sched.c:123-133 | On the thread links: the ring of a run queue gets one more thread at its end, links of other threads stay. |
| Kernel.Threads.LPop | core/sched.c:144-159 | The first thread leaves the ring. |
| Kernel.Threads.SetStatus | core/sched.c:309-333 | Links, queue pointers and bit cache show the abstract change of status; bit p is set exactly when run queue p is not empty. |
| Kernel.Threads.SchedRun | core/sched.c:207-299 | The code takes the decision of the abstract scheduler and reports whether the running thread changed. |
| Kernel.Threads.SchedYield | core/sched.c:390-394 | Advancing the queue pointer rotates the run queue of the running thread. |
| Kernel.Threads.YieldHigher | cpu/msp430-sancus/cpu.c:53-79 | A yield carries out the rotation and then the decision. |
| Kernel.Threads.Create | core/thread.c:125-157 | The loop finds the first unused slot and the thread appears there, pending and last of its run queue; or every slot is in use, -EOVERFLOW is reported and nothing changes. |
| Kernel.Threads.EndThread | core/sched.c:409-422 | The code frees the slot and takes the thread off its run queue; the tables show the abstract exit. |
| Kernel.Threads.Exit | cpu/msp430-sancus/cpu.c:149-157 | An exit carries out the abstract step, and the invariant holds again when the next thread runs. |
| Kernel.Threads.Wakeup | core/thread.c:71-99 | 1 is returned exactly when the thread was sleeping, and then its status is RUNNING and it is the last of its run queue; otherwise nothing changes. |
| Kernel.Threads.Sleep | core/thread.c:59-69 | The status of the running thread is SLEEPING, no other status changes, and it leaves its run queue. |
| Kernel.Threads.TimerInterrupt | sys/secure_mintimer/secure_mintimer_core.c:345-352 | An interrupt fires its timers and then decides if, and only if, a decision was asked for. |
| KeyedLists.AddToList | core/thread.c:106-123 | The loop links the entry in behind all whose key is not larger; links of entries on other lists stay. Mutexes, mailboxes and the timer lists use it. |
| Kernel.Threads.WordMeans | core/mutex.c:40-58 | The word of a mutex is NULL exactly when it is free, mutex_LOCKED exactly when it is locked and nobody waits, and else the waiter to be served next. |
| Kernel.Threads.MutexLock | core/mutex.c:35-67 | Locking, blocking or not, carries out the abstract step and returns 0 only for a failed attempt without blocking. |
| Kernel.Threads.PopWaiter | core/include/list.h:67-75 | The head of the queue is the waiter to be served; the chain goes on with the next one. |
| Kernel.Threads.WakeWaiter | core/mutex.c:86-97 | The waiter leaves the queue, is runnable and holds the mutex, and an emptied queue is marked as locked. |
| Kernel.Threads.MutexUnlock | core/mutex.c:69-105 | Unlocking, by any running thread, carries out the abstract step in all three cases, including the request for a switch when the waiter is of higher priority; the invariant holds afterwards if and only if the mutex might be unlocked. |
| Kernel.Threads.MutexUnlockAndSleep | core/mutex.c:107-130 | The mutex is given up, the caller sleeps, and another thread runs. |
| Timers.DeadlineExact | sys/secure_mintimer/secure_mintimer_core.c:254-267 | For any target and time the 64-bit deadline is the requested offset ahead if and only if the 32-bit target and the offset are both at least the overhead or both below it; so a target within the first 300 ticks of a 32-bit period, and an offset from 201 to 299 ticks with any other target, are set wrongly. |
| Timers.DeadlineFails | sys/secure_mintimer/secure_mintimer_core.c:254-267 | One target gets a deadline 2^32 ticks too early, one offset a deadline 2^32 ticks too late. |
| Timers.Placement | sys/secure_mintimer/secure_mintimer_core.c:262-288 | A timer goes on the list of the period its deadline lies in, and not on the overflow list, if and only if the condition `Lands` on target, offset and period holds. |
| Timers.DeadlineWhenLanded | sys/secure_mintimer/secure_mintimer_core.c:254-267 | Then its deadline is the offset ahead of now, or 2^32 ticks later for an offset below the overhead whose target is not. |
| Timers.InsertDeadline | sys/secure_mintimer/secure_mintimer_core.c:251-333 | The timer armed for such a target has a deadline the target's distance from now ahead, a whole turn of the 32-bit clock later for a distance below the overhead with a target that is not. |
| Timers.InsertFields | sys/secure_mintimer/secure_mintimer_core.c:251-267 | For any target and time: the target is stored, the long counter is stored with it, one higher modulo 2^32 exactly when the target less the overhead lies before now, and no other timer changes. |
| Timers.ListChosen | sys/secure_mintimer/secure_mintimer_core.c:269-284 | For any target and time: the long list for a deadline past the running period, else the overflow list when the low half of now has reached the target less the overhead, else the current list. |
| Timers.InsertGains | sys/secure_mintimer/secure_mintimer_core.c:269-284 | Exactly the list chosen gains the timer, behind those not later and before the first later one; the other two stay as they are. |
| Timers.TargetAhead | sys/secure_mintimer/secure_mintimer_core.c:216-221 | The target computed lies exactly the offset ahead on the 32-bit clock, and as much less when the counter has moved on. |
| Timers.SetDeadline | sys/secure_mintimer/secure_mintimer_core.c:203-222 | A timer set for an offset fires that many ticks after the first reading of the counter, however the counter moved before it was entered, if what is left is not below the overhead; else, unless the target is, 2^32 ticks late. |
| Timers.InsertKeeps | sys/secure_mintimer/secure_mintimer_core.c:251-333 | From every sound state, for every target and time: setting a timer leaves every list complete, sorted and timely if and only if `Lands` holds. |
| Timers.InsertFails | sys/secure_mintimer/secure_mintimer_core.c:251-333 | A sound state, shortly before the 32-bit clock turns, that is not sound any more after setting a timer for tick 100 after the turn. |
| Timers.InsertedOverdue | sys/secure_mintimer/secure_mintimer_core.c:251-333 | That timer is on the long list with a deadline of 100, long past. |
| LinkedChains.LinkCleared | sys/secure_mintimer/secure_mintimer_core.c:299 | Clearing the link of a timer that is on a list loses exactly the timers behind it. |
| Timers.RemoveSound | sys/secure_mintimer/secure_mintimer_core.c:399-432 | Removing takes the timer off the one list it is on. |
| Timers.RemoveFields | sys/secure_mintimer/secure_mintimer_core.c:399-432 | An armed timer is marked as not armed and has left each list it was on, where the others keep their order; no other timer changes, and a timer that is not armed is left alone. |
| Timers.ExpireSound | sys/secure_mintimer/secure_mintimer_core.c:630-640 | The timer that fires leaves the current list and is not armed any more. |
| Timers.FiresInOrder | sys/secure_mintimer/secure_mintimer_core.c:630-640 | No timer is overtaken by one whose deadline is later by the overhead or more. |
| Timers.ClockAdvances | sys/secure_mintimer/secure_mintimer_core.c:559-573 | A period advances the 64-bit clock by exactly 2^16 ticks modulo 2^64, with the carry from the high to the long counter. |
| Timers.DueExactly | sys/secure_mintimer/secure_mintimer_core.c:518-528 | For a timer that is not overdue the test for selection holds exactly when it is due in the period. |
| Timers.NextPeriodSound | sys/secure_mintimer/secure_mintimer_core.c:510-581 | From an empty current list: of the long list exactly the timers due in the new period move to the current list, in order, and none of the others is overdue; after the last period of the 64-bit clock nothing is left to be late. |
| Timers.NextPeriodMoves | sys/secure_mintimer/secure_mintimer_core.c:510-581 | Whatever is on the current list: no deadline changes, the counters move on, and the long list is cut into the timers due before the end of the new period and those due after it. |
| Timers.NextPeriodKeeps | sys/secure_mintimer/secure_mintimer_core.c:510-581 | Changing the period keeps the lists complete, sorted and timely if and only if the current list is empty; the timers of another one are lost. |
| Timers.NextPeriodFails | sys/secure_mintimer/secure_mintimer_core.c:559-581 | One timer on the current list when the period changes: it is armed still and on no list. |
| Timers.Step | sys/secure_mintimer/secure_mintimer_core.c:203-581 | Setting for a target that `Lands`, removing, firing and changing the period with an empty current list lead from sound to sound states. |
| Timers.StepTimers | sys/secure_mintimer/secure_mintimer_core.c:203-581 | An entry changes the one timer it is about: after setting, its deadline is the target's distance from now ahead as above, or it is not armed when that is within the backoff; after removing or firing it is not armed. Only a change of period moves the clock. |
| Timers.RunSafe | sys/secure_mintimer/secure_mintimer_core.c:203-581 | In every reachable state each armed timer is on exactly one list and there once, the current list is sorted by target and the long list by 64-bit deadline, nothing is overdue, and the overflow list is empty. |
| Timers.InitialSound | sys/secure_mintimer/secure_mintimer_core.c:62-75 | At the start no timer is armed, the clock shows 0, and the state is sound. |
| Multiplexer.Lists.Now64 | sys/secure_mintimer/secure_mintimer_core.c:167-191 | The time read is the start of the period plus the hardware counter. |
| Multiplexer.ByDeadline | sys/secure_mintimer/secure_mintimer_core.c:374-384 | Comparing long targets and then targets is comparing 64-bit deadlines. |
| Multiplexer.Lists.RemoveFrom | sys/secure_mintimer/secure_mintimer_core.c:386-397 | The timer is unlinked if it is on the list, and only then is success reported. |
| Multiplexer.Lists.Remove | sys/secure_mintimer/secure_mintimer_core.c:399-432 | The links and heads show the lists without the timer. |
| Multiplexer.Lists.Enlist | sys/secure_mintimer/secure_mintimer_core.c:251-293 | Each of the three branches carries out the abstract insertion, for every target and time: the heads and links show the lists after arming. |
| Multiplexer.Lists.SetAbsolute | sys/secure_mintimer/secure_mintimer_core.c:295-333 | A target within the backoff fires at once and changes nothing, any other arms the timer; the heads and links show the abstract result, whatever the target, and for one that `Lands` the deadline stored is the target's distance from now ahead (2^32 ticks more in the case above), with all other timers as they were. |
| Multiplexer.Lists.Set | sys/secure_mintimer/secure_mintimer_core.c:203-222 | Setting removes the timer first and carries out the abstract step, whatever the offset; unless it fires at once, the deadline of a timer whose target `Lands` is the target's distance from now ahead (2^32 ticks more in the case above), with all other timers as they were. |
| Multiplexer.Lists.Fire | sys/secure_mintimer/secure_mintimer_core.c:630-640 | The head of the current list is the timer that fires. |
| Multiplexer.Lists.SelectLongTimers | sys/secure_mintimer/secure_mintimer_core.c:510-553 | The long list is cut behind its last due timer, which with the current list cleared before makes that part the current list. |
| Multiplexer.Lists.NextPeriod | sys/secure_mintimer/secure_mintimer_core.c:559-581 | The code carries out the abstract change of period, and the lists are in order again if and only if the current list was empty. |
| Calendar.LeapRule | drivers/periph_common/rtc.c:35-53 | The tests by 4, 25 and 16 amount to the Gregorian rule. |
| Calendar.MonthLengthRight | drivers/periph_common/rtc.c:55-72 | The formula by parity gives the length of every month of every year. |
| Calendar.WdayCountsDays | drivers/periph_common/rtc.c:75-83 | For every date the weekday is the number of days of the Gregorian calendar modulo 7, up to a constant. |
| Calendar.WdayAdvances | drivers/periph_common/rtc.c:75-83 | Each following day, across months, years and leap days, has the following weekday. |
| Calendar.YdayCountsDays | drivers/periph_common/rtc.c:85-106 | The day of the year is the number of days since 1 January, although the table wraps at 8 bits. |
| Calendar.Tm.Normalize | drivers/periph_common/rtc.c:109-149 | Normalising ends with every field in calendar range, denotes the same second, changes nothing on normal input, and derives day of year and weekday when asked to. |
| Calendar.Tm.SpillDays | drivers/periph_common/rtc.c:127-142 | The loop over the months preserves the instant. |
| Calendar.NormalFormUnique | drivers/periph_common/rtc.c:109-149 | Every instant has exactly one normal form, so the result is determined by the instant. |
| Calendar.CompareOrdersInstants | drivers/periph_common/rtc.c:156-166 | For normal stamps the comparison has the sign of the difference of the instants. |
| Division.MulHiExact | sys/div/div.c:22-46 | The upper half of the 128-bit product, for all 64-bit operands, with no overflow on the way. |
| Division.ReciprocalQuotient | sys/include/div.h:37-47 | Multiplying by a reciprocal that is too large by e/d gives the quotient or one more, and the quotient exactly when the error has not added up to a step. |
| Division.By15625High | sys/include/div.h:72-74 | Exact for every 64-bit dividend above 16383999997. |
| Division.By15625Low | sys/include/div.h:75 | Up to there exact or one too large, and exact exactly when the dividend is not the last one before a multiple of 15625 from the 457869th on, nor the last but one from the 915738th on. |
| Division.By15625First | sys/include/div.h:70-76 | Exact up to 7154218748 and above 16383999997; 7154218749 is the first dividend that fails. |
| Division.By1000000Right | sys/include/div.h:111-114 | Exact exactly when the dividend is not the last one before a multiple of 1000000 from the quotient 457869 by 15625 on, nor the last but one from 915738 on, up to the limit of the 32-bit reciprocal. |
| Division.By1000000First | sys/include/div.h:111-114 | Exact below 7154999999 and above 16383999997. |
| Division.By1000000Fails | sys/include/div.h:111-114 | 7154999999 is a dividend for which the result is one too large. |
| Division.By125Exact | sys/include/div.h:91-103 | Exact for every dividend the precondition allows, with no high bits lost. |
| Division.By15625Div512Exact | sys/include/div.h:146-158 | The 64-bit version: for every value the quotient of 512 times the value or one more, with the exact condition on both sides of the limit. |
| Division.By15625Div512Near | sys/include/div.h:130-133 | The quotient of 512 times the value or one more, exact while 2459 times the value is below 2^35, with the exact condition in general. |
| Division.By15625Div512First | sys/include/div.h:130-158 | Both versions are exact below 13978302, the 64-bit one also above 16383999997 and below 53878770569447052. |
| Division.By15625Div512Fails | sys/include/div.h:130-158 | 13978302 is a value for which both results are one too large. |
| Division.By15625Div512FailsLong | sys/include/div.h:146-158 | 53878770569447052 is one above the limit of the 32-bit reciprocal. |
| Division.By44488Exact | sys/include/div.h:164-167 | Exact for every 32-bit dividend, with no high bits lost. |
| Uart.StoreByteSound | boards/sancus-msp430/uart.c:107-109 | Storing a byte changes none that is still to be read. |
| Uart.StoreHeadSound | boards/sancus-msp430/uart.c:110 | Making the head visible adds exactly that byte at the end. |
| Uart.StoreTailSound | boards/sancus-msp430/uart.c:75-77 | The byte read is the oldest one not read before. |
| Uart.StepSound | boards/sancus-msp430/uart.c:43-113 | Every single access of the interrupt routine or the reader keeps the invariant, and a finished count does not overstate what there is to read. |
| Uart.StepMeans | boards/sancus-msp430/uart.c:43-113 | Each access told by the bytes held: a byte is dropped exactly when 127 are held when the tail is looked at, and otherwise comes to be held last, unchanged; the reader goes on exactly when a byte is held when the head is looked at, and takes the first one. No access changes anything else. |
| Uart.CountExact | boards/sancus-msp430/uart.c:43-51 | uart_available returns exactly the number of bytes that were there when it looked at the head, however many the interrupt routine adds before it looks at the tail. |
| Uart.RunSafe | boards/sancus-msp430/uart.c:43-113 | For every interleaving of the accesses the bytes read are a prefix of the bytes accepted, the rest is in the buffer in order, and at most 127 are. |
| Uart.Receiver.constructor | boards/sancus-msp430/uart.c:28-31 | The initial buffer is empty. |
| Uart.Receiver.IsrLoadHead | boards/sancus-msp430/uart.c:104 | The position seen is the head, and stays the head until the routine itself stores a new one. |
| Uart.Receiver.IsrCheckRoom | boards/sancus-msp430/uart.c:105-107 | The byte is dropped exactly when the next head would be the tail seen. |
| Uart.Receiver.IsrStoreByte | boards/sancus-msp430/uart.c:109 | The byte goes into the unused element, so nothing that is still to be read is overwritten. |
| Uart.Receiver.IsrStoreHead | boards/sancus-msp430/uart.c:110 | The stored byte becomes the last one there is to read. |
| Uart.Receiver.AppendByte | boards/sancus-msp430/uart.c:102-113 | Uninterrupted, a byte is accepted unless 127 are waiting, and nothing else changes. |
| Uart.Receiver.ReadLoadTail | boards/sancus-msp430/uart.c:71 | The position seen is the tail, and stays the tail until the reader itself stores a new one. |
| Uart.Receiver.ReadPollHead | boards/sancus-msp430/uart.c:73 | The waiting loop is left exactly when there is a byte to read. |
| Uart.Receiver.ReadLoadByte | boards/sancus-msp430/uart.c:75 | The byte loaded is the oldest one not read, and stays so until the reader stores the tail. |
| Uart.Receiver.ReadStoreTail | boards/sancus-msp430/uart.c:76 | The byte loaded counts as read and its element is free again. |
| Uart.Receiver.AvailableLoadHead | boards/sancus-msp430/uart.c:45 | The head seen is never ahead of the head there is when the count is finished. |
| Uart.Receiver.AvailableLoadTail | boards/sancus-msp430/uart.c:46-51 | The number returned is at most the number of bytes there are to read. |
| CircularIndex.SharesNoBit | core/include/cib.h:53-60 | The test of cib_init accepts powers of two only. |
| CircularIndex.AndMask | core/include/cib.h:93-100 | Masking with a power of two less one takes the remainder. |
| CircularIndex.PositionPlus | core/include/cib.h:93-163 | Positions continue across any wrap of the free-running 16-bit counters. |
| CircularIndex.Cib.constructor | core/include/cib.h:53-60 | An empty buffer of the given size. |
| CircularIndex.Cib.FullMeans | core/include/cib.h:81-84 | The signed comparison holds exactly when every element is taken, also for size 0. |
| CircularIndex.Cib.Get | core/include/cib.h:93-100 | The position of the oldest element, which is given up, or -1 when there is none. |
| CircularIndex.Cib.GetUnsafe | core/include/cib.h:127-130 | The same without the test. |
| CircularIndex.Cib.PutIndex | core/include/cib.h:139-149 | The first free position, which is taken, or -1 when there is none. |
| CircularIndex.Cib.PutUnsafe | core/include/cib.h:160-163 | The same without the test. |
| Mailboxes.PutSound | core/mbox.c:58-91 | A put without blocking keeps the invariant and succeeds exactly when somebody waits or there is room. |
| Mailboxes.PutDelivers | core/mbox.c:58-91 | The message put reaches the foremost reader as it was put, who no longer waits, or without readers becomes the last of the queue, marked with its sender; without room nothing changes. |
| Mailboxes.GetSound | core/mbox.c:93-122 | A get, blocking or not, keeps the invariant. |
| Mailboxes.GetTakesOldest | core/mbox.c:93-122 | A get returns the oldest message accepted that nobody has got; without one a blocking get queues up behind the other readers, and another one changes nothing. |
| Mailboxes.StepLetters | core/mbox.c:58-122 | A put with readers hands its message to the foremost one, a fetch takes the oldest message nobody has got, and nothing else is handed out. |
| Mailboxes.RunAccepts | core/mbox.c:58-122 | In every run the messages accepted are those of the puts that find a reader or room, with their contents and in their order. |
| Mailboxes.RunConserves | core/mbox.c:31-122 | In every run the messages handed out followed by those queued are the messages accepted, in order, with the contents that were put, and nobody waits while a message is queued. |
| Mailboxes.Mailbox.constructor | core/include/mbox.h:60-64 | An empty mailbox. |
| Mailboxes.Mailbox.HandOver | core/mbox.c:62-70 | A message goes straight to the reader of the highest priority that came first, which leaves the linked readers list. |
| Mailboxes.Mailbox.TryPut | core/mbox.c:58-91 | The counters, the array and the links of the readers list show the abstract put; the message put is the next one accepted, as it was put or marked with its sender, exactly when there is a reader or room. |
| Mailboxes.Mailbox.Fetch | core/mbox.c:93-122 | They show the abstract get: the first message of the queue is returned and has left it; on an empty queue a blocking call makes its thread the last reader to arrive, linked in by priority, and another one returns nothing. |
| RingBuffer.SingleGetsTake | core/ringbuffer.c:77-111 | n single reads take the first n bytes, or all there are, and leave the rest. |
| RingBuffer.Buffer.constructor | core/include/ringbuffer.h:58-64 | An empty buffer. |
| RingBuffer.Buffer.AddTail | core/ringbuffer.c:30-37 | The contents get one byte at the end, also when `start` is one past the array. |
| RingBuffer.Buffer.GetHead | core/ringbuffer.c:46-53 | From a `start` in the array the oldest byte is taken off. |
| RingBuffer.Buffer.Add | core/ringbuffer.c:55-65 | The longest prefix that fits is stored and nothing is overwritten, wherever `start` is. |
| RingBuffer.Buffer.AddOne | core/ringbuffer.c:67-75 | When the buffer is full exactly the oldest byte is dropped and returned; only then has `start` to be in the array. |
| RingBuffer.Buffer.GetOne | core/ringbuffer.c:77-85 | The oldest byte, or -1 for an empty buffer, for which `start` does not matter. |
| RingBuffer.Buffer.Get | core/ringbuffer.c:87-111 | One bulk read returns and leaves what n single reads do, although it copies in two pieces, and wherever `start` is; it puts a `start` past the array right unless it takes no byte or as many as the array has. |
| RingBuffer.Buffer.Remove | core/ringbuffer.c:113-130 | The oldest bytes go; `start` is left one past the array if and only if the bytes removed end at the end of the array. |
| RingBuffer.RemoveFails | core/ringbuffer.c:113-130 | Both bytes of a full two-byte buffer are removed and one is added: it is in the buffer, but a single read would be past the array. |
| RingBuffer.Buffer.PeekOne | core/ringbuffer.c:132-136 | The oldest byte, and the buffer does not change. |

## Left out

- Kernel.Threads.SchedRun: without the branches for periodic threads (core/sched.c:217-240 and 283-297); no thread has priority 1, so these branches are never taken.
- Scheduling.RunNextSound: without periodic threads, like Scheduling.YieldSound and Kernel.Threads.YieldHigher.
- Kernel.Threads.Create: not for the priority level of periodic threads.
- Kernel.Threads.EndThread: the number of threads and the process id kept after an exit are not modelled.
- Kernel.Threads.Sleep: the early return in interrupts is not modelled, and the yield that follows is a step of its own.
- Kernel.Threads.SchedYield: without the periodic part (core/sched.c:396-406), and the read through a NULL pointer after an exit is taken as harmless.
- Kernel.Threads.Exit: `sched_num_threads` and the process id kept in `sched_active_pid` after an exit are not modelled.
- Kernel.Threads.Wakeup: interrupt state is not modelled; an entry into the kernel is one step.
- SchedulerRuns.RunSafe: runs in which timers fire only for threads that may expire and mutexes are unlocked only when they may be, as SchedulerRuns.Step has it, since the invariant is lost exactly in the others; some thread stays runnable.
- Kernel.Threads.TimerInterrupt: not for the timers of threads that wait for a mutex or have ended; a link on two lists shows neither of them any more.
- BitCache.SetBits: the cache is the 16-bit value the search sees; `1 << 15` on a 16-bit int also sets the upper half of the 32-bit variable, which nothing reads.
- Allocator.Heap.constructor: the heap start is an address of at least 2.
- Allocator.Heap.Malloc: the heap end is an argument below 65536; reading the stack pointer, interrupt locking and alignment are not modelled.
- Allocator.Heap.Stats: the numbers are returned, not printed.
- Multiplexer.Lists.SelectLongTimers: `_merge_lists`, which drops nodes, is shown never to be called and not modelled.
- Multiplexer.Lists.SetAbsolute: the timer is not armed when it is called. Multiplexer.Lists.Set, the caller modelled, removes the timer first; the callers in the scheduler belong to periodic threads. Clearing a link in use would lose exactly the entries behind it (LinkedChains.LinkCleared).
- Multiplexer.Lists.Set: programming the hardware comparator and the spin loops are not modelled; the two readings of the counter are in one period.
- Multiplexer.Lists.Remove: programming the hardware comparator is not modelled.
- Multiplexer.Lists.Fire: making the thread runnable is Kernel.Threads.TimerInterrupt; the two models are not joined.
- Timers.RunSafe: runs in which every target `Lands` and the period changes with an empty current list, since the lists are not in order after the others.
- KeyedLists.AddToList: the three insertion functions of the code differ in their test only and are one method with the test as an argument.
- Calendar.Tm.Normalize: fields are not negative, the day is at least 1, and integers do not overflow.
- Calendar.YdayCountsDays: setting bit 8 of a day below 256 is written as adding 256.
- Mailboxes.Mailbox.TryPut: blocking puts, whose writers resume without testing again, are not modelled, so no thread waits to write.
- Mailboxes.PutSound: a put that blocks is not modelled; this holds for Mailboxes.GetSound and Mailboxes.RunConserves as well, where no writer is there to be woken.
- Mailboxes.Mailbox.HandOver: the thread woken becomes runnable in the scheduler model, which is not joined with this one.
- Mailboxes.Mailbox.Fetch: the status and scheduling of the thread that waits are those of the scheduler model.
- Uart.Receiver.AppendByte: the echo of the byte is not modelled.
- CircularIndex.Cib.constructor: sizes up to 16384, which covers the sizes the interface allows.
- RingBuffer.Buffer.constructor: sizes from 1 up to 32768, so that the sum of position and fill does not wrap.
- RingBuffer.Buffer.GetHead: a read past the array, with `start` one past it, is not modelled.
- CircularSort.Sort: run lengths and merge counts are unbounded integers; run lengths stay below twice the number of nodes.
- Saving and restoring contexts, enclave entries, interrupt vectors and the stack set-up of new threads: assembly and hardware.
- Periodic threads, the scheduler's own timer, and the latency of timers.
- `calloc`, `clist_foreach`, `clist_find`, `ringbuffer_peek`: they add nothing beyond what is proved for the functions they are made of.
- `core/msg.c`, `core/cond.c`, `core/rmutex.c`, the bit arithmetic, LIFO and priority queue modules, drivers and ports.
