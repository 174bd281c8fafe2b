# ZeOS kernel and allocator: a verified model

This project models the three connected cores of a small teaching kernel and proves what they keep.

* **The boundary-tag allocator** of `libc.c` (`Words`, `Blocks`, `Allocation`, `LiveBlocks`, `HeapMemory`,
  `Malloc`, `MallocRuns`). Memory is a sequence of bytes that ends at the break, and the tags are 32-bit
  little-endian integers inside it, so every access is proved to lie below the break and every tag write
  is shown to miss every other tag and payload. A ghost list of blocks is the abstraction. `Allocation`
  says what malloc and free mean on that list; `LiveBlocks` says it again in terms of the set of live
  blocks alone, which determines the list; the class `Malloc.Heap` does it byte by byte, and
  `MallocRuns.Run` says what any sequence of calls keeps: the tags, a bound on the tail, and the bytes of
  every block that is neither freed nor stored into. `UserHeap` proves of the frames and page tables what
  the allocator takes for granted about dyn_mem.
* **The scheduler, block and unblock, semaphores and the process tree** of `sched.c`, `sys.c` and the clock
  routine (`KernelSpec`, `KernelInv`, `KernelSteps`, `KernelRuns`, `Sched`), over the intrusive rings of
  `list.c` (`ListHeads`, `TaskQueues`). `KernelSpec` is a state machine with one function for each call;
  the class `Sched.Kernel` runs the same calls on arrays of PCBs and semaphores and is proved to do exactly
  that. A call runs up to the point where it yields; semDestroy's drain loop, which yields in the middle, is
  modelled with the place at which each task goes on. `TaskQueues.Links` does the list calls of the
  dispatcher on three rings of one link per PCB and is proved to give the machine's queues.
  `KernelEffects` says of each call what differs between the state before and after it; `KernelLedger`,
  `KernelOwners` and `KernelBooks` draw from that alone what runs come to, counted on their list of calls.
* **Frames, page tables, fork and dynamic memory** of `mm.c`, `sched.c` and `sys.c` (`FrameModel`,
  `FrameSteps`, `ForkSteps`, `FrameRuns`, `FrameLoops`, `Frames`). The class `Frames.Machine` has phys_mem,
  the tables, the reference and heap counters, the contents of the frames, and a TLB that keeps every
  translation it ever used until set_cr3 flushes it. Ownership is a map from each used frame to the one
  page that maps it.

`Joint` puts scheduler and memory together. `KernelFailures` and `FrameFailures` hold runs from boot that
end where the code does harm. `Copy` models copy_data and the chunk loop of sys_write, `Itoa` models itoa
and strlen. `Params` and `Sequences` have the constants and the sequence lemmas the others share.

The code is modelled as it is written, and where that breaks a property a lemma says exactly when:

* The trim at the end of free rewrites only the header of the tail (libc.c:165-168). The tags agree
  afterwards exactly if `HeapMemory.TrimSafe` holds; `MallocRuns.TrimLosesTheFooter` is a run of eight
  calls and one store after which they do not. `Malloc.Heap.FreeKeepingTags` is the trim as it is meant,
  tagging the tail at both ends and keeping a remainder of 0 or at least 16 bytes.
* fork gives the child its parent's heap counter (sys.c:75). `FrameRuns.StepIff` says when each call
  keeps the memory sound; `ForkSteps.ForkSharesCounter` says that after any fork it is lost with the next
  change of either heap, and `FrameFailures.SharedCounterReachable` is that run from boot. The flag `own` of
  `Frames.Machine.SysFork` selects fork repaired: the child gets the counter allocate_heap meant for it, and
  a fork short of frames gives its directory back. Then no condition is left (`FrameRuns.RepairedKeeps`);
  `Joint` uses it.
* A fork that runs out of frames keeps its directory reference and leaves a copied PID in the free PCB
  (sys.c:82-86): `ForkSteps.ShortForkLeaks`, `KernelSteps.ForkIff`. Repaired, it puts a free PCB back
  (`KernelSteps.RefuseKeeps`).
* sys_unblock wakes any blocked child, also one that waits for a semaphore or a thread (sys.c:296):
  `KernelSteps.UnblockIff`. A negative initial semaphore value, a wait for pid -1 and the exit of task 1
  are the other guards of `KernelSteps.StepIff`. A signal while its semaphore is being destroyed can take
  the first element of an empty list: `KernelSteps.SignalDuringDestroyFaults`. Both failing states are
  reached from boot in four and six calls (`KernelFailures`).
* The comment at mm.c:68 says that page 0 stays inaccessible; fork maps it in every child
  (sys.c:93-94): `ForkSteps.ForkMapsPageZero`.

## Model

| member | source | states |
|---|---|---|
| Words.WriteInt | libc.c:85-92 | an `int` stored at an address reads back as itself, for every 32-bit value, and no other byte changes |
| Blocks.WalksReverse | libc.c:74-83 | the walk by next_block from the start is the exact reverse of the walk by prev_block from the end |
| Blocks.TilingUnique | libc.c:74-92 | the tags determine the block list: no two lists describe the same memory |
| Blocks.BlocksDisjoint | libc.c:74-92 | two blocks of a tiling share no byte, so no payload meets another payload or tag |
| Blocks.CutIffTiles | libc.c:85-92 | a stretch of memory is tiled by a list exactly if its parts are tiled by the parts of the list |
| Allocation.AllocWaste | libc.c:106-129 | the block handed out is the first that fits, exceeds the request by at most 16 bytes when found and by less than a page when grown |
| Allocation.AllocKeepsSound | libc.c:108-129 | split and growth leave no two adjacent free blocks, no block under 16 bytes and whole pages |
| Allocation.AllocKeepsTail | libc.c:100-129 | a tail no trim has left to shorten stays so over every malloc, the first one included, for both trims |
| Allocation.FreeKeepsSound | libc.c:142-157 | coalescing with both neighbours restores that no two adjacent blocks are free |
| Allocation.TrimSound | libc.c:159-170 | a trim whose remainder is 0 or at least 16 leaves a sound list whose tail is under a page |
| Allocation.TrimKeepingTagsSound | libc.c:159-170 | the meant trim always leaves a sound list whose tail is under a page and 16 bytes |
| Allocation.FreeAfterAlloc | libc.c:94-171 | freeing at once what was just allocated gives back the same block list, whether it was found, split or grown, also when the grown block first merges with a free tail |
| Allocation.TrimKeepingTagsSettles | libc.c:159-170 | the meant trim leaves nothing for itself to release |
| Allocation.FreeKeepingAfterAlloc | libc.c:94-171 | with the meant trim, whose tails may exceed a page by up to 15 bytes, freeing at once what was just allocated gives back the same block list on every path too |
| Allocation.FreeFirst | libc.c:100-171 | the first allocation freed leaves one block of whole pages, and either trim gives all of it back |
| LiveBlocks.CoalesceLive | libc.c:142-157 | free takes exactly its block out of the set of live blocks, address and size, whatever it merges it with |
| LiveBlocks.GoneFrom | libc.c:139-142 | no live block is left at the address of the one freed |
| LiveBlocks.TrimLive | libc.c:159-170 | neither trim touches a live block |
| LiveBlocks.AllocAdds | libc.c:106-129 | malloc adds exactly one live block, which overlaps no other |
| LiveBlocks.LiveDetermines | libc.c:94-172 | with what every call keeps, the live blocks determine the whole block list: two heaps with the same live blocks are equal |
| HeapMemory.Tagged | libc.c:85-92 | after write_header_footer both ends of the block carry its size and mark, and every byte but those 16 is as before |
| HeapMemory.TakeEffect | libc.c:108-118 | the writes of a fit, with or without a split, make memory tiled by the list malloc means and keep every live block's bytes |
| HeapMemory.GrowEffect | libc.c:122-129 | pages added at the break become one live block after the old ones, whose bytes are kept |
| HeapMemory.FreedEffect | libc.c:142-157 | the writes of free make memory tiled by the coalesced list, the live blocks are those before but the one freed, and each keeps every byte |
| HeapMemory.HeaderTrimIff | libc.c:159-169 | after the header-only trim some block list fits the tags if and only if the trim was safe, and then it is the trimmed one |
| HeapMemory.FreedFrame | libc.c:142-157 | the tag writes of free touch only the two tags of the block, the far end of the joined one and the front of its predecessor |
| HeapMemory.TrimSafeBefore | libc.c:142-169 | on the bytes before the call: when the trimmed tail's footer misses those tags, the trim is safe if and only if a footer of the right size, marked free, already lies there |
| HeapMemory.RetagEffect | libc.c:159-169 | the meant trim leaves memory tiled by the trimmed list |
| HeapMemory.GrowthTrimSafe | libc.c:122-129 | after growth the freed block's pages carry the old tail's footer where the trim needs it, so that free(malloc(n)) is safe |
| HeapMemory.PayloadClear | libc.c:117 | the payload of a block of sufficient size has the bytes asked for, clear of every other block and of both its tags |
| HeapMemory.KeepsLiveThrough | libc.c:94-171 | a malloc and the free of its block together keep every byte of every block that was live before |
| HeapMemory.PayloadWrite | libc.c:117 | a store into the payload of a live block changes no tag and no other block |
| Malloc.Heap.WriteHeaderFooter | libc.c:85-92 | writes both tags of a block inside the memory it describes |
| Malloc.Heap.Initialise | libc.c:100-104 | the first call makes one page a single free block |
| Malloc.Heap.Search | libc.c:106-120 | finds the lowest fitting free block, or the end of the heap exactly if none fits; it terminates as the distance to the end shrinks |
| Malloc.Heap.Take | libc.c:108-118 | splits a block exactly if the rest can hold its tags, and returns the address after the header |
| Malloc.Heap.Grow | libc.c:122-129 | appends whole pages as one live block at the old break, every earlier byte unchanged |
| Malloc.Heap.DynMem | sys.c:383-422 | what the allocator relies on: growth returns the old break and keeps the bytes below it, a negative count gives the last pages back |
| Malloc.Heap.Malloc | libc.c:94-130 | rejects sizes under 1 without effect; else a pointer to num_bytes bytes of one live block, clear of every other block and of both tags; the live blocks are those before and this one, every live byte is unchanged, and the bound on the tail is kept for both trims |
| Malloc.Heap.FreeGuard | libc.c:132-140 | the tests of free accept exactly the payload pointers of live blocks |
| Malloc.Heap.MarkAndFuse | libc.c:142-157 | the tag writes of free, in order, on memory and on the block list, which loses exactly this live block |
| Malloc.Heap.TrimTail | libc.c:159-170 | the trim as written: the tags agree afterwards if and only if it was safe; no whole tail page is kept |
| Malloc.Heap.Free | libc.c:132-172 | -1 and no effect unless the pointer is live; else the live blocks are those before but its own, the pointer is live no more, the list is coalesced and trimmed, no other live byte moved, and the heap intact if and only if the trim was safe |
| Malloc.Heap.FreeKeepingTags | libc.c:132-172 | free with the meant trim takes exactly the pointer's block out of the live ones, keeps the heap intact for every live pointer, and leaves a tail from which it could release no more |
| Malloc.Heap.UserWrite | libc.c:117 | the program's stores into live payloads keep the heap intact |
| MallocRuns.AllocateAndFree | libc.c:94-172 | free(malloc(n)) as written gives back block list, break and every live byte on every initialised heap whose tail is under a page, as every malloc and free leave it |
| MallocRuns.AllocateAndFreeKeeping | libc.c:94-172 | the same with the meant trim, on every heap its runs reach |
| MallocRuns.FirstAllocationAndFree | libc.c:100-172 | the first allocation freed gives back all memory, byte for byte, with either trim |
| MallocRuns.Run | libc.c:94-172 | every run of malloc, free and stores keeps the tags and its trim's bound on the tail, ends in the layout computed from the block list alone, and keeps each live block it neither frees nor stores into, bytes and tags included |
| MallocRuns.ZeroByteUnsafe | libc.c:165-168 | one zero byte where the trimmed tail's footer belongs makes the trim unsafe |
| MallocRuns.TrimLosesTheFooter | libc.c:165-168 | a concrete run after which no block list fits the tags of the heap |
| ListHeads.RingPrefix | list.c:6-26 | the pointers of a ring determine its nodes and their order |
| ListHeads.InitListHead | list.c:6-10 | makes an empty ring |
| ListHeads.ListInsert | list.c:18-26 | inserts one node between two neighbours of a ring of any length; `next` and `prev` stay inverse and cyclic; only three nodes are written |
| ListHeads.ListAdd | list.c:36-39 | the node becomes the first |
| ListHeads.ListAddTail | list.c:50-53 | the node becomes the last |
| ListHeads.ListDel | list.c:62-79 | exactly that node leaves the ring, and its own links are null |
| ListHeads.ListEmpty | list.c:96-99 | true exactly for the ring of no nodes |
| ListHeads.ListIsLast | list.c:86-90 | true exactly for the last node |
| TaskQueues.Links.Remove | list.c:62-79 | list_del on a queued PCB's link takes it off the one of the three rings that holds it and leaves the other two as they were |
| TaskQueues.Links.UpdateProcessStateRr | sched.c:207-234 | its list calls on the rings give the queues of the machine, if the link is on a ring exactly when the PCB has a user pid and does not run |
| TaskQueues.DispatchLinked | sched.c:186-205 | in every state a call may leave, both moves of sched_next_rr find the link so |
| TaskQueues.Links.SchedNextRr | sched.c:186-205 | picks the machine's next task from the first link of the ready ring and leaves rings for the machine's queues |
| ListHeads.Reparent | sys.c:242-248 | relinking each child into another ring while the safe iteration is still in its own appends exactly the children, in order |
| Copy.CopyData | utils.c:6-20 | the word and byte loops do on memory what `Copied` says, for every size and every overlap |
| Copy.CopiedIsMoved | utils.c:6-20 | if the ranges are disjoint or the destination is not above the source, the destination gets the source's bytes on entry and nothing else changes |
| Copy.CopyCorrectIff | utils.c:6-20 | copy_data copies every memory correctly if and only if there is nothing to copy, the destination is not above the source, or the ranges are disjoint |
| Copy.OverlapFails | utils.c:6-20 | otherwise there is a memory on which it does not |
| Copy.AcceptedIff | utils.c:65-86 | access_ok for reading accepts a buffer if and only if it starts in the process's pages and ends before the second page behind the code: all of the data and code, and no heap beyond its first page |
| Copy.Console.WriteChunk | sys.c:322-323 | a chunk goes through the kernel buffer to the console unchanged |
| Copy.Console.SysWrite | sys.c:309-330 | prints exactly the user's buffer in order and returns its size, for every accepted size; errors print nothing; user memory is only read |
| Itoa.ReadsBackIff | libc.c:14-37 | the text of a number reads back as that number if and only if it is not negative |
| Itoa.DecimalReads | libc.c:24-35 | the digits stand for the number and have no leading zero |
| Itoa.FitsThreeIff | libc.c:50-68 | the three-byte buffer of perror holds the text and its terminator if and only if the number is under 100 |
| Itoa.Itoa | libc.c:14-37 | the buffer gets the decimal text and a zero, nothing behind changes; a negative number gives the empty text |
| Itoa.ReverseInPlace | libc.c:31-35 | the swap loop reverses its part of the buffer and nothing else |
| Itoa.Strlen | libc.c:39-48 | the position of the first zero |
| KernelInv.BootInv | sched.c:107-178 | the state after boot satisfies the invariant |
| KernelSteps.DispatchEffect | sched.c:186-205 | sched_next_rr takes the first of the ready queue, appends the task that ran unless it is idle, and loads the quantum |
| KernelSteps.SchedKeeps | sched.c:186-205 | a dispatch restores the whole invariant from any state a call may leave |
| KernelSteps.TickKeeps | sched.c:236-241 | the clock keeps the invariant and dispatches exactly when the quantum is used up |
| KernelSteps.BlockKeeps | sys.c:259-266 | block keeps the invariant and sleeps exactly when no wakeup is pending |
| KernelSteps.UnblockIff | sys.c:290-305 | unblock keeps the invariant if and only if the child is not blocked on a semaphore or a thread; what it does then is `KernelEffects.UnblockEffect` |
| KernelSteps.WaitThreadIff | sys.c:268-288 | waiting for a thread keeps the invariant if and only if the pid is not that of free PCBs; what it does then is `KernelEffects.WaitEffect` |
| KernelSteps.SemCreateIff | sys.c:424-446 | creation keeps the invariant if and only if the initial value is not negative or no slot is free |
| KernelSteps.SemWaitKeeps | sys.c:452-472 | wait keeps the invariant, in which as many tasks are queued as the value says waits are owed; what it does is `KernelEffects.SemWaitEffect` |
| KernelSteps.SemSignalIff | sys.c:478-500 | signal keeps the invariant, and takes a waiter from an empty list exactly in the case `SignalFaults` names |
| KernelSteps.HealthySignalsNeverFault | sys.c:487-491 | that case needs a semaphore that is being destroyed |
| KernelSteps.SignalDuringDestroyFaults | sys.c:518-525 | with one waiter and its owner inside semDestroy the next signal faults |
| KernelSteps.DestroyMiscounts | sys.c:518-525 | the drain loop yields with a value that no longer counts the waiters |
| KernelSteps.SemDestroyKeeps | sys.c:506-532 | destruction keeps the invariant although it yields for each waiter |
| KernelSteps.ForkIff | sys.c:56-156 | fork keeps the invariant if and only if it had memory or no PCB; the failure path leaves a live PID in the free queue |
| KernelSteps.RefuseKeeps | sys.c:82-86 | a fork without memory that puts a free PCB back keeps the invariant, and no other task notices |
| KernelSteps.ForkKeeps | sys.c:126-155 | the child is a copy of the caller under a new pid, its youngest child, at the back of the ready queue |
| KernelSteps.CreateThreadKeeps | sys.c:158-213 | the same for a thread |
| KernelSteps.ExitTailIff | sys.c:236-256 | leaving the tree keeps the invariant if and only if the task is not task 1 or idle, which have no parent |
| KernelSteps.DetachedTree | sys.c:236-248 | after the children went to idle every live task is on exactly its parent's list, and parents are older |
| KernelSteps.DrainWaitersEffect | sys.c:250-253 | exactly the waiting threads become ready, in order, and the list is empty |
| KernelSteps.ExitFromIff | sys.c:215-257 | exit with all its semaphores keeps the invariant, through every yield; what it does is `KernelEffects.ExitEffect` |
| KernelSteps.ResumeKeeps | sys.c:518-527 | a task dispatched inside a drain loop goes on and keeps the invariant |
| KernelSteps.StepIff | sys.c:56-536 | every call from a good state leads to a good state if and only if its guard holds, and the ready queue only turns |
| KernelEffects.BlockEffect | sys.c:259-266 | with a wakeup pending block uses one up and goes on; without one the caller sleeps, on no queue but the blocked one, and another task runs |
| KernelEffects.UnblockEffect | sys.c:290-305 | the child of that pid, if blocked, is ready or running; if not, it has one wakeup more; nobody else has, and nothing else changes |
| KernelEffects.WaitEffect | sys.c:268-288 | the caller sleeps as the last on the waiting list of the thread of that pid; without such a thread nothing happens |
| KernelEffects.CreateEffect | sys.c:424-446 | the lowest free slot gets the next id, the initial value, the caller as its owner and nobody waiting; without a free slot nothing happens |
| KernelEffects.SemWaitEffect | sys.c:452-472 | the value is one lower; if it was positive the caller goes on and nothing else changes, else it sleeps as the last in the queue |
| KernelEffects.SignalEffect | sys.c:478-500 | the value is one higher; if it was negative the first in the queue, and nobody else, is woken, else nothing else changes |
| KernelEffects.DestroyEffect | sys.c:506-532 | only the owner destroys: without waiters the slot is free at once, else its first waiter is woken and the caller will go on draining |
| KernelEffects.EndEffect | sys.c:236-256 | the task's PCB is the last free one, its children are idle's, and exactly the tasks that waited for it are awake, in order |
| KernelEffects.ExitEffect | sys.c:215-257 | exit frees the slots it owns up to the first somebody waits on, where it drains, or all of them, and then ends |
| KernelEffects.ResumeEffect | sys.c:518-527 | a resumed loop drains one waiter more, or frees its slot and goes on with the call it is part of |
| KernelEffects.TickEffect | sched.c:236-241 | a tick takes one off the quantum, and at its end hands the processor over with a new one |
| KernelEffects.SpawnsEffect | sys.c:126-209 | fork and create_thread make the first free PCB a copy of the caller's with a new pid, the caller's youngest child, with nothing pending, last in the ready queue |
| KernelEffects.StepEffect | sys.c:56-536 | every guarded call does exactly what its effect says |
| KernelLedger.StepEntered | sys.c:56-536 | whatever the call, a sleeping task is woken by the event it waits for and by nothing else, and its wakeups change only by its parent's unblocks and its own blocks |
| KernelLedger.PidsAfter | sys.c:56-257 | pids change only by a spawn, to the next one, and by an exit, to -1 |
| KernelLedger.StepBooked | sys.c:424-532 | whatever the call, a semaphore in use changes its value only by signals and waits on its id, its queue only at its ends, and a slot comes into use only by a creation |
| KernelOwners.StepOwners | sys.c:215-257 | the creator of every semaphore in use is a live task, a semaphore without owner is being drained, and a task that ends has freed all its semaphores |
| KernelOwners.ReachableOwners | sys.c:215-532 | so in every state a guarded run from boot reaches |
| KernelFailures.UnblockFailureReachable | sys.c:290-305 | four guarded calls from boot reach a state in which unblock names a child that waits on a semaphore, and loses the invariant |
| KernelFailures.SignalFaultReachable | sys.c:478-525 | six guarded calls from boot, the last a semDestroy with one waiter, reach a state in which the next signal faults |
| KernelRuns.ReachableInv | sys.c:56-536 | the invariant holds in every state a guarded run from boot reaches |
| KernelRuns.QueuesPartition | sched.c:165-234 | the PCBs are partitioned among free, ready and blocked queue, idle and the current task; exactly the current task is in state run |
| KernelBooks.ValueOverRun | sys.c:452-500 | over any stretch of its life a semaphore's value changes by the signals on its id less the waits on it, counted on the calls of the run |
| KernelBooks.SemaphoreSafety | sys.c:424-500 | in every run from boot the value is the argument of the creating call and the signals since less the waits since, and no more waits have returned than that allows, and exactly as many while somebody waits |
| KernelBooks.FirstComeFirstServed | sys.c:463-492 | a semaphore's queue loses tasks only at its front: what is left of it stands before all that came later |
| KernelRuns.SemaphoreIdsDistinct | sys.c:433-434 | live semaphores have different ids |
| KernelBooks.WakeupsOverRun | sys.c:259-305 | over any stretch of a task's life, what it has pending, less one if it sleeps in block, changes by the unblocks its parent sent it less the block calls it made |
| KernelBooks.NoLostWakeup | sys.c:259-305 | in every run from boot the unblocks sent to a task since it was born are its returned blocks and what is pending, and a task asleep in block has nothing pending |
| KernelBooks.SleepsWhileAlive | sys.c:268-288 | a task that waits for a thread is not dispatched by any run in which that thread lives |
| KernelBooks.EndWakes | sys.c:250-285 | and the call that ends the thread makes it ready |
| KernelBooks.FullQuantum | sched.c:186-241 | a task that does not yield keeps the processor for as many ticks as its quantum has left |
| KernelRuns.TreeStep | sys.c:131-133 | each live task but two is on its parent's list only, and the parent is live and older |
| KernelRuns.Root | sys.c:131-133 | following parents from any live task ends at idle or task 1 |
| KernelRuns.StepMovesUp | sched.c:186-205 | one call moves a ready task up one place if it dispatches, and otherwise leaves its place |
| KernelRuns.RoundRobin | sched.c:186-234 | the task at index k of the ready queue runs right after the (k+1)-th dispatch, whatever calls come between |
| KernelRuns.BoundedWaiting | sched.c:236-241 | it runs within 10 (k+1) clock ticks |
| Sched.Kernel.constructor | sched.c:107-178 | init_sched, init_idle and init_task1 leave the booted state |
| Sched.Kernel.UpdateProcessStateRr | sched.c:207-234 | moves a PCB between the queues as the state machine says, including the branches for negative and zero pids |
| Sched.Kernel.SchedNextRr | sched.c:186-205 | the dispatch of the state machine on the tables |
| Sched.Kernel.ClockRoutine | sched.c:236-241 | the clock step on the tables |
| Sched.Kernel.SysFork | sys.c:56-156 | fork's PCB work on the tables, with both failure paths and their return values |
| Sched.Kernel.SysCreateThread | sys.c:158-213 | create_thread on the tables |
| Sched.Kernel.SysBlock | sys.c:259-266 | block on the tables |
| Sched.Kernel.SysUnblock | sys.c:290-305 | the loop over the children does what the state machine says and returns 0 exactly if one matched |
| Sched.Kernel.SysWaitThread | sys.c:268-288 | the search over all PCBs and the wait |
| Sched.Kernel.SysSemCreate | sys.c:424-446 | takes the first free slot and returns its id, or -1 |
| Sched.Kernel.SysSemWait | sys.c:452-472 | wait on the tables |
| Sched.Kernel.SysSemSignal | sys.c:478-500 | signal on the tables, where it does not fault |
| Sched.Kernel.SysSemDestroy | sys.c:506-532 | the drain loop up to its first yield, or the freed slot |
| Sched.Kernel.SysExit | sys.c:215-257 | exit up to its first yield, or to the end |
| Sched.Kernel.ResumeDrain | sys.c:518-527 | the rest of a drain loop after a yield |
| FrameModel.FramesConserved | mm.c:198-246 | in every sound state the used user frames are the 8 of the code plus, for each directory in use, 20 and its heap pages |
| FrameModel.HeapFits | include/mm_address.h:6-14 | a heap, its data pages and any set of free frames together are at most 376 frames |
| FrameModel.PageFrames | mm.c:249-257 | the pages a directory owns lie on different frames |
| FrameModel.OwnedBy | sys.c:77-105 | a directory in use owns exactly 20 frames and one for each heap page, an unused one none |
| FrameSteps.GrowIff | sys.c:387-407 | growth keeps every frame owned once and every count exact if and only if no other directory shares the heap counter |
| FrameSteps.ShrinkIff | sys.c:408-421 | the same for giving pages back |
| FrameSteps.GrowThenShrink | sys.c:387-421 | growing and shrinking by as much restores frames, table and counter exactly |
| FrameSteps.ShrunkCode | mm.c:242-246 | no code frame is ever given back, so that free_frame may ignore frame 256 |
| FrameSteps.ThreadKeeps | sys.c:174-175 | a thread keeps the memory sound: one more reference, no frame |
| FrameSteps.ExitKeeps | sys.c:224-237 | exit keeps it sound, whether or not it was the last of its directory |
| FrameSteps.LastExitPhys | sys.c:224-234 | the last exit frees exactly the frames its directory owned |
| ForkSteps.ForkIff | sys.c:73-125 | fork as written keeps the memory sound if and only if the counter it zeroes is zero already or no directory's in use |
| ForkSteps.OwnForkKeeps | sys.c:73-125 | with a counter of its own for the child there is no such condition |
| ForkSteps.ForkSharesCounter | sys.c:75 | after any fork as written parent and child share a counter |
| ForkSteps.ShortForkLeaks | sys.c:82-86 | a fork that ran out of frames leaves a count that is never exact again |
| ForkSteps.RefusedKeeps | sys.c:82-86 | a fork short of frames that gives its directory back keeps the memory sound |
| ForkSteps.NoDirectoryMiscounts | sys.c:73 | without a free directory the child runs uncounted in its parent's |
| ForkSteps.ForkMapsPageZero | sys.c:93-94 | the child's kernel pages are its parent's, and page 0 is mapped also when the parent's is not |
| ForkSteps.WindowSafe | sys.c:107-122 | the window pages of both loops are unmapped before, pairwise different and below the end of the table, for every heap size |
| FrameRuns.LowestFree | mm.c:214-227 | the search finds the lowest free frame of every second one, and -1 exactly if there is none |
| FrameRuns.GrabDistinct | mm.c:214-227 | successive calls hand out different frames, all free before |
| FrameRuns.GrabFresh | mm.c:242-246 | none of them is a code frame |
| FrameRuns.StepIff | sys.c:56-421 | each call as written keeps the memory sound if and only if its guard holds |
| FrameRuns.RepairedKeeps | sys.c:56-421 | with fork repaired every call keeps it sound, without a guard |
| FrameRuns.RunKeeps | sys.c:56-421 | and so do all runs |
| FrameRuns.RunConserves | mm.c:198-246 | after any such run the frames are conserved and every directory counts its users |
| FrameRuns.ExitReleases | sys.c:224-234 | frames are given back exactly once, by the last task of a directory: 20 and the heap, by any other exit none |
| FrameRuns.GrowthIsContiguous | sys.c:385-407 | growth returns the break as it was and moves it up by its pages, which malloc relies on; shrinking again restores the state |
| FrameRuns.HeapRange | sys.c:383-421 | above the code exactly the pages below the break are mapped |
| FrameFailures.GrowthAfterFork | sys.c:75-407 | after any fork as written within its guard, the first growth of the parent's heap that finds its frames leaves an unsound state |
| FrameFailures.SharedCounterReachable | sys.c:75-407 | from boot: task 1 forks, grows by a page, and the child's break takes in a page its table does not map |
| UserHeap.DynMemMovesBreak | sys.c:383-422 | a dyn_mem that is not refused moves the break by its pages, returns what the allocator expects, and leaves every byte below both breaks reading the same through the page table |
| UserHeap.ThreadShares | sys.c:174-175 | a new thread reads everywhere what its creator reads, below the same break, and nobody's memory changes |
| UserHeap.ExitLeavesOthers | sys.c:224-237 | an exit takes no byte from a task that goes on, in the same directory or another |
| UserHeap.DynMemLeavesOthers | sys.c:383-422 | dyn_mem changes nothing a task of another directory reads |
| FrameRuns.FreeDirIsUsers | sched.c:68-85 | allocate_DIR never hands out the directory of boot or of idle |
| FrameRuns.DirectoryLeft | sched.c:68-85 | fork can fail to find a directory only for the last free PCB |
| Frames.Machine.constructor | mm.c:134-142 | boot: the kernel tables, the code on frames 256 to 270, task 1 on directory 2 |
| FrameLoops.BootReady | mm.c:81-106 | that state is sound, and each directory counts in its own entry |
| Frames.Machine.AllocFrame | mm.c:214-227 | takes the lowest free frame, or returns -1 and changes nothing |
| Frames.Machine.FreeFrame | mm.c:242-246 | frees frames above 256 only |
| Frames.Machine.SetUserPages | mm.c:81-106 | code and data on the next free frames |
| Frames.Machine.AllocateDir | sched.c:68-85 | the first directory without references, counted for the task, or failure |
| Frames.Machine.SubDirRef | sched.c:48-56 | one reference less, and the number left |
| Frames.Machine.AllocateHeap | sched.c:87-97 | zeroes the directory's counter and points the task to it |
| Frames.Machine.FreePages | sys.c:413-417 | frees exactly the frames of a stretch of pages and unmaps it |
| Frames.Machine.Translate | mm.c:108-112 | an access uses the cached translation first and caches what it walked |
| Frames.Machine.SysDynMem | sys.c:383-422 | growth, shrinking, query and both errors with their results; a failed growth changes nothing; no stale translation is left |
| Frames.Machine.UndoGrowth | sys.c:392-399 | the way back of a failed growth restores the table, and phys_mem but for frame 256, which free_frame ignores |
| Frames.Machine.GrabFrames | sys.c:77-88 | fork gets all its frames or gives back all it took, again but for frame 256 |
| Frames.Machine.FillChild | sys.c:93-105 | the four loops give the child its table |
| Frames.Machine.CopyRegion | sys.c:109-122 | a copy loop through the window copies every page although the TLB keeps the window's translations |
| FrameLoops.CopyReady | sys.c:109-122 | in each round of a copy loop the page read and the window page translate as the tables say, although earlier window pages are still cached |
| FrameLoops.CopyStep | sys.c:109-122 | a round copies one page and adds to the TLB only the page read and the window page |
| FrameLoops.RegionCopies | sys.c:109-122 | a copy loop whose window was not cached before leaves in the child's frames what the parent's pages held, and no other frame changed |
| FrameLoops.ForkSucceeded | sys.c:109-125 | the two loops and the flush together give the state of the specification with every page copied |
| Frames.Machine.SysFork | sys.c:73-125 | fork's memory work, as written or repaired, is the specification's in both outcomes; it copies every page, and leaves an empty TLB |
| FrameLoops.ForkedChildReads | sys.c:73-125 | after a successful fork that zeroed no counter in use, the child reads on each data and heap page what the parent read at the call, from frames nobody else maps there; it shares the code and the kernel's pages; every table of another directory and what it reads on its pages is unchanged |
| Frames.Machine.SysCreateThread | sys.c:174-175 | the thread shares directory and counter |
| Frames.Machine.SysExit | sys.c:224-237 | exit's memory work, with the frames of the last user |
| Frames.Machine.SwitchTo | sched.c:150-157 | after a switch every cached translation is that of the new task's table |
| Frames.Machine.Access | sched.c:153-154 | a user access gets the frame its table names, cached or not |
| Joint.LiveAfter | sys.c:56-257 | a guarded call makes exactly the first free PCB live when it spawns, and frees exactly the current one when it ends |
| Joint.ForkIsJoint | sys.c:73-125 | what SysFork, repaired, does to tables and frames is the memory's half of a joint fork, or of a refused one exactly if frames are short |
| Joint.JointKeeps | sys.c:56-421 | a step of scheduler and memory together keeps both invariants, and the live tasks are exactly the users of directories; forks refused for want of frames or of a directory included |
| Joint.SystemSafety | sys.c:56-536 | in every reachable state of the whole: one running task, frames conserved, exact reference counts, and a directory for every fork but that of the last PCB |

## Left out

- sys_read, the keyboard buffer and the queue read_blocked (sys.c:334-362): not part of this model.
- io.c, devices.c, sys_gotoxy and sys_set_color: what sys_write_console prints is an appended sequence.
- user.c, perror, errno, sys_getpid, sys_gettime and get_ticks: single reads, messages, or game code.
- hardware.c, bootsect.S, entry.S, wrappers.S, the GDT, IDT, TSS and MSR set-up, kernel stacks and the stack switch: machine code. The context switch is an assignment to the current task.
- Page permission bits: an entry is absent or names a frame. A directory is the index of its table.
- The anchors inside a PCB: in `Sched` a queue is a sequence. `TaskQueues` ties the three scheduling queues to rings; the lists of children and of waiters are sequences only, but for `ListHeads.Reparent`.
- Kernel-mode semaphores (`userMode` 0 at creation): no caller in the repository creates one.
- Integer overflow of pids, semaphore ids, semaphore values and pending counts, and of `num_bytes + 16`: unbounded here. dyn_mem with the smallest `int`, whose negation overflows, is excluded for the same reason.
- The stack space of the frame arrays of fork and dyn_mem (sys.c:77, sys.c:388).
- `why`, `cont`, `delivered`, `completed` and the histories of a semaphore are fields of the model that the code does not have. No branch of a call but that of a resumed drain loop reads them, and the results about runs in `KernelBooks` count calls instead.
- Malloc.Heap.Malloc: requires that dyn_mem can serve the pages, which libc.c:123 does not check.
- Malloc.Heap.FreeGuard: a pointer inside the heap that is not the payload of a block is excluded, since the code then takes payload bytes for a tag.
- Malloc.Heap.Free: the same.
- Malloc.Heap.FreeKeepingTags: the same.
- MallocRuns.AllocateAndFree: a heap whose tail has a page or more is excluded; from an empty heap on, no malloc or free leaves one (`Malloc.Heap.Malloc`, `Malloc.Heap.Free`).
- MallocRuns.Run: with free as written only frees are run whose tail is live, under a page or whole pages, since what else is safe depends on bytes of the program (`HeapMemory.TrimSafe`); the meant trim has no such condition.
- Frames.Machine.SysFork: requires a free directory, whose absence sys.c:73 ignores; `ForkSteps.NoDirectoryMiscounts` says what is then lost, `FrameRuns.DirectoryLeft` when it can happen.
- Frames.Machine.CopyPage: moves a page's contents as one value; that the word loop of copy_data copies 4096 bytes between different frames is `Copy.CopiedIsMoved`.
- Sched.Kernel.SysFork: a parameter says whether the frames sufficed and another whether the PCB is freed if not; `Joint.ForkIsJoint` connects it with `Frames`.
- Sched.Kernel.SysCreateThread: the outcome of the access_ok tests is a parameter, since permission bits are left out.
- Sched.Kernel.SysWaitThread: returns the pid the tables hold at the yield; the code reads it when the caller runs again.
- Sched.Kernel.SysSemWait: returns the creator the tables hold at the yield; the code reads it when the caller runs again.
- Sched.Kernel.SysSemSignal: returns the value at the yield, and excludes the call that faults, which `KernelSteps.SemSignalIff` characterises.
- TaskQueues.Links.SchedNextRr: up to the context switch; the PCBs it reads are a parameter, and a fork's copy of its parent's link, which is on no ring, is left out.
- Joint.JointKeeps: uses fork repaired, as the code as written loses the memory's soundness after a fork; the code as written is `FrameRuns.StepIff`. A fork without a free directory is refused there, where sys.c:73 goes on.
