# Acess2: a verified model of the kernel core and its tools

This project models six parts of the Acess2 operating system and proves what they promise, for all inputs, all
runs and all reachable states.

* **The kernel heap** (`HeapLayout`, `HeapRuns`, `HeapMemory`, `HeapMeaning`, `Heap`). A best-fit boundary-tag allocator
  that works in place on an array of words. The layout of blocks is an abstract tiling; the class `Heap.KernelHeap` writes headers and
  footers and is proved to move from one layout to the next.
* **Threads and blocking primitives** (`Scheduler`, `KernelState`, `KernelRuns`, `KernelEffects`, `KernelHistory`,
  `SemaphoreHistory`, `SemaphoreShares`, `WorkHistory`, `FairScheduling`, `ThreadLists`, `Kernel`, `Mailbox`, `Inbox`, `Timers`,
  `TimerEffects`, `TimerLists`). A state machine over the regions that the kernel runs under its spinlocks, on one CPU; the
  class `Kernel.Machine` keeps the intrusive `Next` pointers, list heads, tails and counters and is proved to follow the state machine step by step.
* **The AcessNative system call protocol** (`SyscallWire`, `SyscallClient`, `SyscallFormat`, `SyscallServer`, `SyscallReply`). The
  client's two marshalling passes, the server's framing, the rebuilding of arguments, the reply and its unpacking.
* **The SIF run-length code** (`RunLength`, `RunLengthEncoder`, `ImageLoader`, `ChannelLoader`, `LoaderCuts`): the encoder, a
  decoder written from the description of the format, and the image library's loops, which are proved to load what was encoded.
* **The physical memory map and unaligned disk access** (`MemoryMap`, `MapMeaning`, `BlockDevice`).
* **The Internet checksum** (`Checksum`, `Packets`), sections 1 and 2 of RFC 1071, and its use in IPv4 (section 3.1 of
  RFC 791) and TCP (section 3.1 of RFC 9293).

`Bytes` holds little-endian numbers and buffers. `dafny verify dfyconfig.toml` checks everything.

Every lemma turns automatic induction off, so that a proof is what its body says. `hide` statements keep definitions out of
proofs that do not need them; they do not change what is stated.

## How the code is read

* One region under a spinlock is one step. `Proc_Reschedule` makes the result of `Threads_GetNextToRun` current, or changes
  nothing on NULL. A thread is named by the address of its descriptor, with 0 for NULL; what it waits for (the wait pointer,
  and for events the mask that the code keeps in `RetStatus`) is part of its status. `RetStatus` is modelled where it is read,
  for semaphores.
* Only the owner of a mutex releases it, and no one signals a negative amount: these are conditions on runs
  (`KernelRuns.Enabled`), not on the operations.
* Heap sizes are those of the x86 build: a header of 28 bytes, a footer of 8, blocks of multiples of 32. Header and footer
  together are longer than the smallest block. That is harmless: a free block of 32 bytes has its footer over the unused
  allocation time, and an allocated block has at least 64.
* Calls into code outside the model become parameters: the number of pages that can still be mapped, the address of a new
  message, the clock, what a system call handler returns, and how many blocks a disk callback transfers (any number, chosen
  freely at each call). The clock may move on between any two steps, and between the rounds of a tick.
* Where the code and its documentation disagree the model follows the code. `DrvUtil_WriteBlock` is documented to return the
  number of bytes written, but returns one block too many when a callback stops short and the range starts at a block. A
  verbatim stretch of the run-length code is cut at repeats of its first block only, not at every repeat.

## Model

| member | source | states |
|---|---|---|
| `HeapLayout.BlockBytesExact` | KernelLand/Kernel/heap.c:165-175 | the size computed for a request has room for header, data and footer if and only if the 32-bit sum does not wrap, and is then the smallest multiple of the minimum that does |
| `HeapLayout.HugeRequestWraps` | KernelLand/Kernel/heap.c:165-175 | the largest requests do wrap: they are given 32 bytes or none |
| `HeapLayout.BlockWordsFit` | KernelLand/Kernel/heap.c:165-175 | every request whose size computation does not wrap gets an aligned block with room for it |
| `HeapLayout.MergeWellFormed` | KernelLand/Kernel/heap.c:128-163 | merging a free block both ways restores the invariant when only its own neighbourhood broke it |
| `HeapLayout.TakeWellFormed` | KernelLand/Kernel/heap.c:260-338 | allocating a block or its lower part keeps the heap tiled, aligned, roomy and coalesced |
| `HeapLayout.ReleaseWellFormed` | KernelLand/Kernel/heap.c:388-418 | freeing a block and merging it keeps the heap tiled, aligned, roomy and coalesced |
| `HeapLayout.ExtendWellFormed` | KernelLand/Kernel/heap.c:75-123 | growing by pages keeps the heap tiled, aligned, roomy and coalesced, and moves the end by exactly their size |
| `HeapLayout.ExtendEnlargesTail` | KernelLand/Kernel/heap.c:103-123 | extending only enlarges the free space at the end, or creates it |
| `HeapLayout.GrowWellFormed` | KernelLand/Kernel/heap.c:467-504 | growing an allocation into the free block behind it, with or without a rest, keeps the whole invariant |
| `HeapLayout.ReleaseUndoesTake` | KernelLand/Kernel/heap.c:128-163 | freeing what was just taken gives back the very same layout |
| `HeapLayout.WalkLandsOnEnd` | KernelLand/Kernel/heap.c:701-748 | walking from block to block by their sizes visits every block and lands exactly on the end of the heap |
| `HeapMemory.WalkIn` | KernelLand/Kernel/heap.c:701-748 | in memory that shows a layout, the walk by the size fields visits exactly the blocks of that layout |
| `Heap.KernelHeap.Validate` | KernelLand/Kernel/heap.c:690-755 | the heap's own validator accepts exactly the memory in which a walk through well tagged blocks gets to the end of the heap or past it, so every heap that keeps the invariant, through the blocks of its layout |
| `HeapMemory.WalkedOnce` | KernelLand/Kernel/heap.c:701-748 | there is at most one such walk |
| `HeapMemory.WalkedTiles` | KernelLand/Kernel/heap.c:701-755 | if it lands on the end then its blocks tile the heap: ascending and aligned, each with its size and one of the two magic words in its header and a footer that points back |
| `HeapMemory.WalkedPast` | KernelLand/Kernel/heap.c:750-760 | it need not land there: memory whose last block runs past the end is accepted too |
| `HeapRuns.StepWellFormed` | KernelLand/Kernel/heap.c:75-504 | every step of allocate, free, extend, grow and store keeps the whole invariant |
| `HeapRuns.RunWellFormed` | KernelLand/Kernel/heap.c:75-504 | in every run from the empty heap every state is well formed and within the heap's address range |
| `HeapRuns.RunExtends` | KernelLand/Kernel/heap.c:75-504 | every step that is enabled extends every run, with any memory that differs only where the step may write |
| `HeapRuns.LiveDisjoint` | KernelLand/Kernel/heap.c:165-175 | live allocations never overlap each other or each other's tags |
| `HeapRuns.BlockKept` | KernelLand/Kernel/heap.c:75-504 | an allocation that a step neither frees nor grows keeps its place, size and request |
| `HeapRuns.DataUntouched` | KernelLand/Kernel/heap.c:206-345 | no step writes into the data of an allocation that it does not free or store to |
| `HeapRuns.RunKeepsAllocation` | KernelLand/Kernel/heap.c:206-418 | over a whole run an allocation that is not freed keeps its place and does not shrink, and a word of it changes only by a store to that word |
| `HeapRuns.FreeUndoesAlloc` | KernelLand/Kernel/heap.c:315-338 | freeing the allocation just made restores the earlier layout exactly |
| `HeapRuns.FreeUndoesAllocExtend` | KernelLand/Kernel/heap.c:290-313 | if the heap was extended, freeing leaves the earlier layout with only its trailing free space enlarged |
| `HeapMeaning.AllocMeans` | KernelLand/Kernel/heap.c:257-338 | allocating adds exactly one allocation, with the size computed for the request, at the start of the best fit |
| `HeapMeaning.AllocExtendMeans` | KernelLand/Kernel/heap.c:290-338 | so it does when the heap is extended first, where its trailing free space started |
| `HeapMeaning.FreeMeans` | KernelLand/Kernel/heap.c:388-418 | freeing removes exactly the allocation that is freed |
| `HeapMeaning.GrowMeans` | KernelLand/Kernel/heap.c:467-504 | growing in place gives the allocation its new size and request and changes no other |
| `HeapMeaning.OtherMeans` | KernelLand/Kernel/heap.c:75-123 | extending the heap and storing data change no allocation |
| `HeapMeaning.PagesLeast` | KernelLand/Kernel/heap.c:90-91 | the heap grows by as few pages as hold the block |
| `Heap.KernelHeap.constructor` | KernelLand/Kernel/heap.c:54-59 | the heap starts empty and is grown by its initial 32 KiB if there is memory |
| `Heap.KernelHeap.Extend` | KernelLand/Kernel/heap.c:75-123 | the heap grows by whole pages unless there is nothing to do, no address space or no memory, in which case nothing changes; the new space is merged downwards and only the tail is written |
| `Heap.NewEndExact` | KernelLand/Kernel/heap.c:75-95 | the new end is right, and the limit check answers right, if and only if the true end fits into 32 bits; a wrapped end is never above the old one and is let through |
| `Heap.NewEndWraps` | KernelLand/Kernel/heap.c:75-95 | a request of a gigabyte wraps past the limit check |
| `Heap.KernelHeap.Merge` | KernelLand/Kernel/heap.c:128-163 | the tags in memory become those of the merged layout, and nothing outside the merged blocks is written |
| `Heap.KernelHeap.MergeLeft` | KernelLand/Kernel/heap.c:134-147 | the lower half of merging |
| `Heap.KernelHeap.MergeRight` | KernelLand/Kernel/heap.c:149-160 | the upper half of merging |
| `Heap.KernelHeap.FindBest` | KernelLand/Kernel/heap.c:206-287 | the search finds the first of the smallest free blocks that fit, or none if and only if none fits; its sanity checks never fire |
| `Heap.KernelHeap.Take` | KernelLand/Kernel/heap.c:260-338 | the tags become those of the layout with the block allocated, and only that block is written |
| `Heap.KernelHeap.Allocate` | KernelLand/Kernel/heap.c:182-346 | allocation fails exactly for a request of zero, or if nothing fits and the heap cannot grow; otherwise it is a step of the machine that takes a best fit or extends, and returns the data address of the block |
| `Heap.KernelHeap.Deallocate` | KernelLand/Kernel/heap.c:351-422 | freeing a live pointer is the free step of the machine; any other pointer changes nothing |
| `Heap.KernelHeap.FreeBlock` | KernelLand/Kernel/heap.c:388-418 | marking a block free and merging it is the free step |
| `Heap.KernelHeap.Reallocate` | KernelLand/Kernel/heap.c:431-504 | an allocation keeps its address and gets room for the new size, in place or by the grow step into the free block behind it |
| `Heap.KernelHeap.GrowBlock` | KernelLand/Kernel/heap.c:467-504 | growing into the free block behind, exactly or with a rest, is the grow step |
| `Heap.KernelHeap.Store` | KernelLand/Kernel/heap.c:206-345 | a store of its owner into an allocation is a step of the machine and keeps the whole invariant |
| `Heap.StoreIn` | KernelLand/Kernel/heap.c:206-345 | such a store leaves every header and footer in place |
| `Heap.RunShows` | KernelLand/Kernel/heap.c:75-504 | over every run from the empty heap, with any stores of the owners between the operations of the allocator, the memory shows the layout |
| `Scheduler.UnblockSound` | KernelLand/Kernel/threads.c:573-600 | taking a thread off any position of a wait list and making it active leaves every thread in exactly one place |
| `Scheduler.ActivateSound` | KernelLand/Kernel/threads.c:972-1034 | activating a thread that is on no list, also when it is the current one, leaves every thread in exactly one place |
| `Scheduler.SleepOnSound` | KernelLand/Kernel/threads.c:780-816 | putting the current thread to sleep on a list leaves every thread in exactly one place |
| `Scheduler.RescheduleSound` | KernelLand/Kernel/threads.c:1499-1584 | switching threads leaves every thread in exactly one place |
| `Scheduler.RescheduleBest` | KernelLand/Kernel/threads.c:1499-1584 | the count of active threads is zero if and only if none is; otherwise, with switching enabled, an active thread of best priority runs next, so the panic and the warning cannot happen |
| `Scheduler.NoneActive` | KernelLand/Kernel/threads.c:1513-1518 | the early return is taken if and only if no thread is active |
| `KernelRuns.OpKeepsInv` | KernelLand/Kernel/threads.c:573-1584 | every operation keeps the whole invariant: one place for each thread, the right count, free mutexes without waiters, semaphores with items without waiters, no sleep on a pending event |
| `KernelRuns.RunInv` | KernelLand/Kernel/threads.c:573-1584 | the invariant holds in every state of every run from boot |
| `KernelRuns.RunExtends` | KernelLand/Kernel/threads.c:573-1584 | every operation that is enabled extends every run, so the runs are all sequences of enabled operations |
| `KernelRuns.OnePlace` | KernelLand/Kernel/threads.c:573-610 | a thread is on a list if and only if its status, its priority and the current thread say so, and then once |
| `KernelEffects.OpExact` | KernelLand/Kernel/threads.c:780-944 | every operation but a signal changes the status, the events and the result of one thread only, in the way that is written out for it |
| `KernelEffects.EventsExact` | KernelLand/Kernel/events.c:14-102 | after any operation an event is pending for a thread if and only if it was posted, or was pending and the thread has not cleared it or waited for it |
| `KernelEffects.EventStays` | KernelLand/Kernel/events.c:59-102 | over every run a pending event stays until its thread clears it or waits for it |
| `KernelEffects.PostStays` | KernelLand/Kernel/events.c:14-54 | and so does an event from its post on |
| `KernelEffects.WakeRuns` | KernelLand/Kernel/threads.c:859-944 | a thread that sleeps, plainly or on a semaphore, is active after a wake and on the run queue of its priority unless it is the current one |
| `KernelEffects.SleepExact` | KernelLand/Kernel/threads.c:822-850 | the running thread goes to sleep on the list of sleepers if and only if it has no message |
| `KernelEffects.NoSwitchStays` | KernelLand/Kernel/threads.c:1499-1584 | while switching is disabled a reschedule changes nothing |
| `KernelRuns.InitialInv` | KernelLand/Kernel/threads.c:144-158 | the state at boot satisfies the invariant |
| `KernelRuns.PostKeeps` | KernelLand/Kernel/events.c:14-54 | posting keeps the invariant; in particular no thread is left asleep on the posted event |
| `KernelRuns.AwaitKeeps` | KernelLand/Kernel/events.c:67-102 | waiting keeps it: a thread sleeps only if none of its events is pending |
| `KernelRuns.SignalKeeps` | KernelLand/Kernel/semaphore.c:111-187 | signalling keeps it: items remain only when nobody waits |
| `KernelRuns.UnlockKeeps` | KernelLand/Kernel/mutex.c:56-81 | releasing keeps it: a mutex becomes free only when nobody waits |
| `KernelHistory.Untouched` | KernelLand/Kernel/threads.c:573-1049 | an operation leaves every wait list but its own, every other mutex and every other semaphore alone |
| `KernelHistory.MutexOrder` | KernelLand/Kernel/mutex.c:23-81 | over every run, those who asked for a mutex are, in that order, those who got it and then those who wait; those who got it are those who released it and then the owner |
| `KernelHistory.MutexExclusion` | KernelLand/Kernel/mutex.c:23-81 | at most one thread is past its acquire and not past its release, namely the owner |
| `KernelHistory.MutexTurn` | KernelLand/Kernel/mutex.c:56-81 | a thread with k waiters ahead of it owns the mutex after k+1 releases |
| `KernelHistory.FreeMutexIdle` | KernelLand/Kernel/mutex.c:56-81 | in every run a mutex without owner has no waiters |
| `SemaphoreHistory.SignalServes` | KernelLand/Kernel/semaphore.c:144-183 | a signal serves a prefix of the waiters, stops only when items or waiters run out, and hands out exactly what it takes off the value |
| `SemaphoreHistory.SignalPays` | KernelLand/Kernel/semaphore.c:144-183 | each thread served is awake, and its result is the smaller of what it asked for and what those before it left, or all of that if it asked for zero |
| `SemaphoreShares.TakenShare` | KernelLand/Kernel/semaphore.c:46-54 | a wait for n on v items takes n if v is larger, otherwise or for n below one all of them |
| `SemaphoreShares.RequestsHeld` | KernelLand/Kernel/semaphore.c:57-63 | over every run the return status of each waiter is what it asked for when it blocked |
| `SemaphoreShares.ServedShare` | KernelLand/Kernel/semaphore.c:144-183 | over every run a wait that a signal serves receives at least one item, and no more than it asked for |
| `SemaphoreHistory.SignalNonNegative` | KernelLand/Kernel/semaphore.c:111-187 | a signal of any amount, also a negative one, leaves the value non-negative if and only if the sum is not negative or there is a waiter |
| `SemaphoreHistory.SemaphoreConserves` | KernelLand/Kernel/semaphore.c:42-187 | over every run, the initial value and all amounts signalled equal the present value and all amounts granted; the value is never negative, and positive only without waiters |
| `SemaphoreHistory.TicketsRight` | KernelLand/Kernel/semaphore.c:31-106 | the waiters are those whose waits blocked and were neither served nor forced awake, in the order of blocking |
| `SemaphoreHistory.SignalsFifo` | KernelLand/Kernel/semaphore.c:144-217 | signals serve threads in the order in which they blocked, and never before one that blocked earlier and still waits, with any forced wakes in between |
| `SemaphoreHistory.ServedRight` | KernelLand/Kernel/semaphore.c:144-183 | the threads that signals paid are the ones whose waits are counted as served |
| `WorkHistory.WorkOrder` | KernelLand/Kernel/workqueue.c:23-66 | over every run and with any number of consumers, items are taken in the order in which they were added, and none is lost or made up |
| `WorkHistory.NoMissedWork` | KernelLand/Kernel/workqueue.c:23-66 | with a single consumer, as the file says, the consumer never sleeps while there is work |
| `WorkHistory.SecondConsumerSleeps` | KernelLand/Kernel/workqueue.c:56-64 | adding an item leaves nobody asleep on a queue with work if and only if at most one thread slept on it |
| `WorkHistory.MissedWork` | KernelLand/Kernel/workqueue.c:23-66 | a run from boot in which a thread does sleep on: two threads wait for work and a third adds one item |
| `WorkHistory.OtherSleepers` | KernelLand/Kernel/threads.c:859-944 | only taking and adding work changes who sleeps on a queue; waking such a thread has no effect |
| `FairScheduling.QueuesGrow` | KernelLand/Kernel/threads.c:972-1034 | between switches, threads only join run queues, at their ends |
| `FairScheduling.RunsInTurn` | KernelLand/Kernel/threads.c:1450-1584 | if no better thread is active at a switch, a thread at position k of its queue has run by the (k+1)th switch, and each switch takes it one place forward |
| `ThreadLists.LinkLastChained` | KernelLand/Kernel/threads.c:602-610 | linking a thread in behind the tail keeps the pointers of all lists right |
| `ThreadLists.UnlinkChained` | KernelLand/Kernel/threads.c:573-600 | unlinking a thread from any position keeps the pointers of all lists right, and afterwards no list mentions it |
| `Kernel.Machine.constructor` | KernelLand/Kernel/threads.c:144-158 | boot gives a valid state with one active thread |
| `Kernel.Machine.AddToList` | KernelLand/Kernel/threads.c:602-610 | the thread is appended and every list stays linked |
| `Kernel.Machine.DelFromQueue` | KernelLand/Kernel/threads.c:573-600 | the thread is removed if and only if it was on the list, and nothing else changes |
| `Kernel.Machine.AddActive` | KernelLand/Kernel/threads.c:972-1034 | the thread becomes active and joins its run queue unless it is current |
| `Kernel.Machine.IntSleep` | KernelLand/Kernel/threads.c:780-816 | the current thread is uncounted, marked and appended to the wait list |
| `Kernel.Machine.SleepOffList` | KernelLand/Kernel/threads.c:800-803 | an event sleeper points to itself, which disturbs no list |
| `Kernel.Machine.GetRunnable` | KernelLand/Kernel/threads.c:1450-1471 | the head of the best non-empty run queue is taken off, or NULL returned if all are empty |
| `Kernel.Machine.GetNextToRun` | KernelLand/Kernel/threads.c:1499-1584 | with switching disabled the old thread is returned; otherwise NULL if and only if no thread is active, and else the thread that the state machine chooses |
| `Kernel.Machine.Reschedule` | KernelLand/Kernel/arch/x86/proc.c:778-848 | the chosen thread becomes current, or nothing changes |
| `Kernel.Machine.Start` | KernelLand/Kernel/threads.c:972-1034 | a new thread becomes schedulable |
| `Kernel.Machine.MutexAcquire` | KernelLand/Kernel/mutex.c:23-53 | acquiring takes the pointers and fields to those of the state machine: the caller is owner, or asleep at the end of the line |
| `Kernel.Machine.MutexRelease` | KernelLand/Kernel/mutex.c:56-81 | releasing takes the pointers and fields to those of the state machine: the first waiter is owner and awake, or the mutex is free |
| `Kernel.Machine.SemaphoreWait` | KernelLand/Kernel/semaphore.c:31-63 | waiting takes the pointers and fields to those of the state machine; with items there it takes the number asked for, or all if there are no more or it asked for none, and otherwise it waits with its request noted |
| `Kernel.Machine.ServeWaiters` | KernelLand/Kernel/semaphore.c:144-183 | the loop serves waiters until items or waiters run out |
| `Kernel.Machine.SemaphoreSignal` | KernelLand/Kernel/semaphore.c:111-187 | signalling any amount takes the pointers and fields to those of the state machine; the invariant is kept for amounts that are not negative |
| `Kernel.Machine.ForceWake` | KernelLand/Kernel/semaphore.c:189-217 | a waiter is unlinked from any position and woken with nothing |
| `Kernel.Machine.Sleep` | KernelLand/Kernel/threads.c:822-850 | the current thread sleeps unless it has a message |
| `Kernel.Machine.Wake` | KernelLand/Kernel/threads.c:859-944 | a sleeper or semaphore waiter is unlinked and woken; other threads are left alone |
| `Kernel.Machine.PostEvent` | KernelLand/Kernel/events.c:14-54 | the event is pending, and the thread is woken if it waits for it or a timer ends its semaphore wait |
| `Kernel.Machine.ClearEvent` | KernelLand/Kernel/events.c:59-62 | exactly the events of the mask are no longer pending for the current thread |
| `Kernel.Machine.WaitEvents` | KernelLand/Kernel/events.c:67-102 | the pending events of the mask are returned and are the only ones consumed, or the thread sleeps and none is |
| `Kernel.Machine.GetWork` | KernelLand/Kernel/workqueue.c:23-43 | the first item is returned, or the thread sleeps in line |
| `Kernel.Machine.AddWork` | KernelLand/Kernel/workqueue.c:45-66 | the item is appended and the first sleeper woken |
| `Mailbox.OthersSpare` | KernelLand/Kernel/events.c:14-62 | whatever other threads and interrupts do, a thread's pending events are not lost and it is not put to sleep on one |
| `Mailbox.StepKeeps` | KernelLand/Kernel/messages.c:43-146 | every step keeps the invariant that a message in the inbox is announced, about to be announced or about to be taken, unless the receiver goes back to waiting after a mere look although messages are there, nothing is left to post and the event is not pending |
| `Mailbox.NoLostMessage` | KernelLand/Kernel/messages.c:43-146 | in every run without such a look, once all sends have posted, a receiver asleep in its wait has an empty inbox; in every run messages are received in the order sent |
| `Mailbox.LookLoses` | KernelLand/Kernel/messages.c:103-121 | going back to waiting after asking for the length only, or with an invalid buffer, puts the receiver to sleep on a non-empty inbox that nothing announces if and only if messages are there, nothing is left to post and the event is not pending |
| `Mailbox.LostMessage` | KernelLand/Kernel/messages.c:43-121 | it happens from every boot state: a message is sent, the wait consumes the event, the receiver only looks and waits again |
| `Mailbox.RunExtends` | KernelLand/Kernel/messages.c:43-146 | every step that is enabled extends every run |
| `Inbox.Mailbox.SendMessage` | KernelLand/Kernel/messages.c:23-75 | a copy is appended unless the arguments are invalid or the thread is dead, in which case nothing changes |
| `Inbox.Mailbox.GetMessage` | KernelLand/Kernel/messages.c:85-152 | the first message is taken, as much as fits is copied, and the event is marked again if more are left; with no buffer or an invalid one nothing is taken |
| `Timers.ScheduleKeeps` | KernelLand/Kernel/time.c:119-157 | inserting before the first timer that expires strictly later keeps the list sorted with ties in scheduling order |
| `Timers.UnlinkKeeps` | KernelLand/Kernel/time.c:162-180 | unlinking keeps the invariant |
| `Timers.CallTimersKeeps` | KernelLand/Kernel/time.c:75-102 | a tick, which reads the clock in every round, keeps the invariant and leaves no due timer at the head |
| `Timers.TickTakesDue` | KernelLand/Kernel/time.c:75-102 | a tick takes exactly the timers off the list that are over their deadlines when it reads the clock last |
| `Timers.TickComplete` | KernelLand/Kernel/time.c:75-102 | after a tick no timer on the list is over its deadline by the clock read last |
| `Timers.CallKeeps` | KernelLand/Kernel/time.c:46-69 | calling back keeps the invariant |
| `Timers.OnePlace` | KernelLand/Kernel/time.c:41-188 | a timer is active if and only if it is on the list, queued, in hand or being removed, and never in two of these |
| `TimerEffects.ScheduleExact` | KernelLand/Kernel/time.c:119-157 | scheduling an inactive timer puts it on the list with the deadline asked for and moves no other; scheduling an active one does nothing |
| `TimerEffects.UnlinkExact` | KernelLand/Kernel/time.c:162-188 | removing a timer that is on the list takes it off, cancels its scheduling and keeps the order of the others; removing any other does nothing |
| `TimerEffects.UnmarkExact` | KernelLand/Kernel/time.c:182-184 | then the timer is inactive and in no place |
| `TimerEffects.ExpireExact` | KernelLand/Kernel/time.c:83-98 | an overdue timer with a callback goes to the end of the callback queue and stays active; one without has fired and is inactive |
| `TimerEffects.TickWhere` | KernelLand/Kernel/time.c:75-102 | every timer that a tick takes off the list is queued for its callback, or has fired if it has none |
| `TimerEffects.CallExact` | KernelLand/Kernel/time.c:46-69 | the callback thread takes the timer that was queued first, marks just that one inactive and calls it |
| `Timers.RunValid` | KernelLand/Kernel/time.c:41-188 | in every state of every run the list is sorted, every timer is in its one place, and every scheduling is open, cancelled or fired, just once |
| `Timers.RunExtends` | KernelLand/Kernel/time.c:41-188 | every step that is enabled extends every run |
| `Timers.RunKept` | KernelLand/Kernel/time.c:119-157 | in every state of every run, active timers hold and fired timers had the deadline that their scheduling step set: its time and the span asked for |
| `Timers.FiresOnceAndLate` | KernelLand/Kernel/time.c:41-188 | a timer fires only after the time of its scheduling and the span asked for have gone by, and at most once for each scheduling |
| `TimerEffects.RemovedNeverFires` | KernelLand/Kernel/time.c:162-188 | over every run a scheduling whose timer is removed while it is on the list never fires |
| `TimerLists.TimerSystem.ScheduleTimer` | KernelLand/Kernel/time.c:119-157 | the pointers become those of the state after scheduling; an active timer is left alone |
| `TimerLists.TimerSystem.UnlinkTimer` | KernelLand/Kernel/time.c:162-180 | the timer is unlinked if it is on the list |
| `TimerLists.TimerSystem.UnmarkTimer` | KernelLand/Kernel/time.c:182-184 | an unlinked timer is marked inactive |
| `TimerLists.TimerSystem.CallTimers` | KernelLand/Kernel/time.c:75-102 | the loop reads the clock in every round and expires timers until the first is not due |
| `TimerLists.TimerSystem.AddWork` | KernelLand/Kernel/workqueue.c:45-55 | the item is linked in at the end through the same pointer |
| `TimerLists.TimerSystem.TakeTimer` | KernelLand/Kernel/workqueue.c:23-37 | the first item is unlinked, or there is none |
| `TimerLists.TimerSystem.CallTimer` | KernelLand/Kernel/time.c:46-69 | the timer is marked inactive and fires |
| `SyscallWire.MessageFields` | AcessNative/syscalls.h:30-44 | what a message says of itself can be read back from its bytes, whatever follows |
| `SyscallWire.ParamAt` | AcessNative/syscalls.h:17-44 | where the type, the flags and the length of each parameter are in the bytes of a message, and which bits the flags are |
| `SyscallClient.SizeRequest` | AcessNative/ld-acess_src/syscalls.c:181-204 | the sizing pass computes the parameter count and the lengths of request and reply, or refuses the format |
| `SyscallClient.ReadEntryOk` | AcessNative/ld-acess_src/syscalls.c:36-150 | an entry has as many bytes as its parameter block says |
| `SyscallFormat.ParseExact` | AcessNative/ld-acess_src/syscalls.c:36-150 | a format parses if and only if it does not end with spaces and, without spaces, is a sequence of pairs of direction and type that describe the arguments |
| `SyscallFormat.ParseMeans` | AcessNative/ld-acess_src/syscalls.c:51-57 | the k-th item is what the k-th pair of characters says: returned if and only if the direction is < or ?, left out and zeroed if and only if it is < |
| `SyscallFormat.RefusedExactly` | AcessNative/ld-acess_src/syscalls.c:64-146 | a format is refused if and only if pairs that describe their arguments are followed by an unknown type, or by a number or string that would come back |
| `SyscallClient.FillRequest` | AcessNative/ld-acess_src/syscalls.c:206-239 | the fill pass agrees with the sizing pass: it writes exactly the request, within a buffer that also fits the reply, and notes the returned buffers |
| `SyscallServer.BufferSize` | AcessNative/acesskernel_src/server.c:323-333 | the loop computes the size of a request from its parameter blocks |
| `SyscallServer.HandleRx` | AcessNative/acesskernel_src/server.c:278-358 | one receive takes a whole request off the stream, in pieces of any size, or gives up after a short or oversized header |
| `SyscallServer.FrameSync` | AcessNative/acesskernel_src/server.c:301-333 | a request is cut off the stream exactly at its end if and only if it has at most six parameters; otherwise only its header is |
| `SyscallServer.StreamSync` | AcessNative/acesskernel_src/server.c:278-358 | requests sent one after the other are received one by one, each with exactly its bytes |
| `SyscallServer.RebuildArguments` | AcessNative/acesskernel_src/syscalls.c:321-429 | the loop over parameters and data builds the argument list, or reports an unknown type |
| `SyscallServer.ParseMadeFrom` | AcessNative/ld-acess_src/syscalls.c:36-150 | every item comes from its argument in the way its format entry says |
| `SyscallServer.RebuildMeant` | AcessNative/acesskernel_src/syscalls.c:365-429 | the handler sees the client's arguments in order, zeroed buffers for `<d`, and NULL for empty ones |
| `SyscallReply.BuildReply` | AcessNative/acesskernel_src/syscalls.c:438-484 | the reply holds the result, the error number and every returned buffer, in order |
| `SyscallReply.ReplyLength` | AcessNative/acesskernel_src/syscalls.c:438-445 | its length is the one that the client computed |
| `SyscallReply.ReplyStarts` | AcessNative/acesskernel_src/syscalls.c:447-465 | the reply starts with the result, with its sign in 64 bits, and the error number |
| `SyscallReply.UnpackReply` | AcessNative/ld-acess_src/syscalls.c:247-282 | the client checks the fixed values and the count and copies each buffer to its place |
| `SyscallReply.UnpackAborts` | AcessNative/ld-acess_src/syscalls.c:247-282 | a reply is accepted if and only if it starts with these two, has as many more values as are expected, and all of them are data |
| `SyscallReply.UnpackBack` | AcessNative/ld-acess_src/syscalls.c:262-282 | unpacking what the server packed puts every buffer back where it belongs |
| `SyscallReply.RequestArrives` | AcessNative/ld-acess_src/syscalls.c:165-239 | for every accepted format and argument list the server takes off the stream exactly the bytes the client computed and sent, and the handler sees numbers, strings and the buffers of > and ? as they are and zeros for a buffer of < |
| `SyscallReply.ReplyArrives` | AcessNative/acesskernel_src/syscalls.c:438-484 | the reply has the length the client expects; after it the buffers of < and ? hold what the handler left, all other arguments are untouched, and the result has its sign in 64 bits |
| `RunLength.RoundTrip` | Tools/img2sif.c:164-275 | decoding gives back every sequence of blocks, for every minimum run length, and leaves what follows |
| `RunLength.CutShort` | Tools/img2sif.c:217-238 | a verbatim packet that is cut short is followed at once by a run |
| `RunLength.Bound` | Tools/img2sif.c:201-271 | if the minimum run length times the block size is at least two, n blocks take at most their own size and one byte for every 127 blocks or part of them |
| `RunLength.BoundExactly` | Tools/img2sif.c:201-271 | for every minimum run length and every block size from one up, that bound holds for all inputs if and only if their product is at least two |
| `RunLength.BoundFails` | Tools/img2sif.c:201-271 | with a minimum run of one and one-byte blocks, eight blocks take ten bytes |
| `RunLengthEncoder.ScanRun` | Tools/img2sif.c:206-212 | the scan finds the length of the run, at most 127 |
| `RunLengthEncoder.ScanVerbatim` | Tools/img2sif.c:216-238 | the scan finds how many blocks to take verbatim |
| `RunLengthEncoder.Encode17` | Tools/img2sif.c:184-275 | refused arguments give -1; otherwise the counting pass and the writing pass return the same length, and the writing pass writes exactly the code |
| `RunLengthEncoder.CompressRLE1x32` | Tools/img2sif.c:150-153 | whole pixels, with the same two passes |
| `RunLengthEncoder.CompressRLE4x8` | Tools/img2sif.c:154-162 | four channels one behind the other, with the same two passes |
| `RunLengthEncoder.RoundTrip1x32` | Tools/img2sif.c:150-153 | the stream decodes to the pixels and is within its bound |
| `RunLengthEncoder.RoundTrip4x8` | Tools/img2sif.c:154-162 | the four streams decode to the pixels and are within their bound |
| `ImageLoader.LoadPixels` | Usermode/Libraries/libimage_sif.so_src/main.c:118-172 | the loop fills the image in place with the blocks that come out of the stream, and leaves the rest white where the stream ends early |
| `ImageLoader.LoadDecodes` | Usermode/Libraries/libimage_sif.so_src/main.c:134-168 | what the format decodes, these loops load, and they stop at the same place |
| `LoaderCuts.CodeCut` | Usermode/Libraries/libimage_sif.so_src/main.c:138-168 | however the code of some blocks is cut, the first blocks come out, all of them if and only if the loader says so, and at least one for every size + 1 bytes |
| `LoaderCuts.ImageCut` | Usermode/Libraries/libimage_sif.so_src/main.c:118-172 | an image whose stream is cut short shows the right pixels first and is white behind them |
| `ChannelLoader.LoadChannels` | Usermode/Libraries/libimage_sif.so_src/main.c:174-205 | the loops fill the image in place, channel by channel with samples one pixel apart, and leave the rest white where the stream ends early |
| `ChannelLoader.LoadChannel` | Usermode/Libraries/libimage_sif.so_src/main.c:178-203 | one channel fills exactly its own samples |
| `ChannelLoader.LoadsBack1x32` | Tools/img2sif.c:150-153 | an encoded single stream loads as the very bytes of the pixels that were encoded, whatever follows in the file |
| `ChannelLoader.LoadsBack4x8` | Tools/img2sif.c:154-162 | and so do four encoded channels |
| `MemoryMap.SplitBlock` | KernelLand/Kernel/pmemmap.c:25-50 | an entry becomes two; without room it is cut off and its rest is lost |
| `MemoryMap.SplitMeaning` | KernelLand/Kernel/pmemmap.c:25-50 | splitting changes the meaning of no address |
| `MemoryMap.CompactMap` | KernelLand/Kernel/pmemmap.c:52-76 | the loop joins neighbours in place |
| `MemoryMap.CompactKeeps` | KernelLand/Kernel/pmemmap.c:52-76 | compacting keeps the meaning of every address and the order, and leaves no neighbours that could be joined |
| `MapMeaning.CompactMeans` | KernelLand/Kernel/pmemmap.c:52-76 | in a compacted map no two neighbours touch and have the same type and domain |
| `MapMeaning.RoundMeans` | KernelLand/Kernel/pmemmap.c:132-133 | a base is rounded down to its page and a size up to whole pages |
| `MapMeaning.MarkableMeans` | KernelLand/Kernel/pmemmap.c:136-178 | on every ordered map, a range that does not wrap is marked if and only if one entry holds it up to its very end and there is room for the pieces |
| `MemoryMap.SortMap` | KernelLand/Kernel/pmemmap.c:89-110 | the selection sort sorts by start and loses no entry; without overlaps it keeps the meaning of every address |
| `MemoryMap.ValidateMap` | KernelLand/Kernel/pmemmap.c:78-125 | the result is the compacted form of a sorted permutation; a map without overlaps comes out ordered and compact with the same meaning |
| `MemoryMap.MarkRangeUsed` | KernelLand/Kernel/pmemmap.c:128-194 | if the rounded range lies in one entry and there is room for the pieces, it becomes used, as far as the entry reaches, and nothing else changes; otherwise no address changes its meaning; a range that does not wrap ends up used as requested if and only if it is empty, the odd ends of base and size fit into one page, or what sticks out was used before |
| `MemoryMap.MarkExact` | KernelLand/Kernel/pmemmap.c:180-183 | marking an entry that is the range changes the type of exactly its addresses |
| `MemoryMap.ExtentExact` | KernelLand/Kernel/pmemmap.c:156 | all of the range is marked if and only if its end does not exceed 64 bits |
| `MemoryMap.ExtentFails` | KernelLand/Kernel/pmemmap.c:156 | it can exceed them: a range up to the top of the address space is taken for one within the first entry and marked only up to the end of that |
| `MemoryMap.TopEntryUnmarked` | KernelLand/Kernel/pmemmap.c:138-156 | a range in an entry that ends at or behind the top of the address space is never marked, as the computed end wraps |
| `MemoryMap.RoundedCovers` | KernelLand/Kernel/pmemmap.c:132-133 | the rounded range covers the requested one if and only if the base starts a page, or the odd ends of base and size are there and fit into one page |
| `MemoryMap.MarkCovers` | KernelLand/Kernel/pmemmap.c:132-133 | after marking, the requested range is used if and only if it is empty, the rounding covers it, or what sticks out was used before |
| `MemoryMap.MarkMisses` | KernelLand/Kernel/pmemmap.c:128-194 | marking a page from the middle of a page on leaves its second half free |
| `BlockDevice.ReadBlock` | KernelLand/Kernel/drvutil_disk.c:13-83 | the number returned is how many of the first bytes are those of the disk: as many as lie in the blocks that the callbacks delivered, and all of them exactly when no callback stops short |
| `BlockDevice.WriteBlock` | KernelLand/Kernel/drvutil_disk.c:85-171 | exactly the first bytes of the buffer are written and no other byte changes: as many as lie in the blocks that the callbacks wrote, and all of them exactly when no callback stops short; the number returned is right unless a callback stops short and the start is aligned, when it is one block too high |
| `BlockDevice.WriteCountWrong` | KernelLand/Kernel/drvutil_disk.c:130-146 | two blocks written at the start of a disk of one block: the number returned is one block too high |
| `BlockDevice.WritePart` | KernelLand/Kernel/drvutil_disk.c:104-117 | reading, modifying and writing back a block changes exactly the part, or nothing; it succeeds exactly when neither callback stops short |
| `BlockDevice.PatchBlock` | KernelLand/Kernel/drvutil_disk.c:110-112 | a patched block written back is the disk with only the part changed |
| `Checksum.IPChecksum` | Tools/NetTest_Runner/ip.c:26-50 | the loops compute the complement of the one's-complement sum, exactly up to 65537 words |
| `Checksum.NoOverflow` | Tools/NetTest_Runner/ip.c:31-38 | the 32-bit sum of w words never overflows if and only if w is at most 65537 |
| `Checksum.FoldCarry` | Tools/NetTest_Runner/ip.c:40-41 | one round of adding the carries keeps the one's-complement value |
| `Checksum.Chain` | Tools/NetTest_Runner/ip.c:26-50 | continuing over a second piece equals one pass over both if and only if the first piece has an even length, or the bytes of the second at even and at odd positions sum to the same modulo 257 |
| `Checksum.ChainsAlways` | Tools/NetTest_Runner/ip.c:26-50 | a piece can come before every other, for every start value, if and only if its length is even |
| `Checksum.ChainOddFails` | Tools/NetTest_Runner/ip.c:37-38 | two pieces of one byte each that do not chain |
| `Checksum.Verifies` | Tools/NetTest_Runner/ip.c:105 | a stored checksum verifies to 0 if and only if it is the computed one, or the other zero in place of 0 |
| `Packets.SendIp` | Tools/NetTest_Runner/ip.c:67-81 | the header that is built verifies to 0 |
| `Packets.IpFields` | Tools/NetTest_Runner/ip.c:69-79 | the bytes of the header: version and size, length, no fragment, hops, protocol and addresses |
| `Packets.IpRest` | Tools/NetTest_Runner/ip.c:71-81 | services and identification are 0, and the checksum is stored behind the protocol |
| `Packets.IpSum` | Tools/NetTest_Runner/ip.c:81 | the words of a header that is sent add up to a positive multiple of 65535 |
| `Packets.CheckIpMeans` | Tools/NetTest_Runner/ip.c:102-118 | a packet is accepted if and only if its bytes say version 4, add up to such a multiple, announce a length above that of the header and within the packet, no fragment, more than one hop, and the protocol and addresses expected |
| `Packets.IpAccepted` | Tools/NetTest_Runner/ip.c:95-119 | a packet that was built is accepted with as much of its payload as its 16-bit length announces, unless that is nothing |
| `Packets.IpRoundTrip` | Tools/NetTest_Runner/ip.c:95-119 | the check gives back the payload if and only if it has between 1 and 65515 bytes |
| `Packets.ChainedOnce` | Tools/NetTest_Runner/tcp.c:63-66 | the chained checksum is the one over pseudo-header, header and data at once |
| `Packets.PseudoLayout` | Tools/NetTest_Runner/tcp.c:25-30 | the pseudo-header is both addresses, a zero, 6 and the length, byte by byte |
| `Packets.TcpLayout` | Tools/NetTest_Runner/tcp.c:52-67 | the header is ports, numbers, data offset, flags, window, checksum and a zero urgent pointer, byte by byte |
| `Packets.SendTcp` | Tools/NetTest_Runner/tcp.c:47-72 | the segment has the header fields and the data; up to 65537 words of data it carries the chained checksum and verifies to 0 |
| `Packets.TcpRoundTrip` | Tools/NetTest_Runner/tcp.c:93-125 | sent in an IP packet, the data come out of the receiver's checks if and only if the packet has at most 65535 bytes and ports, flags and numbers are those that the receiver compares |
| `Packets.TcpVerifies` | Tools/NetTest_Runner/tcp.c:63-67 | the sum over pseudo-header, header with checksum, and data verifies to 0 |
| `Packets.TcpSum` | Tools/NetTest_Runner/tcp.c:63-67 | the words of both addresses, 6, the length, and the words of a segment that is sent add up to a positive multiple of 65535 |
| `Packets.SumRightMeans` | Tools/NetTest_Runner/tcp.c:112-118 | the receiver passes only segments that add up to such a multiple, and all of them but those that store FFFF for 0 |

## Left out

- Heap.KernelHeap.Allocate: requests so close to the 32-bit limit that the size computation wraps are excluded (`HeapLayout.BlockBytesExact` says exactly which), and so are requests of about 784 MiB and more that no block fits, on a machine that has that much memory left, or of less than a page below the limit, as the new end of the heap or the number of pages then wraps.
- Heap.KernelHeap.Extend: calls whose new end does not fit into 32 bits are excluded, unless memory runs out before it is reached; `Heap.NewEndExact` and `Heap.NewEndWraps` say what happens to the end then.
- Heap.KernelHeap.Validate: memory above the address range of the heap is not modelled; a block that would end there counts as refused.
- Heap.KernelHeap.Deallocate: a pointer behind words that happen to look like the header of an allocation is excluded, as nothing but the magic number protects against it.
- Heap.KernelHeap.Reallocate: only the paths that keep the address and do not grow downwards are modelled; growing downwards drops leftover space, and the path that allocates, copies and frees is a sequence of modelled operations.
- Heap watchpoints, statistics and dumps.
- Kernel.Machine.GetWork: items are a sequence here; their pointers are modelled in `TimerLists.TimerSystem`.
- Kernel.Machine.SemaphoreWait: semaphores with an upper limit and blocked signallers are left out; the code for them subtracts where it should add.
- Threads_Kill, Threads_WaitTID, Threads_Delete and changing the priority of a thread that is not active: they take sleeping threads out of order.
- Reader/writer locks: a release can grant a writer while readers remain, so their exclusion does not hold.
- Error numbers, return codes of waking, and log messages.
- More than one CPU, and the lottery and single-queue schedulers.
- Inbox.Mailbox.GetMessage: the copy is the prefix of the message; bytes behind the message that a larger buffer would receive are not modelled.
- TimerLists.TimerSystem.ScheduleTimer: two threads scheduling the same inactive timer at once, between its check and its lock, are not modelled.
- SyscallClient.SizeRequest: formats that end in spaces or in a direction without a type are excluded, as the code then uses a parameter block that it never filled in; so are arguments that do not match the format.
- SyscallServer.HandleRx: the header and the parameter blocks are received whole or not at all; only the data arrives in pieces.
- SyscallReply.RequestArrives: the lengths of the request and of the reply must each fit into a C int, and there are at most six arguments; `SyscallServer.FrameSync` says what happens with more.
- Checking call numbers and dispatching to handlers.
- MemoryMap.CompactMap: ends and lengths are not cut to 64 bits; that matters only for entries that end at or behind the top of the address space.
- MemoryMap.SplitBlock: the code moves one entry more than are live, which can touch one slot behind the array; only the live entries are moved here.
- BlockDevice.WriteBlock: a block that a callback does not report as written is taken to be unchanged.
- Packets.CheckIp: packets shorter than a header, and parts that reach past the end of the packet, give nothing here, where the code reads on; link headers and IPv6 are left out.
- ImageLoader.LoadPixels: streams whose packets hold more than the image has room for are excluded, as the code would write behind the image.
- ChannelLoader.LoadChannels: streams whose channels hold more than the image has room for are excluded in the same way.
- The SIF file header, files in the other byte order, and uncompressed images; the I/O cache, modules, sockets, file systems and drivers.
