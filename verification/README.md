# RT-Thread kernel: verified models

The project models kernel sources of RT-Thread for the WL164001 board (one processor, 32 priorities,
32-bit `long` and `rt_size_t`, 4-byte alignment) and proves what they promise. The table search of
`__rt_ffs`, `memheap.c`, `slab.c` and the ready table for 256 priorities are in the tree too, but not built for this
board; they are modelled as they would be. `dafny verify dfyconfig.toml` checks everything.

Each component comes as a specification on values, the theorems about it, and, where the source
changes memory in place, a class with the source's fields whose methods are proved against the
specification.

| component | specification | theorems | in place |
|---|---|---|---|
| scheduler, threads, tick, mutexes | `KernelSpec`, `KernelBoot` | `KernelTheorems`, `OpenCalls`, `MutexHandOff`, `MutexAccount`, `PriorityInheritance`, `InversionLimits`, `RoundRobin`, `KernelWitnesses` | `KernelCores.KernelCore` |
| ready bitmaps | `Bitmaps`, `ReadyTables` | the same | `KernelCores.KernelCore` |
| message queues | `MessageQueueSpec` | `MessageQueueTheorems`, `MessageQueueOrder`, `MessageQueueResults` | `MessageQueues.MessageQueue` |
| events | `EventSpec` | `EventTheorems` | `Events.EventObject` |
| semaphores | `Semaphores`, over `WaitLists` | the same | `Semaphores.Semaphore` |
| mailboxes | `Mailboxes`, over `WaitLists` | the same | `Mailboxes.Mailbox` |
| memory pools | `MemPools`, over `WaitLists` | the same | `MemPools.MemPool` |
| small heap | `HeapSpec` | `HeapTheorems` | `SmallHeaps.SmallHeap` |
| memheap | `MemHeapSpec` | `MemHeapTheorems` | `MemHeaps.MemHeapObject` |
| pages of the slab heap | `PageRuns` | the same | `PageAllocators.PageAllocator` |
| zones of the slab heap | `SlabSpec` | `SlabTheorems`, `SlabRuns` | `SlabHeaps.SlabHeap` |
| memset, memcpy, memmove | `MemoryRoutines` | the same | the same |
| lists | `RtLists` | the same | `RtLists.Lists` |
| formatted output | `FormatSpec` | `FormatTheorems`, `FormatMeaning` | `Formatters.Formatter` |

`Sequences`, `Arithmetic` and `WaitOrder`, the order of wait lists, hold what several of them use.

How to read the models:

* A step of the kernel or of a message queue, mailbox, semaphore, pool or event is one region that the source runs
  with interrupts disabled. A call that opens them in between is several steps, and anything else may
  happen in between: a waiting call is recorded in its thread, a call of `rt_thread_resume` or `rt_thread_suspend` in
  `Kernel.open`. A timeout and an `rt_schedule` may come at any time. Taken as one step although interrupts are open:
  `rt_tick_increase`, and the assignments of `rt_thread_startup` in front of its `rt_thread_resume`. Runs begin in the
  state that `rt_system_scheduler_start` leaves (`KernelBoot.Boot`).
* A call that has to wait goes on when its `rt_schedule` comes back. That is when its thread was taken off the wait list and
  runs again; or at once, in vain, with the thread on the list, if the scheduler is locked or nothing else is
  ready (`MutexHandOff.BlockedSchedule`). Both are steps of all the models.
* A lower number is a more urgent priority. `Tcb.base` is the one field the source does not have: the
  priority the application last gave the thread.
* `mem.c` and `memheap.c` count in words of 4 bytes, the alignment unit. Heap calls run one after the other. The
  source holds the heap's semaphore for most of a call only: `rt_realloc` of `mem.c` and of `memheap.c` lets it go before
  it allocates, and `rt_malloc` of `slab.c` around `rt_page_alloc`. Calls that interleave there are not modelled.
* Bit operations on the ready bitmap are written as arithmetic on the value of the word; event words
  are sets of bits.
* Sizes that wrap in 32 bits wrap in the model (`AlignWords`, `OneLess`, `Magnitude`).

What the proofs found out about the code, each with its exact condition:

* `rt_thread_resume` tests the state of the thread, unlinks it and inserts it with interrupts open in between. The ready lists stay
  in order if and only if no such call finds its thread made ready, or waiting, since its last region
  (`StepKeepsExactly`, `RunKeepsExactly`). Two overlapping calls on a thread put it into its list twice (`TwoAboutToInsert`, `InsertedTwice`).
  It is enough that each thread is resumed by one caller at a time, and only while it waits for nothing and has
  no timer running (`CarefulIsUndisturbed`).
* In such runs every contended take of a mutex is waiting, owner, or timed out, in every state, if and only if the run
  is orderly (`StepTakeExactly`, `RunTakeExactly`). Two kinds of steps are not. `rt_thread_resume` and `rt_thread_suspend` take
  any thread off any list; a waiter that this happens to has no error and no mutex, and its take returns `RT_EOK` once it
  runs (`StrayResume`). And a take that comes back in vain returns `RT_EOK` there and then (`ReturnInVain`, `TakeReturns`).
* In the same two cases a semaphore take succeeds without a token (`StepBalances`, `VainTakeSucceeds`), and a receive of
  an event reports bits that were never set (`StepHonest`, `StepConservesExactly`). Message queues, mailboxes and pools
  try again in a loop; one that does so in vain leaves its node on the list or links it in a second time, and
  nothing else puts their lists and wakeups out of order (`StepInvExactly`). Slots, blocks and the order of messages survive even that
  (`StepSlots`, `RunMatches`, `PoolConserves`).
* Priority inheritance is not passed along a chain of owners, a release restores one recorded
  priority whatever else is still held, and a hand-over lends the new owner nothing. `StepExactly`
  says for every step exactly when no owner ends up less urgent than one of its waiters.
* In `rt_realloc` of the small heap, cutting a block keeps the lowest-free pointer lowest only in the cases
  `ShrinkInv` names; otherwise a later request can fail although there is room (`ShrinkHidesFreeBlock`).
* A request close to the top of the 32-bit range wraps in the size rounding and is served with too
  little (`RequestCovered`, `WrappedRequest`).
  `rt_realloc` of `mem.c` with such a size frees the block (`ReallocFreesExactly`).
* `rt_memheap_alloc` refuses a request for exactly the last available word (`FailsExactly`, `LastWordRefused`).
* `rt_memheap_realloc` with a size within twelve bytes of the top of the range grows a block over whatever lies behind it, if
  that begins with a free block (`ReallocExactly`, `ReallocBreaksHeap`).
* The slab heap promises in its notes that all power-of-two requests are aligned to their size. That holds up to
  a page (`MallocAligned`); above, it depends on the page the heap begins at and on where in it the zone or page run
  starts, for large requests the lowest free stretch (`AlignedExactly`, `LargeAlignedExactly`, `NotAlignedBeyondAPage`).
* `rt_memcpy` delivers the old source for every overlap but a target that starts inside the source, where it
  does so only for bytes that repeat at the distance of the two (`ForwardCopiesExactly`).
* The tokens of a semaphore add up exactly until one of those two cases, a wrap of the 16-bit counter, or a reset that
  changes the value (`StepBalances`, `RunBalancesExactly`).
* Octal output is made of hexadecimal digits and is right only for numbers below 8 (`OctalExactly`). A
  precision of zero removes the digits of a number, even of one that is not zero (`NumberWidth`), and
  does not shorten a string (`StringExactly`); both differ from the C standard.

## Model

| member | source | states |
|---|---|---|
| `KernelTheorems.StepKeeps` | WL164001/rt-thread/src/scheduler.c:418-835 | Every step, by a thread or an interrupt, keeps, unless it goes on with a disturbed call: a group bit is set exactly when its list is not empty; each ready thread is once in the list of its own priority and nowhere else; only the current thread runs and it is in no list; a mutex is free, or owned and held, and only an owned one has waiters, which are suspended and wait in one list only. |
| `KernelTheorems.StepKeepsExactly` | WL164001/rt-thread/src/thread.c:764-799 | A step keeps this if and only if it is not the unlinking of a thread that has become ready, or the insertion of one that is ready or waits. |
| `KernelTheorems.RunKeeps` | WL164001/rt-thread/src/scheduler.c:418-965 | The same over every run of startup, suspend, resume, timeout, sleep, exit, change of priority, tick, lock, unlock, take and release, in any order and interleaved between all their regions. |
| `KernelTheorems.RunKeepsExactly` | WL164001/rt-thread/src/thread.c:764-799 | A run has it in every state if and only if no open call of rt_thread_resume is disturbed. |
| `KernelTheorems.WithdrawKeeps` | WL164001/rt-thread/src/thread.c:736-750 | The region of rt_thread_suspend keeps it whatever became of the thread since the test. |
| `OpenCalls.TestsExactly` | WL164001/rt-thread/src/thread.c:720-780 | The tests of rt_thread_resume and rt_thread_suspend let the call go on if and only if the thread is suspended, or is ready or runs. |
| `OpenCalls.StepParked` | WL164001/rt-thread/src/thread.c:764-799 | A suspended thread that waits for nothing and has no timer running stays so until it is inserted: no step of any other kind changes that. |
| `OpenCalls.CarefulIsUndisturbed` | WL164001/rt-thread/src/thread.c:764-799 | If rt_thread_resume is used on such threads only, and on no thread by two callers at a time, no call is ever disturbed, and every run keeps the invariant. |
| `OpenCalls.TwoAboutToInsert` | WL164001/rt-thread/src/thread.c:775-794 | Two callers that both test such a thread and then both unlink it are both about to insert it. |
| `OpenCalls.InsertedTwice` | WL164001/rt-thread/src/scheduler.c:708-737 | Then the two insertions break the invariant. |
| `KernelBoot.BootInv` | WL164001/rt-thread/src/scheduler.c:246-268 | The state that rt_system_scheduler_start leaves, with any threads started in any order and all mutexes free, satisfies every invariant below, no call is open, and the most urgent thread runs. |
| `KernelBoot.BootRunKeeps` | WL164001/rt-thread/src/scheduler.c:246-268 | So a run from there keeps the invariant throughout if and only if it is undisturbed, which care ensures; and its contended takes are then in order throughout if and only if it is orderly. |
| `KernelBoot.BootBalances` | WL164001/rt-thread/src/ipc.c:654-870 | And `hold` is then what the takes and releases since the start have returned. |
| `KernelBoot.BootBoundedInversion` | WL164001/rt-thread/src/ipc.c:692-769 | And every undisturbed run from there that keeps to the locking discipline bounds priority inversion. |
| `KernelTheorems.ScheduleRunsMostUrgent` | WL164001/rt-thread/src/scheduler.c:418-538 | After an unlocked rt_schedule no ready thread is more urgent than the current one, and the current one runs unless nothing at all is ready. |
| `KernelTheorems.ScheduleTurns` | WL164001/rt-thread/src/scheduler.c:436-520 | Scheduling turns ready threads into running ones and back and changes nothing else of any thread, no mutex and not the lock. |
| `KernelTheorems.ScheduleExactly` | WL164001/rt-thread/src/scheduler.c:436-460 | rt_schedule leaves the current thread if and only if it is unlocked and some ready thread is more urgent than a current one that can run, or as urgent and the current one yields; it goes to the first thread of a list. |
| `KernelTheorems.SwitchGoes` | WL164001/rt-thread/src/scheduler.c:444-471 | A running thread that is left is last in its list and no longer yields; otherwise nobody changes places. |
| `KernelTheorems.EnterExit` | WL164001/rt-thread/src/scheduler.c:878-965 | Locks of the scheduler nest: under a lock rt_schedule does nothing, and only the outermost unlock schedules. |
| `KernelTheorems.TickCounts` | WL164001/rt-thread/src/clock.c:84-86 | A tick takes one off the slice; from zero the 32-bit count goes round to the largest. |
| `KernelTheorems.HighestSpec` | WL164001/rt-thread/src/scheduler.c:162-184 | The search finds the smallest set bit, or reports that there is none. |
| `KernelTheorems.WakeKeeps` | WL164001/rt-thread/src/thread.c:764-799 | Taking a suspended thread off its wait list and making it ready keeps the invariant. |
| `KernelTheorems.WakeGoes` | WL164001/rt-thread/src/thread.c:764-799 | It ends up last in the list of its priority and in no other, or runs if it is still the current thread, and waits nowhere any more. |
| `KernelTheorems.TimeoutGoes` | WL164001/rt-thread/src/thread.c:807-835 | A thread that times out has the timeout error and no timer, waits nowhere and is last in the list of its priority. |
| `KernelTheorems.StartupGoes` | WL164001/rt-thread/src/thread.c:289-321 | A thread that starts is ready, at its initial priority, and last in that list. |
| `KernelTheorems.SleepGoes` | WL164001/rt-thread/src/thread.c:488-510 | A thread that sleeps is suspended, in no list, and its timer runs. |
| `KernelTheorems.SuspendGoes` | WL164001/rt-thread/src/thread.c:732-748 | A thread that is suspended is in no list, waits for nothing, and has no timer. |
| `KernelTheorems.SuspendIs` | WL164001/rt-thread/src/thread.c:713-750 | With interrupts disabled throughout rt_thread_suspend suspends a thread that is ready or runs, and leaves any other alone. |
| `KernelTheorems.ExitGoes` | WL164001/rt-thread/src/thread.c:80-115 | A thread that exits is closed, in no list, and has no timer. |
| `KernelTheorems.ChangePriorityKeeps` | WL164001/rt-thread/src/thread.c:628-668 | A change of priority keeps the invariant, whatever the thread is doing. |
| `KernelTheorems.ChangePriorityGoes` | WL164001/rt-thread/src/thread.c:628-668 | A ready thread leaves its list and is last in the list of the new priority; a thread that is not ready only gets the number and is in no list. |
| `KernelTheorems.BlockKeeps` | WL164001/rt-thread/src/ipc.c:715-758 | Boosting the owner, suspending the taker and queueing it keep the invariant; the taker is in no other list. |
| `KernelTheorems.HandOverIs` | WL164001/rt-thread/src/ipc.c:842-862 | Giving the mutex to the first waiter and taking that waiter off its list are the same in either order. |
| `KernelTheorems.GiveUpKeeps` | WL164001/rt-thread/src/ipc.c:832-870 | The last release keeps the invariant, whether the mutex is handed over or becomes free. |
| `MutexHandOff.StepTake` | WL164001/rt-thread/src/ipc.c:654-782 | Every orderly step keeps each thread inside a contended take in exactly one of three states: still waiting; owner, with its timer stopped and no error; timed out and not owner. |
| `MutexHandOff.StepTakeExactly` | WL164001/rt-thread/src/ipc.c:654-782 | From a state with every contended take in one of the three, an undisturbed step leaves them so if and only if it is orderly: it does not take a waiter off its list from outside, and is not the return of a take whose thread is on the list. |
| `MutexHandOff.RunTake` | WL164001/rt-thread/src/ipc.c:654-870 | The same over every undisturbed and orderly run. |
| `MutexHandOff.RunTakeExactly` | WL164001/rt-thread/src/ipc.c:654-870 | An undisturbed run keeps every contended take in one of the three states throughout if and only if all its steps are orderly. |
| `MutexHandOff.StrayResume` | WL164001/rt-thread/src/thread.c:764-799 | rt_thread_resume or rt_thread_suspend on a waiter leaves it in no list, without an error and without the mutex: its take will return RT_EOK. |
| `MutexHandOff.TakeReturns` | WL164001/rt-thread/src/ipc.c:750-781 | A take that had to wait and comes back off the list returns RT_EOK if its caller is the owner and a timeout otherwise, and the caller runs; one that comes back while its thread is on the list returns RT_EOK, and its caller is not the owner. |
| `MutexHandOff.ReturnInVain` | WL164001/rt-thread/src/ipc.c:747-776 | A take that comes back on the list leaves a thread that waits although it is in no take. |
| `MutexHandOff.BlockedSchedule` | WL164001/rt-thread/src/scheduler.c:418-538 | rt_schedule of a suspended caller switches to another thread if and only if the scheduler is unlocked and some thread is ready, and otherwise does nothing. |
| `MutexHandOff.BlockingNeedsScheduler` | WL164001/rt-thread/src/ipc.c:715-776 | So a take that has to wait gives up the processor if and only if the scheduler is unlocked and some thread is ready; otherwise it comes back with its thread on the list, returns RT_EOK and does not own the mutex. |
| `MutexAccount.TakeOutcome` | WL164001/rt-thread/src/ipc.c:682-746 | A take returns RT_EOK at once if and only if its caller owns the mutex or nobody does, a timeout if and only if another owns it and it must not wait, and waits otherwise. |
| `MutexAccount.ReleaseOutcome` | WL164001/rt-thread/src/ipc.c:812-870 | A release returns RT_EOK if and only if its caller is the owner; any other gets an error and changes no mutex. |
| `MutexAccount.TakeRecords` | WL164001/rt-thread/src/ipc.c:682-709 | A take that succeeds at once leaves the caller owner, with its priority on record if the mutex was free. |
| `MutexAccount.TakeWaits` | WL164001/rt-thread/src/ipc.c:715-746 | A take that has to wait leaves its caller suspended, in no ready list and on the wait list, its timer running if and only if the wait is limited. |
| `MutexAccount.ReleaseLeaves` | WL164001/rt-thread/src/ipc.c:831-870 | The last release puts the recorded priority back; the first waiter becomes the owner, held once, with its priority on record, off the list and ready; without a waiter the mutex is as rt_mutex_init leaves it. A schedule is due if and only if there was a waiter. |
| `MutexAccount.StepBalances` | WL164001/rt-thread/src/ipc.c:682-870 | An account of results: for each thread and mutex, takes that returned RT_EOK less releases that did. A step keeps it equal to `hold` for the owner (a hand-over counts once its take returns) and to nothing for all others, if and only if it is not the return of a take in vain. |
| `MutexAccount.RunBalances` | WL164001/rt-thread/src/ipc.c:682-870 | The same over every undisturbed and orderly run. |
| `MutexAccount.OwnerKeeps` | WL164001/rt-thread/src/ipc.c:829-870 | No step takes a mutex from its owner but the release of the owner that brings its account to nothing, the one that matches its first take; and that one always does. |
| `PriorityInheritance.EnqueueStable` | WL164001/rt-thread/src/ipc.c:95-122 | A PRIO wait list takes a thread behind all that are at least as urgent and in front of all that are strictly less, and nobody else changes places. |
| `PriorityInheritance.EnqueueLast` | WL164001/rt-thread/src/ipc.c:89-93 | A FIFO wait list takes a thread at its end. |
| `PriorityInheritance.EnqueueSorted` | WL164001/rt-thread/src/ipc.c:95-122 | A sorted PRIO wait list stays sorted. |
| `PriorityInheritance.StepInherit` | WL164001/rt-thread/src/ipc.c:692-870 | While threads own at most one mutex and do not wait while owning one, and owners and waiters are not re-prioritised from outside, every step keeps: each owner is at least as urgent as all its waiters, PRIO lists are sorted, the recorded priority is the base of the owner, and who owns nothing is at its base priority. |
| `PriorityInheritance.RunInherit` | WL164001/rt-thread/src/ipc.c:692-870 | The same over every such run that is undisturbed. |
| `PriorityInheritance.BoundedInversion` | WL164001/rt-thread/src/ipc.c:692-769 | At any point of such a run, after an unlocked rt_schedule the running thread is at least as urgent as any waiter whose owner could run instead. |
| `InversionLimits.StepExactly` | WL164001/rt-thread/src/ipc.c:654-870 | Without any discipline: from a state in which no owner is less urgent than one of its waiters, one step keeps that if and only if it is harmless, a condition on the state before the step; only the start of a thread, change of priority, take and release can be harmful. |
| `InversionLimits.TakeExactly` | WL164001/rt-thread/src/ipc.c:720-731 | A contended take is harmless if and only if the owner needs no loan, or does not itself wait for a less urgent owner. |
| `InversionLimits.ReleaseExactly` | WL164001/rt-thread/src/ipc.c:832-862 | A last release is harmless if and only if the restored priority suits the waiters of everything still owned, and the first waiter is at least as urgent as the others. |
| `InversionLimits.ChangeExactly` | WL164001/rt-thread/src/thread.c:628-668 | A change of priority is harmless if and only if it suits both the waiters of what the thread owns and the owners of what it waits for. |
| `KernelWitnesses.ChainedLoanStops` | WL164001/rt-thread/src/ipc.c:720-731 | A state of three threads and two mutexes in which a loan is not passed on to the owner that everyone waits for. |
| `KernelWitnesses.NestedReleaseDropsLoan` | WL164001/rt-thread/src/ipc.c:834-839 | A state in which releasing one of two mutexes takes back the loan the other still needs. |
| `KernelWitnesses.FifoHandOverLendsNothing` | WL164001/rt-thread/src/ipc.c:842-855 | A state in which the next owner of a FIFO mutex is less urgent than a thread it got ahead of. |
| `KernelWitnesses.LockedTakeSucceedsFalsely` | WL164001/rt-thread/src/ipc.c:715-776 | A state with the scheduler locked in which a take returns RT_EOK while another thread owns the mutex. |
| `KernelWitnesses.StrayResumeSucceedsFalsely` | WL164001/rt-thread/src/thread.c:764-799 | A state in which rt_thread_resume takes a waiter off its list, without an error, while another thread owns the mutex. |
| `RoundRobin.CountDown` | WL164001/rt-thread/src/clock.c:84-86 | Within its slice the current thread goes on, one tick less each time. |
| `RoundRobin.EndOfSlice` | WL164001/rt-thread/src/clock.c:84-97 | At the end of its slice the first thread in line runs and the old one queues up last with a full slice. |
| `RoundRobin.ExactWaitingTime` | WL164001/rt-thread/src/clock.c:72-100 | The thread at place i of the current queue first runs after exactly the ticks left to the current thread plus those left to the threads in front of it, and not before. |
| `KernelCores.KernelCore.InsertThread` | WL164001/rt-thread/src/scheduler.c:708-743 | The new state is the specified one; group word and table change in place. |
| `KernelCores.KernelCore.RemoveThread` | WL164001/rt-thread/src/scheduler.c:805-833 | The new state is the specified one; the group bit goes when the list becomes empty. |
| `KernelCores.KernelCore.Schedule` | WL164001/rt-thread/src/scheduler.c:418-538 | rt_schedule searches the group word with __rt_ffs and makes the most urgent ready thread run; the one that ran goes back to its list. |
| `KernelCores.KernelCore.Suspend` | WL164001/rt-thread/src/ipc.c:85 | rt_thread_suspend as rt_ipc_list_suspend calls it, with interrupts disabled: a ready or running thread becomes suspended and leaves its list, its timer stopped; any other is refused. |
| `KernelCores.KernelCore.Resume` | WL164001/rt-thread/src/ipc.c:144 | rt_thread_resume as rt_ipc_list_resume calls it, with interrupts disabled: a suspended thread leaves its wait list for its ready list, its timer stopped; any other is refused. |
| `KernelCores.KernelCore.ResumeTest` | WL164001/rt-thread/src/thread.c:774-780 | The test of rt_thread_resume refuses a thread that is not suspended, and otherwise leaves the call open. |
| `KernelCores.KernelCore.ResumeUnlink` | WL164001/rt-thread/src/thread.c:782-791 | Its first region takes the node out of whatever list it is in and stops the timer. |
| `KernelCores.KernelCore.ResumeInsert` | WL164001/rt-thread/src/thread.c:793-794 | Its second region inserts the thread, whatever its state has become. |
| `KernelCores.KernelCore.SuspendTest` | WL164001/rt-thread/src/thread.c:724-730 | The test of rt_thread_suspend refuses a thread that is neither ready nor running, and otherwise leaves the call open. |
| `KernelCores.KernelCore.SuspendRegion` | WL164001/rt-thread/src/thread.c:732-748 | Its region takes the node out of whatever list it is in, with the group bit, suspends the thread and stops the timer. |
| `KernelCores.KernelCore.Timeout` | WL164001/rt-thread/src/thread.c:807-835 | The thread gets the timeout error, goes from its wait list to its ready list, and the scheduler runs. |
| `KernelCores.KernelCore.Startup` | WL164001/rt-thread/src/thread.c:289-321 | If nothing gets in between, the thread gets its initial priority, goes to the end of that list, and the scheduler runs. |
| `KernelCores.KernelCore.ChangePriority` | WL164001/rt-thread/src/thread.c:628-668 | Both branches: a ready thread is taken out, given the priority and put back; another only gets the priority. |
| `KernelCores.KernelCore.Exit` | WL164001/rt-thread/src/thread.c:80-115 | The thread leaves its list closed, and the scheduler runs. |
| `KernelCores.KernelCore.TickIncrease` | WL164001/rt-thread/src/clock.c:72-97 | One tick less for the current thread; at zero its slice is refilled, it is marked to yield, and the scheduler runs. |
| `KernelCores.KernelCore.ExitCritical` | WL164001/rt-thread/src/scheduler.c:940-965 | One level less, not below zero; the last unlock schedules. |
| `KernelCores.KernelCore.FindPlace` | WL164001/rt-thread/src/ipc.c:88-123 | The scan of the wait list finds the specified place, for FIFO and PRIO. |
| `KernelCores.KernelCore.MutexTake` | WL164001/rt-thread/src/ipc.c:654-746 | rt_mutex_take up to its rt_schedule: counts up for the owner, takes a free mutex, gives up at once, or lends the owner the priority and queues the caller, with the result of the call. |
| `KernelCores.KernelCore.MutexRelease` | WL164001/rt-thread/src/ipc.c:790-874 | rt_mutex_release up to its rt_schedule: refuses others than the owner, counts down, or restores the recorded priority and hands over or frees the mutex; and whether a schedule is due. |
| `Bitmaps.OneBitSet` | WL164001/rt-thread/src/scheduler.c:734-737 | Setting a bit of a word sets that bit and no other. |
| `Bitmaps.OneBitCleared` | WL164001/rt-thread/src/scheduler.c:822-827 | Clearing a bit clears that bit and no other. |
| `Bitmaps.LowOfTable` | WL164001/rt-thread/src/kservice.c:1286-1304 | Every entry of the table but the first is the position of the lowest bit of its index. |
| `Bitmaps.FfsSpec` | WL164001/rt-thread/src/kservice.c:1316-1330 | The byte-wise table search returns one more than the position of the lowest set bit, and zero for zero. |
| `ReadyTables.InsertAgrees` | WL164001/rt-thread/src/scheduler.c:733-737 | Inserting keeps: a table bit is set exactly when its list is not empty, a group bit exactly when its byte is not zero. |
| `ReadyTables.RemoveAgrees` | WL164001/rt-thread/src/scheduler.c:820-831 | Removing keeps the same. |
| `ReadyTables.HighestIsSmallest` | WL164001/rt-thread/src/scheduler.c:167-172 | Group and byte together select the smallest priority with a non-empty list. |
| `ReadyTables.RunSelectsSmallest` | WL164001/rt-thread/src/scheduler.c:162-184 | After any run of insertions and removals from the empty table the selection is that smallest priority, and the group word is zero exactly when all 256 lists are empty. |
| `MessageQueueTheorems.StepSlots` | WL164001/rt-thread/src/ipc.c:1975-2437 | Every step, even one in vain, keeps every slot in exactly one of the free chain, the queue and the hands of one thread, and entry equal to the length of the queue. |
| `MessageQueueTheorems.StepWaits` | WL164001/rt-thread/src/ipc.c:2016-2070 | Every step that is not in vain keeps the wait lists free of repetitions, with only threads that wait there and carry no error. |
| `MessageQueueTheorems.StepServed` | WL164001/rt-thread/src/ipc.c:2079-2437 | Every such step, with stealing, timeouts, stray resumes and reset, keeps: while a receiver waits, at most as many messages are stored as woken receivers have not yet retried; while a sender waits, at most as many slots are free as woken senders have not. |
| `MessageQueueTheorems.StepInvExactly` | WL164001/rt-thread/src/ipc.c:2016-2070 | A step keeps all three if and only if it does not go on with a call whose thread is still on a wait list. |
| `MessageQueueTheorems.RunKeeps` | WL164001/rt-thread/src/ipc.c:1975-2437 | A run of any interleaving has all three in every state if and only if no call goes on in vain. |
| `MessageQueueOrder.StepMatches` | WL164001/rt-thread/src/ipc.c:2079-2361 | Each step is at most one effect on a simple queue of messages: append when a send links, prepend when an urgent one does, pop when a receive unlinks, clear on reset. |
| `MessageQueueOrder.RunMatches` | WL164001/rt-thread/src/ipc.c:1975-2437 | Linearization: any interleaved run, calls in vain included, ends in a state of the simple queue that its effects, taken in order, lead to. |
| `MessageQueueOrder.InitMatches` | WL164001/rt-thread/src/ipc.c:1780-1826 | So from rt_mq_init on every run conserves the slots and is a run of the simple queue, and has wait lists and wakeups in order throughout if and only if no call goes on in vain. |
| `MessageQueueOrder.DeliversMessage` | WL164001/rt-thread/src/ipc.c:2339-2360 | A receive hands over the message it popped, cut to the size asked for; behind a shorter message comes what the slot held before. |
| `MessageQueueResults.StepAnswers` | WL164001/rt-thread/src/ipc.c:1975-2385 | What each call returns, told from the stored messages and from what its caller called with: ERROR at entry if and only if the message is longer than a slot; RT_EFULL if and only if no slot is free and the send is urgent or out of time; a timeout of a receive if and only if no message is stored and it is out of time; after a wait the error given meanwhile, if any; RT_EOK when the message is linked; and the message taken, cut to size, when a receive ends. |
| `MessageQueueResults.RunAnswers` | WL164001/rt-thread/src/ipc.c:1975-2437 | Over every run all results are these, and the sends that return RT_EOK are, one by one, in order and with their messages, the appends and prepends of the simple queue. |
| `MessageQueueResults.InitAnswers` | WL164001/rt-thread/src/ipc.c:1780-1826 | The same from rt_mq_init on. |
| `MessageQueueResults.RunInHand` | WL164001/rt-thread/src/ipc.c:2240-2385 | Every message a receive took is handed over once, or still under way. |
| `MessageQueueResults.LinkWakes` | WL164001/rt-thread/src/ipc.c:2108-2119 | A message that goes in resumes the first receiver and no other, and it is at least as urgent as all that stay. |
| `MessageQueueResults.FreeWakes` | WL164001/rt-thread/src/ipc.c:2363-2376 | A slot that is given back resumes the first sender likewise. |
| `MessageQueueResults.JoinsInOrder` | WL164001/rt-thread/src/ipc.c:88-123 | A call that has to wait keeps its list in order. |
| `MessageQueues.MessageQueue.constructor` | WL164001/rt-thread/src/ipc.c:1780-1826 | rt_mq_init rounds the message size up, divides the pool into slots and chains them all free, the last one first. |
| `MessageQueues.MessageQueue.TrySend` | WL164001/rt-thread/src/ipc.c:2000-2083 | The first region of a send on the linked chains has the specified effect and result, at the place in the wait list that the flag and the priorities say. |
| `MessageQueues.MessageQueue.CopyIn` | WL164001/rt-thread/src/ipc.c:2085-2088 | One byte of the copy has the specified effect. |
| `MessageQueues.MessageQueue.LinkMessage` | WL164001/rt-thread/src/ipc.c:2090-2130 | The second region of a send, at the tail or at the head, has the specified effect; the tail pointer is the last slot of the queue. |
| `MessageQueues.MessageQueue.TryRecv` | WL164001/rt-thread/src/ipc.c:2262-2349 | The first region of a receive has the specified effect and result, likewise. |
| `MessageQueues.MessageQueue.GiveBack` | WL164001/rt-thread/src/ipc.c:2355-2385 | The second region of a receive has the specified effect and hands over what was copied. |
| `MessageQueues.MessageQueue.CopyOut` | WL164001/rt-thread/src/ipc.c:2354-2355 | One byte of the copy of a receive has the specified effect. |
| `MessageQueues.MessageQueue.ResetQueue` | WL164001/rt-thread/src/ipc.c:2405-2437 | rt_mq_control with reset has the specified effect. |
| `EventTheorems.StepLeavesNobody` | WL164001/rt-thread/src/ipc.c:1050-1101 | Every step keeps: no suspended receiver is satisfied by the event set. |
| `EventTheorems.RunLeavesNobody` | WL164001/rt-thread/src/ipc.c:1029-1277 | So in every reachable state no suspended receiver has its AND or OR condition met, despite removal and clearing inside the send loop. |
| `EventTheorems.ScanConserves` | WL164001/rt-thread/src/ipc.c:1055-1101 | Over one send each bit that is set is either still set or was taken by exactly one receiver that clears. |
| `EventTheorems.RunConserves` | WL164001/rt-thread/src/ipc.c:1029-1277 | Over every run in which no receive with CLEAR is deceived, the raises of a bit are the receives with CLEAR that took it, plus what is held, plus what resets wiped out. |
| `EventTheorems.StepConservesExactly` | WL164001/rt-thread/src/ipc.c:1196-1217 | A step accounts for every bit if and only if it is not the stray resume or the return in vain of a receive with CLEAR. |
| `EventTheorems.StepHonest` | WL164001/rt-thread/src/ipc.c:1196-1217 | All bits that receives end with were set if and only if the step is neither a stray resume of a receiver nor a return in vain. |
| `EventTheorems.RunHonestExactly` | WL164001/rt-thread/src/ipc.c:1127-1227 | The same over every run. |
| `EventTheorems.StepSound` | WL164001/rt-thread/src/ipc.c:1175-1203 | The wait list stays one of calls that wait, one for each thread, if and only if no receive returns in vain. |
| `EventTheorems.ScanFits` | WL164001/rt-thread/src/ipc.c:1062-1093 | Every thread a send resumes gets bits that were set and that it waited for: all of them for AND, at least one for OR. |
| `EventTheorems.RecvExactly` | WL164001/rt-thread/src/ipc.c:1150-1198 | A receive is refused if and only if it asks for no bit; gets the bits both have if and only if all it asks for are set (AND) or one is (OR); and otherwise times out or waits as it was told. |
| `EventTheorems.SendExactly` | WL164001/rt-thread/src/ipc.c:1050-1101 | A send resumes each waiter, in order, if and only if at its turn all the bits it asks for are set (AND) or one is (OR), with those bits; the bits at its turn are those left by waiters with CLEAR in front of it. |
| `EventTheorems.LeavesExactly` | WL164001/rt-thread/src/thread.c:807-832 | A timeout takes exactly one thread off the list and changes no bit; a reset leaves no bit set and nobody waiting. |
| `Events.EventObject.EventSend` | WL164001/rt-thread/src/ipc.c:1029-1112 | The loop that removes waiters from the list it walks has the specified effect and resumes the specified threads in order. |
| `Events.EventObject.EventRecv` | WL164001/rt-thread/src/ipc.c:1127-1198 | rt_event_recv up to its rt_schedule has the specified effect and result, at the place in the wait list that the flag and the priorities say. |
| `Events.EventObject.EventReset` | WL164001/rt-thread/src/ipc.c:1249-1272 | Reset empties the set and the list and resumes every waiter, in order, with an error. |
| `HeapTheorems.RunInv` | WL164001/rt-thread/src/mem.c:272-609 | Every run of malloc, realloc and free keeps the blocks tiling the heap with no two free neighbours, lfree a free block or heap_end, and used_mem, which is counted up and down by the extent of a block, the sum of the extents in use; without realloc lfree is the lowest free block throughout. |
| `HeapTheorems.FirstFitExact` | WL164001/rt-thread/src/mem.c:272-387 | On malloc/free runs, for every size: rt_malloc returns the lowest free block that fits, and NULL if and only if the size is zero or none fits, an exact fit at the very end of the heap not counting. |
| `HeapTheorems.RequestCovered` | WL164001/rt-thread/src/mem.c:288-300 | A request that is served is covered by its block if and only if its rounding does not wrap. |
| `HeapTheorems.WrappedRequest` | WL164001/rt-thread/src/mem.c:288-300 | A request of almost four gigabytes that is served with twelve bytes. |
| `HeapTheorems.FreeUndoesMalloc` | WL164001/rt-thread/src/mem.c:546-609 | rt_free(rt_malloc(n)) restores blocks, flags, lfree and used_mem. |
| `HeapTheorems.FreeBlockInv` | WL164001/rt-thread/src/mem.c:572-608 | Releasing a block keeps the invariant and every other block in use, and takes exactly its words from used_mem. |
| `HeapTheorems.ShrinkInv` | WL164001/rt-thread/src/mem.c:471-498 | Cutting a block in place keeps the invariant; lfree stays lowest if and only if it was in front of the block already or was the block behind it. |
| `HeapTheorems.ShrinkHidesFreeBlock` | WL164001/rt-thread/src/mem.c:471-498 | A run after which 36 words are free and a request for four bytes fails. |
| `HeapTheorems.ReallocInv` | WL164001/rt-thread/src/mem.c:421-512 | rt_realloc keeps the invariant and every other block in use, and returns a block long enough, with less to spare than would make a block. |
| `HeapTheorems.ReallocFreesExactly` | WL164001/rt-thread/src/mem.c:427-446 | rt_realloc of a block frees it and returns NULL if and only if the size is zero or its rounding wraps to zero. |
| `HeapTheorems.ReallocExact` | WL164001/rt-thread/src/mem.c:421-512 | rt_realloc of a block returns NULL if and only if the rounded size is zero or more than the heap, or the block can neither stay nor be cut and no free block from lfree on can take it; the same pointer if and only if the block stays or is cut; and otherwise the first block from lfree on that can take it. |
| `HeapTheorems.ReallocOfNothing` | WL164001/rt-thread/src/mem.c:443-446 | Without a block it is as exact as rt_malloc. |
| `HeapTheorems.MovesToLowest` | WL164001/rt-thread/src/mem.c:501-509 | While lfree is the lowest free block a block that moves goes to the lowest that can take it, and stays where it is only if there is none. |
| `HeapTheorems.ReallocGivesBack` | WL164001/rt-thread/src/mem.c:501-509 | The old block is given back if and only if another takes its place, or the rounded size is zero. |
| `HeapTheorems.ReallocOutside` | WL164001/rt-thread/src/mem.c:449-457 | A pointer from outside the heap is handed back unchanged. |
| `HeapTheorems.MaxIsPeak` | WL164001/rt-thread/src/mem.c:350-369 | max_mem is the highest used_mem of any state of the run. |
| `HeapTheorems.ReallocPeak` | WL164001/rt-thread/src/mem.c:501-509 | A realloc that moves counts both blocks for the time it takes. |
| `HeapTheorems.InitWordsExact` | WL164001/rt-thread/src/mem.c:204-225 | The heap takes all whole words that fit between the given addresses beside its two headers, and is refused if and only if these alone do not fit. |
| `SmallHeaps.SmallHeap.constructor` | WL164001/rt-thread/src/mem.c:204-256 | rt_system_heap_init aligns both addresses inwards and writes the headers of one free block and of heap_end. |
| `SmallHeaps.SmallHeap.Allocate` | WL164001/rt-thread/src/mem.c:272-407 | rt_malloc on the words of the heap has the specified effect and result, and changes no payload word of a block in use. |
| `SmallHeaps.SmallHeap.AllocWords` | WL164001/rt-thread/src/mem.c:305-404 | The scan from lfree has the specified effect and result. |
| `SmallHeaps.SmallHeap.AdvanceLfree` | WL164001/rt-thread/src/mem.c:380-387 | lfree moves to the next free block or to heap_end. |
| `SmallHeaps.SmallHeap.PlugHoles` | WL164001/rt-thread/src/mem.c:156-194 | plug_holes merges with free neighbours on both sides and moves lfree with them. |
| `SmallHeaps.SmallHeap.Release` | WL164001/rt-thread/src/mem.c:546-609 | rt_free has the specified effect and changes no payload word of a block that stays in use. |
| `SmallHeaps.SmallHeap.Reallocate` | WL164001/rt-thread/src/mem.c:421-512 | rt_realloc has the specified effect and result, keeps the first min(old, new) words of the payload, and changes no payload word of any other block in use. |
| `MemHeapTheorems.RunInv` | WL164001/rt-thread/src/memheap.c:138-596 | A run of alloc, realloc and free has in every state: the blocks tile the pool with no two free neighbours, the free list holds exactly the unused blocks once each, available_size is the sum of their sizes, and max_used_size at least pool_size - available_size; if and only if no growth test of realloc wraps on a block with a free block behind. |
| `MemHeapTheorems.FailsExactly` | WL164001/rt-thread/src/memheap.c:154-281 | An allocation fails if and only if no free block is long enough, or the request is exactly available_size. |
| `MemHeapTheorems.AllocInv` | WL164001/rt-thread/src/memheap.c:138-281 | An allocation keeps the invariant and all blocks in use; the block it hands out was free and is cut to less than one more block of slack. |
| `MemHeapTheorems.TakesFirst` | WL164001/rt-thread/src/memheap.c:158-183 | An allocation takes the first block of the free list that is long enough. |
| `MemHeapTheorems.FreeInv` | WL164001/rt-thread/src/memheap.c:495-596 | A release keeps the invariant and all other blocks in use, whichever neighbours it merges with. |
| `MemHeapTheorems.GrowInv` | WL164001/rt-thread/src/memheap.c:333-396 | Growing into the free block behind keeps the invariant and all other blocks. |
| `MemHeapTheorems.ShrinkInv` | WL164001/rt-thread/src/memheap.c:417-489 | Cutting a block keeps the invariant and all other blocks. |
| `MemHeapTheorems.LastWordRefused` | WL164001/rt-thread/src/memheap.c:154-156 | A fresh pool of any size refuses a request for all of its free block and serves one word less. |
| `MemHeapTheorems.ReallocInv` | WL164001/rt-thread/src/memheap.c:284-492 | rt_memheap_realloc keeps the invariant and every other block in use, returns a block of the rounded size and less to spare than one more block, and changes nothing if it fails, unless its growth test wraps. |
| `MemHeapTheorems.ReallocFails` | WL164001/rt-thread/src/memheap.c:284-412 | rt_memheap_realloc of a block fails if and only if nothing is asked for, or more than the block holds when it cannot grow in place and an allocation fails; it returns the same block if and only if that is long enough or can grow, and otherwise the first of the free list that is long enough. |
| `MemHeapTheorems.ReallocGivesBack` | WL164001/rt-thread/src/memheap.c:284-412 | The old block is given back if and only if another takes its place, or nothing is asked for. |
| `MemHeapTheorems.MaxFollows` | WL164001/rt-thread/src/memheap.c:232-243 | max_used_size rises with what is in use, to exactly that, and never falls. |
| `MemHeapTheorems.ReallocExactly` | WL164001/rt-thread/src/memheap.c:326-396 | It leaves the heap in order if and only if the growth test does not wrap on a block with a free block behind. |
| `MemHeapTheorems.ReallocBreaksHeap` | WL164001/rt-thread/src/memheap.c:350 | A concrete request that grows a block over the end of the pool. |
| `MemHeapTheorems.RequestCovered` | WL164001/rt-thread/src/memheap.c:147-150 | A request served by rt_memheap_alloc or rt_memheap_realloc is covered by its block if and only if its rounding does not wrap. |
| `MemHeapTheorems.HeaderNotInPayload` | WL164001/rt-thread/src/memheap.c:138-596 | No header lies inside a payload in use. |
| `MemHeapTheorems.FreeUndoesAlloc` | WL164001/rt-thread/src/memheap.c:495-596 | Releasing what was just allocated restores the blocks and available_size; the block comes first in the free list. |
| `MemHeaps.MemHeapObject.constructor` | WL164001/rt-thread/src/memheap.c:50-121 | rt_memheap_init links one free block and the tail into both lists. |
| `MemHeaps.MemHeapObject.Search` | WL164001/rt-thread/src/memheap.c:171-184 | The walk of the free list stops at the first block that is long enough. |
| `MemHeaps.MemHeapObject.Allocate` | WL164001/rt-thread/src/memheap.c:138-281 | rt_memheap_alloc relinks both lists: the block found is cut and its rest linked in, or taken whole. |
| `MemHeaps.MemHeapObject.ReleaseBlock` | WL164001/rt-thread/src/memheap.c:535-595 | rt_memheap_free relinks both lists: merged to the left, to the right, both or neither. |
| `MemHeaps.MemHeapObject.Reallocate` | WL164001/rt-thread/src/memheap.c:284-492 | rt_memheap_realloc on the links has the specified effect and result; a block that moves takes its words along, and no other word of the pool changes. |
| `PageRuns.AllocExact` | WL164001/rt-thread/src/slab.c:236-270 | An allocation succeeds if and only if somewhere that many pages are free in a row, and takes exactly those. |
| `PageRuns.AllocLowest` | WL164001/rt-thread/src/slab.c:236-270 | And the pages it takes are the lowest such pages. |
| `PageRuns.ReleaseCanonical` | WL164001/rt-thread/src/slab.c:272-322 | A release keeps the list sorted, disjoint and fully merged. |
| `PageRuns.ReleasePages` | WL164001/rt-thread/src/slab.c:272-322 | After a release exactly the old free pages and the released ones are free. |
| `PageRuns.CanonicalUnique` | WL164001/rt-thread/src/slab.c:272-322 | A list in that form is determined by its free pages. |
| `PageRuns.AllocThenRelease` | WL164001/rt-thread/src/slab.c:236-322 | Releasing what was allocated restores the list exactly. |
| `PageRuns.ReleaseOrderIrrelevant` | WL164001/rt-thread/src/slab.c:272-322 | Releasing a set of runs gives the same list in any order. |
| `PageAllocators.PageAllocator.constructor` | WL164001/rt-thread/src/slab.c:327-334 | rt_page_init makes one run of all pages. |
| `PageAllocators.PageAllocator.PageAlloc` | WL164001/rt-thread/src/slab.c:236-270 | The pointer-to-pointer walk has the specified effect and result. |
| `PageAllocators.PageAllocator.PageFree` | WL164001/rt-thread/src/slab.c:272-322 | The sorted insertion with its merges has the specified effect. |
| `SlabSpec.ClassFacts` | WL164001/rt-thread/src/slab.c:401-459 | zoneindex picks the first of the 72 classes whose chunks are long enough, and sets the size to that of its chunks. |
| `SlabTheorems.WholeZone` | WL164001/rt-thread/src/slab.c:841-855 | z_nfree equals z_nmax if and only if no chunk of the zone is handed out. |
| `SlabTheorems.LiveApart` | WL164001/rt-thread/src/slab.c:478-667 | Two blocks handed out are the same block or share no byte. |
| `SlabTheorems.MallocSpec` | WL164001/rt-thread/src/slab.c:478-667 | rt_malloc fails if and only if the size is zero or pages, cached zones and chunks are exhausted for it, and then changes nothing; otherwise the block is long enough, was not handed out, and all others stay. The invariant is kept: z_nfree counts never-used and freed chunks, zone_array lists exactly the zones with a free chunk once each, at most two zones are cached, every page is free or in exactly one zone or page run. |
| `SlabTheorems.ZoneIsFull` | WL164001/rt-thread/src/slab.c:626-643 | A new zone has as many chunks as fit behind its header. |
| `SlabTheorems.NewestFirst` | WL164001/rt-thread/src/slab.c:590-652 | The zone opened, given a chunk back or retired last is the first to be used again. |
| `SlabTheorems.GrantedTight` | WL164001/rt-thread/src/slab.c:490-499 | A large request gets the fewest pages that hold it, and none if and only if its rounding wraps. |
| `SlabTheorems.LeadsHome` | WL164001/rt-thread/src/slab.c:771-824 | From the address of any block memusage leads to its own page run, or to its own zone and chunk. |
| `SlabTheorems.FreeSpec` | WL164001/rt-thread/src/slab.c:771-904 | rt_free takes exactly the block at the address out of those handed out and keeps the invariant, whether its zone stays, is relisted, cached or given back. |
| `SlabRuns.InitInv` | WL164001/rt-thread/src/slab.c:344-395 | rt_system_heap_init satisfies the invariant, whatever the memory of the memusage table held. |
| `SlabRuns.GrowZoneExact` | WL164001/rt-thread/src/slab.c:374-377 | The zone size is the smallest of 32, 64 and 128 kilobytes that is at least half of a 1024th of the heap, or the largest. |
| `SlabRuns.TableFits` | WL164001/rt-thread/src/slab.c:388-391 | The memusage table takes the fewest pages that hold four bytes for each page. |
| `SlabRuns.ReallocSpec` | WL164001/rt-thread/src/slab.c:678-735 | rt_realloc leaves the block, moves it to a new one that is long enough and copies min(old, new) bytes at least, or changes nothing; no other block changes. |
| `SlabRuns.ReallocFails` | WL164001/rt-thread/src/slab.c:678-735 | rt_realloc leaves a block where it is if and only if it is a chunk and the request is of its own class; it fails if and only if the block must move and nothing is left for the size it then asks for. |
| `SlabRuns.ReallocToNothing` | WL164001/rt-thread/src/slab.c:685-690 | With size zero it gives up exactly that block. |
| `SlabRuns.ReallocContents` | WL164001/rt-thread/src/slab.c:700-731 | After rt_realloc the block begins with the first min(old, new) bytes of the old one, and if it fails no byte changes. |
| `SlabRuns.ReallocFrame` | WL164001/rt-thread/src/slab.c:700-731 | All other blocks keep their bytes. |
| `SlabRuns.RunsAreSafe` | WL164001/rt-thread/src/slab.c:478-904 | Over every run the allocator agrees with a ledger of addresses and lengths kept from the results alone, and the blocks in it share no byte. |
| `SlabRuns.StepTidy` | WL164001/rt-thread/src/slab.c:854-898 | No size class ever keeps two zones without a chunk in use. |
| `SlabRuns.NothingLeaks` | WL164001/rt-thread/src/slab.c:771-904 | Once every block is given back, at most one zone a class and two cached ones are left, and all other pages are free. |
| `SlabRuns.MallocAligned` | WL164001/rt-thread/src/slab.c:625-658 | A request for a power of two up to a page is aligned to it, at whatever page the heap begins. |
| `SlabRuns.AlignedExactly` | WL164001/rt-thread/src/slab.c:490-658 | The address of a larger power of two is aligned if and only if that of the first page of the zone or run that serves it is. |
| `SlabRuns.FirstPageLowest` | WL164001/rt-thread/src/slab.c:490-512 | For a large request that is the first page of the lowest free pages in a row that hold it, and for a small one that needs a new zone from the pages, of the lowest that hold a zone. |
| `SlabRuns.LargeAlignedExactly` | WL164001/rt-thread/src/slab.c:490-512 | So a large request is aligned if and only if those pages are. |
| `SlabRuns.NotAlignedBeyondAPage` | WL164001/rt-thread/src/slab.c:490-512 | In every fresh heap whose table fills one page the first block of two pages comes right behind it, so it is aligned if and only if the heap begins at an odd page. |
| `SlabRuns.LiveIsPrivate` | WL164001/rt-thread/src/slab.c:478-904 | No byte of a block handed out lies in the memusage table, a free run, a zone header, a free chunk or a cached zone. |
| `SlabHeaps.SlabHeap.constructor` | WL164001/rt-thread/src/slab.c:344-395 | The doubling of the zone size and the table taken from the pages give the specified initial state. |
| `SlabHeaps.SlabHeap.Allocate` | WL164001/rt-thread/src/slab.c:478-667 | rt_malloc on page list, memusage, zone headers and zone lists has the specified effect and result. |
| `SlabHeaps.SlabHeap.UnlinkZone` | WL164001/rt-thread/src/slab.c:862-865 | The walk over the z_next links takes exactly that zone out of its class. |
| `SlabHeaps.SlabHeap.Release` | WL164001/rt-thread/src/slab.c:771-904 | rt_free on the same has the specified effect. |
| `SlabHeaps.SlabHeap.Reallocate` | WL164001/rt-thread/src/slab.c:678-735 | rt_realloc on the same, and on the bytes of the blocks, has the specified effect and result. |
| `MemoryRoutines.MemSet` | WL164001/rt-thread/src/kservice.c:126-197 | For every alignment and length the word loops and the byte loop together set exactly those bytes to the low byte of the value. |
| `MemoryRoutines.MemCpy` | WL164001/rt-thread/src/kservice.c:210-280 | For every alignment, length and overlap the unrolled word loops leave what a byte loop upwards leaves. |
| `MemoryRoutines.ForwardCopies` | WL164001/rt-thread/src/kservice.c:210-280 | Such a loop delivers the old source whenever the target does not start inside it. |
| `MemoryRoutines.ForwardRepeats` | WL164001/rt-thread/src/kservice.c:210-280 | Otherwise it repeats the first bytes of the source over and over. |
| `MemoryRoutines.ForwardCopiesExactly` | WL164001/rt-thread/src/kservice.c:210-280 | So it delivers the old source if and only if the target does not start inside it, or the source itself repeats at that distance. |
| `MemoryRoutines.MemMove` | WL164001/rt-thread/src/kservice.c:293-312 | Whatever the overlap, the target receives the old source and no other byte changes. |
| `Semaphores.StepInv` | WL164001/rt-thread/src/ipc.c:324-515 | A step keeps that nobody waits while the value is above zero, and that the list is one of takes that wait, if and only if no take comes back in vain. |
| `Semaphores.StepBalances` | WL164001/rt-thread/src/ipc.c:324-515 | A step keeps initial value plus releases equal to value plus completed takes plus tokens on their way to woken threads if and only if it is no resume of a waiter from outside, no return of a take whose thread is on the list, no release at the limit of the 16-bit value, and no reset to another value. |
| `Semaphores.RunBalances` | WL164001/rt-thread/src/ipc.c:324-515 | The same over every run of such steps. |
| `Semaphores.RunBalancesExactly` | WL164001/rt-thread/src/ipc.c:324-515 | A run is in balance in every state if and only if all its steps are of that kind. |
| `Semaphores.TakesAreCovered` | WL164001/rt-thread/src/ipc.c:324-472 | In such a run from the initial value on no more takes succeed than tokens were put in. |
| `Semaphores.VainTakeSucceeds` | WL164001/rt-thread/src/ipc.c:346-401 | With the scheduler locked a take that waits for ever on an empty semaphore succeeds, and no token was put in. |
| `Semaphores.StepResults` | WL164001/rt-thread/src/ipc.c:346-401 | A take returns RT_EOK at once if and only if the value is above zero, and a timeout if and only if it is zero and the take must not wait; one that waited returns RT_EOK, or the error it was given by a timeout or a reset. |
| `Semaphores.ReleaseWakes` | WL164001/rt-thread/src/ipc.c:454-462 | A release resumes the first waiter and no other, and it is at least as urgent as all that stay; without a waiter the 16-bit value goes up by one. |
| `Semaphores.Semaphore.TakeEnter` | WL164001/rt-thread/src/ipc.c:324-391 | rt_sem_take up to its rt_schedule takes a token, gives up at once, or queues the caller at the place that the flag and the priorities say. |
| `Semaphores.Semaphore.Give` | WL164001/rt-thread/src/ipc.c:433-471 | rt_sem_release hands the token to the first waiter or counts it, and says whether a schedule is due. |
| `MemPools.StepInv` | WL164001/rt-thread/src/mempool.c:303-449 | Every step that is not in vain, with stealing, timeouts and stray resumes, keeps: block_free_count is the length of the free list, every block is on it or handed out, none is handed out twice, and while a thread waits at most as many blocks are free as woken threads have not retried. |
| `MemPools.StepInvExactly` | WL164001/rt-thread/src/mempool.c:320-384 | A step keeps this if and only if it does not go on with a call whose thread is still on the list. |
| `MemPools.RunKeeps` | WL164001/rt-thread/src/mempool.c:303-449 | The same over every run of steps that are not in vain. |
| `MemPools.PoolConserves` | WL164001/rt-thread/src/mempool.c:77-449 | From a fresh pool on free plus handed out is the total over every run, and no wakeup is lost, in every state, if and only if no call goes on in vain. |
| `MemPools.StepResults` | WL164001/rt-thread/src/mempool.c:320-391 | A call gets a block if and only if one is free, and a timeout if and only if none is and its time is over; after a wait it returns the error given meanwhile, if any. |
| `MemPools.LastComesFirst` | WL164001/rt-thread/src/mempool.c:336-338 | The thread that came last waits in front, and a release resumes it. |
| `MemPools.LastFreedFirst` | WL164001/rt-thread/src/mempool.c:399-432 | The block freed last is handed out first. |
| `MemPools.MemPool.constructor` | WL164001/rt-thread/src/mempool.c:77-124 | rt_mp_init chains all blocks through their header words in address order. |
| `MemPools.MemPool.Try` | WL164001/rt-thread/src/mempool.c:303-391 | One pass of the loop of rt_mp_alloc; the header of the block it hands out names the pool, and the headers of the free blocks are the free list. |
| `MemPools.MemPool.Release` | WL164001/rt-thread/src/mempool.c:399-449 | rt_mp_free links the block in first and resumes the first waiter. |
| `Mailboxes.StepInv` | WL164001/rt-thread/src/ipc.c:1442-1759 | Every step that is not in vain, with stealing, timeouts, stray resumes and reset, keeps: while a receiver waits, at most as many mails are stored as woken receivers have not retried; while a sender waits, at most as many places are free as woken senders have not. |
| `Mailboxes.StepInvExactly` | WL164001/rt-thread/src/ipc.c:1465-1520 | A step keeps this, and the two lists, if and only if it does not go on with a call whose thread is still on its list. |
| `Mailboxes.RunKeeps` | WL164001/rt-thread/src/ipc.c:1442-1759 | The same over every interleaving of steps that are not in vain. |
| `Mailboxes.BoxKeeps` | WL164001/rt-thread/src/ipc.c:1294-1322 | A run from an empty mailbox keeps this throughout if and only if no call goes on in vain; then no wakeup is lost and no more mails are stored than fit. |
| `Mailboxes.SendResults` | WL164001/rt-thread/src/ipc.c:1442-1560 | A send returns RT_EOK if and only if there is room, and RT_EFULL if and only if there is none and its time is over; after a wait it returns the error given meanwhile, if any, and otherwise tries again with the same mail. |
| `Mailboxes.RecvResults` | WL164001/rt-thread/src/ipc.c:1590-1712 | A receive delivers the oldest mail not delivered yet if there is one, and a timeout if and only if there is none and its time is over; after a wait likewise. |
| `Mailboxes.InTheOrderSent` | WL164001/rt-thread/src/ipc.c:1442-1712 | First in, first out over every run: the mails there at the start and those of sends that returned RT_EOK are, in order and with their values, those delivered or wiped out by resets and those still there. |
| `Mailboxes.MailWakes` | WL164001/rt-thread/src/ipc.c:1538-1548 | A mail that goes in resumes the most urgent receiver, one that comes out the most urgent sender. |
| `Mailboxes.Mailbox.TrySend` | WL164001/rt-thread/src/ipc.c:1465-1553 | One pass of the loop of rt_mb_send_wait: the ring with its two offsets appends to a first-in first-out queue, or the caller queues at the place that the flag and the priorities say. |
| `Mailboxes.Mailbox.TryRecv` | WL164001/rt-thread/src/ipc.c:1612-1700 | One pass of the loop of rt_mb_recv: the ring gives its oldest mail, or the caller queues likewise. |
| `Mailboxes.Mailbox.ResetBox` | WL164001/rt-thread/src/ipc.c:1734-1750 | rt_mb_control with reset empties the ring and fails everybody who waits. |
| `WaitOrder.PlaceSpec` | WL164001/rt-thread/src/ipc.c:95-122 | In a wait list in order of priority the place found is behind all that are at least as urgent and in front of all that are less. |
| `WaitOrder.JoinInOrder` | WL164001/rt-thread/src/ipc.c:95-122 | So the list stays in order. |
| `WaitLists.WakesFirst` | WL164001/rt-thread/src/ipc.c:137-147 | rt_ipc_list_resume takes exactly one thread off the list, and it is at least as urgent as all that stay, or came first. |
| `WaitOrder.FindPlace` | WL164001/rt-thread/src/ipc.c:88-123 | The walk over the list finds that place, and the end of a first-in first-out list. |
| `RtLists.LinkedIn` | WL164001/rt-thread/include/rtservice.h:58-80 | Linking a node into a gap of a ring gives the ring with that node in that place. |
| `RtLists.TakenOut` | WL164001/rt-thread/include/rtservice.h:86-92 | Unlinking a node gives the ring without it. |
| `RtLists.Lists.InsertAfter` | WL164001/rt-thread/include/rtservice.h:58-65 | rt_list_insert_after puts the node behind the given one and touches no other list. |
| `RtLists.Lists.InsertBefore` | WL164001/rt-thread/include/rtservice.h:73-80 | rt_list_insert_before puts the node in front of the given one and touches no other list. |
| `RtLists.Lists.Remove` | WL164001/rt-thread/include/rtservice.h:86-92 | rt_list_remove takes the node out, leaves it a list of its own, and touches no other list. |
| `RtLists.Lists.IsEmpty` | WL164001/rt-thread/include/rtservice.h:98-101 | True exactly for the empty list. |
| `RtLists.Lists.Len` | WL164001/rt-thread/include/rtservice.h:107-118 | The number of nodes. |
| `Formatters.Vsnprintf` | WL164001/rt-thread/src/kservice.c:777-1040 | For every size, with n characters of room up to the end of the address space: the value returned is the length of the unbounded text; if n > 0 the first min(n-1, length) characters are stored and followed by a NUL; nothing behind that or behind the room is written. Section 7.21.6.12 of ISO/IEC 9899:2011. |
| `Formatters.Vsprintf` | WL164001/rt-thread/src/kservice.c:1070-1073 | rt_vsprintf stores the whole text and a NUL, if the buffer holds it. |
| `Formatters.Formatter.PrintNumber` | WL164001/rt-thread/src/kservice.c:606-775 | print_number emits the specified field, with at most ten digits in its buffer of sixteen. |
| `Formatters.Formatter.Convert` | WL164001/rt-thread/src/kservice.c:676-683 | The digits come out least significant first and fit the buffer. |
| `Formatters.Formatter.PutFormat` | WL164001/rt-thread/src/kservice.c:810-1026 | The loop over the format emits the specified text. |
| `FormatTheorems.DigitsRead` | WL164001/rt-thread/src/kservice.c:568-584 | Digits in base 10 and 16 read back to the number and have no leading zero. |
| `FormatTheorems.OctalExactly` | WL164001/rt-thread/src/kservice.c:568-584 | Octal output is octal digits of the number if and only if the number is below 8. |
| `FormatTheorems.DigitsFit` | WL164001/rt-thread/src/kservice.c:625-684 | No long has more than ten digits. |
| `FormatTheorems.NumberWidth` | WL164001/rt-thread/src/kservice.c:685-774 | The field is as wide as asked for, or as sign, digits and precision need; a precision of zero takes the digits away. |
| `FormatTheorems.StringExactly` | WL164001/rt-thread/src/kservice.c:913-940 | A string with a precision is printed as section 7.21.6.1 of ISO/IEC 9899:2011 has it if and only if the precision is not zero, or the string is blanks that the width makes up for. |
| `FormatTheorems.NumberReadsBack` | WL164001/rt-thread/src/kservice.c:606-775 | With the default precision and base 10 or 16, a reader that skips blanks and takes a sign and digits gets the number back, for every width and all flags. |
| `FormatTheorems.SignedMeaning` | WL164001/rt-thread/src/kservice.c:968-1019 | That number is the argument itself for %d of a signed long and for %u of an unsigned one. |
| `FormatMeaning.ParseReads` | WL164001/rt-thread/src/kservice.c:820-884 | Flags, width, precision, their stars and the qualifier are read as they are written, for every combination. |
| `FormatMeaning.DirectiveShows` | WL164001/rt-thread/src/kservice.c:887-1025 | Every directive shows its own argument: d and i in base ten with the sign its flags say, u in base ten, x, X and p in base sixteen with capitals for X only, cut to 16 bits by h, in a field of the width, precision, side and padding given; c a character and s a string likewise; %% a percent sign; any other letter itself. The text behind it goes on with the next argument. |
| `FormatMeaning.FormatShows` | WL164001/rt-thread/src/kservice.c:810-1026 | So a whole format string shows its text as it is and each directive with the arguments that follow those of the directives in front. |
| `FormatMeaning.UnfinishedShows` | WL164001/rt-thread/src/kservice.c:984-997 | A directive that the string ends in leaves a percent sign. |
| `FormatMeaning.IntegersReadBack` | WL164001/rt-thread/src/kservice.c:996-1024 | With any precision but zero the text of an integer directive reads back, in its base, as the argument: signed for d and i, unsigned for u, x, X and p, modulo 16 bits with h and 32 without. |

## Left out

- Heap statistics of `slab.c`, hooks of all heaps, `rt_calloc`: counters and wrappers.
- String routines, `rt_memcmp`, `rt_tick_from_millisecond`: they would only add easy members.
- SMP branches, signals (with the `-RT_EINTR` retry of `rt_mutex_take`), context switch, stack check, hooks, debug output: not built or side effects only.
- The timer list: a timeout is a step that runs `rt_thread_timeout` on a suspended thread whose timer is armed; `timer.c` is not part of this model.
- Deleting or detaching threads and kernel objects, `rt_thread_delay_until`, the object registry: left out.
- Counters that wrap: `hold` stays below 255 by the legality of a take, `rt_scheduler_lock_nest` and `entry` are unbounded.
- `number_mask` of a thread is computed from its priority where the source stores it at each change of priority.
- KernelCores.KernelCore.MutexTake: ends where the call enters rt_schedule; the rest of the call is the steps TakeSchedule and TakeReturn of the specification.
- KernelCores.KernelCore.Startup: runs as a whole; its parts are the steps DoPrepare, DoResumeTest, DoUnlink and DoInsert of the specification.
- KernelCores.KernelCore.Resume: wait lists are sequences in the class; the links are modelled once, in `RtLists`.
- KernelCores.KernelCore.Exit: the thread is closed and rescheduled; detaching its object and the defunct list are left out.
- KernelCores.KernelCore.TickIncrease: the global tick counter and the timer check are left out.
- MemPools.MemPool.constructor: a pool that holds no block is excluded; the source then writes a null link in front of its memory.
- MemPools.MemPool.Release: pointers that are not of a block handed out are excluded.
- SlabHeaps.SlabHeap.Reallocate: what the allocator writes into free chunks and headers is kept apart from the bytes of the blocks; `LiveIsPrivate` says that the two do not overlap.
- SlabHeaps.SlabHeap.Release: pointers that are not of a block in use are excluded, as the source asserts.
- MemoryRoutines.MemSet: addresses wrap nowhere, and the branch for a long of another size is not built.
- Semaphores.StepInv: what else a thread does to a list it was left on in vain, or linked into twice, is not modelled; the runs end their claims there. So for pools, mailboxes, message queues and events.
- MessageQueues.MessageQueue.CopyIn: one turn of the copy; its loop is the repeated step of the interleaved machine.
- KernelWitnesses.ChainedLoanStops: the states of this module satisfy all invariants; the runs that lead to them are not written out.
- SmallHeaps.SmallHeap.Release: pointers that are neither NULL, nor outside the heap, nor of a block in use are excluded, as the source asserts.
- SmallHeaps.SmallHeap.Allocate: `heap_end->prev` is not part of the shape, since the source does not keep it up to date.
- MemHeaps.MemHeapObject.Reallocate: the case that `ReallocExactly` shows to break the heap is excluded.
- MemHeaps.MemHeapObject.ReleaseBlock: pointers that are not of a block in use are excluded, as the source asserts.
- PageAllocators.PageAllocator.PageFree: runs that overlap free pages are excluded, as the source asserts.
- Formatters.Vsnprintf: a room beyond the buffer is allowed for texts that fit into the buffer; arguments of the wrong type read as 0 or as a null string; widths are unbounded integers; the `#` prefix is not built in this configuration and has no effect.
