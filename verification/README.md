# A verified model of the radar RTOS kernel

The repository is a small real-time kernel for one microcontroller: a rate-monotonic scheduler with
periodic budgets and admission control, the original priority-ceiling protocol for its locks, a pair of
ring buffers to the debug host with a formatter that feeds them, stacks guarded by the memory protection
unit, and a duty-cycle encoder for a ring of lights. This project states in Dafny what those parts do, in
the form in which they are written (global arrays and counters updated in place by loops), and proves the
properties they exist for.

How the files fit together:

- `Words`, `Arithmetic`: 32-bit words with explicit wrap-around; division facts.
- `KernelState`, `Scheduling`, `Ceilings`, `Priorities`, `Admission`: the kernel's globals as one value and
  each system call or handler as a function on it. `Kernel` is the same code in place, a class with the
  arrays and counters as fields; every method is proved equal to its function.
- `LockInvariant`, `LockSteps`, `UnlockSteps`: the invariant of the lock protocol and that each operation
  keeps it. `Protocol`: what follows in any one state (no deadlock, exact caches, the admission rule).
- `Runs`, `RunTheorems`, `Inheritance`, `ThreadStates`, `WaitLists`, `Budgets`, `Entitlement`, `Sleep`,
  `TopPriority`, `Conservation`: runs of any length, with system calls and ticks in any order, and what holds over
  them.
- `Scenes`, `TwoThreads`, `ThreeThreads`, `Overflow`, `Inversion`, `Redefinition`, `StaleCeiling`: concrete legal runs
  from a fresh system in which a property one might expect does not hold.
- `SysTick`, `Stacks`, `Rtt`, `Printk`, `Pix`: the clock divider, stack partition and protection regions,
  ring buffers, formatter and light encoder.

What the model takes for granted, because the code relies on it:

- A system call together with the PendSV it pends is one step, and so is a preempting tick with its PendSV.
  The kernel masks interrupts around its critical sections and leaves a system call through PendSV
  (kernel/src/multitask.c:689, 718-720). A blocked request resumes as a step of its own, `DoRetry`. The unlocks
  inside `syscall_thread_end` pend a PendSV each; the model switches once, at the end, and
  `RunTheorems.InterleavedEnd` shows that giving the locks up one by one, with any steps of other threads in
  between, is a legal run that ends the thread with nothing held.
- Wait lists have 14 places (kernel/include/mutex.h:32) and nothing checks them. A run is legal only as long
  as no refused request finds its wait list full; `Runs.StepKeepsIff`, `Runs.RunKeepsIff` and
  `WaitLists.RoomWithoutBlockedReleases` say when that is, `Overflow.WaitListOverflows` shows a run that stops
  being legal.
- When a thread is stopped by the ceiling while the lock it asked for is open, the code reads and writes
  through the null locker of that lock (kernel/src/multitask.c:714). The model takes this to change nothing
  in the kernel's state; every theorem over runs passes over such steps.
- Only the holder unlocks a lock; `syscall_unlock` does not check (kernel/src/multitask.c:743-761).
- Main and idle take no locks, and main neither yields nor ends.
- No definition is accepted while a lock is held or asked for: re-ordering overwrites dynamic priorities
  (kernel/src/multitask.c:376-379). `RunTheorems.DefineInheritanceIff` says when a holder keeps up with the thread
  whose priority it inherited, `Redefinition.DefinitionDropsInheritance` is a legal run to a definition after which
  it does not. That no lock is held when multitasking starts is proved, not assumed.
- The host moves only its own index of each ring, and reads or sends again after finitely many polls.
- `multitask_request` has been called before the other calls, and no definition with id = t = 0xFFFFFFFF is
  accepted. The kernel does accept one (`Scenes.SentinelAccepted`); the search for the next thread in order then
  fails and the code writes outside the thread table, in exactly that case (`Kernel.Kernel.ThreadDefine`,
  `Priorities.SearchSucceedsIff`). Stack sizes are at most 2^31, above which `ceil_log2` does not return
  (`Stacks.SomeShiftReachesIff`).

Where the code departs from its own description, the model follows the code and the exact condition is
proved:

- A thread stopped only by the ceiling passes nothing to the holder that stops it: the requested lock is open
  and has no locker (kernel/src/multitask.c:714). `Protocol.InheritsIffLocked` says when the holder is left at
  least as urgent, `Inversion.HolderRunsNextIff` when it runs next; `Inversion.CeilingBlockInheritsNothing` is a
  legal run in which a thread of middle priority runs instead of the holder.
- A definition does not refresh the ceilings, so a thread can be ended for asking for the very lock that names
  it: `StaleCeiling.NamedThreadIsEnded` is a legal run. `Entitlement.EndedIffNotEntitled` shows that this cannot
  happen between a start and the next accepted definition.
- A periodic release readies a thread that is blocked on a lock and leaves it on the wait list
  (kernel/src/multitask.c:177-180). `WaitLists.TickOrderlyIff` is the condition for one tick,
  `Overflow.WaitListBreaks` a legal run that fails it. Repeated, it overflows the list:
  `Overflow.WaitListOverflows`.
- A thread that has used up its budget while it stands in a queue, and waits for its period there, is readied
  by the unlock that opens the lock, with no work left; charged once more, its budget counter wraps. The account of a
  thread stays in order all along a run iff no step wakes it like that (`Budgets.BudgetEnforcedIff`, one step:
  `Budgets.AccountStepIff`), and clock, work left and active time are right iff no tick charges it without work
  (`Budgets.BooksIff`). `Overflow.BudgetBreaks` is a legal run in which it gets a slot too many.
- A period of 1 makes the release clock wrap on its first tick: `Budgets.ClockNeedsPeriodTwo`.
- The most urgent thread gets its full budget in every period if and only if its budget is less than its
  period: `TopPriority.TopThreadServed`. Budgets are refreshed one tick before the nominal release.
- The admission bounds are those of Liu and Layland rounded to four decimal places, but the entry for 13 threads is
  rounded down: `Admission.BoundIsLiuLayland`.
- The 32 kB limit is tested on a 32-bit product, so some requests of more than 2^28 bytes a stack pass:
  `Stacks.AcceptedFitsIff`, `Stacks.AcceptsExactly`. A stack size of 0 passes as 1 byte, although the
  comment says it does not (kernel/src/multitask.c:274): `Stacks.ZeroBytesAccepted`. Stacks below 17 bytes
  get no protection region: `Stacks.Mpu.SwitchStacks`.
- `printk` returns its character count with the unflushed tail counted twice: `Printk.Printk`.
- A frequency above half the base clock gives a reload value of 0: `SysTick.ReloadPositiveIff`.

## Model

| member | source | states |
|---|---|---|
| RunTheorems.EveryRunIsSafe | kernel/src/multitask.c:601-795 | After any run from a fresh request that overflows no wait list: every lock is locked iff it has a live, entitled locker; ceiling cache and cached lock are exact; every wait list is inside its array; no chain of waiting closes on itself; thread count, ids and utilization are in order |
| RunTheorems.UnbrokenWaitsAreSafe | kernel/src/multitask.c:601-795 | A run of permitted actions in which no blocked thread is released overflows no wait list, so the same holds after it |
| Runs.RunKeeps | kernel/src/multitask.c:411-795 | The global invariant, wait lists inside their arrays included, holds after every run of system calls, resumptions and ticks that overflows no wait list, in any order |
| Runs.RunKeepsIff | kernel/src/multitask.c:411-795 | A run of permitted actions keeps the invariant all along iff it never overflows a wait list |
| Runs.StepKeeps | kernel/src/multitask.c:411-795 | One step of any kind keeps the global invariant, as long as a refusal finds a place on its wait list |
| Runs.StepKeepsIff | kernel/src/multitask.c:411-795 | One permitted step keeps the invariant iff it is not a refused request whose wait list already holds 14 entries |
| Runs.LockKeeps | kernel/src/multitask.c:673-735 | A lock request, legal or not, with the PendSV it pends, keeps the invariant, as long as a refusal finds a place on its wait list |
| Runs.AttemptKeeps | kernel/src/multitask.c:696-731 | So does each pass of the request loop, first or resumed |
| Runs.UnlockKeepsInv | kernel/src/multitask.c:743-795 | So does an unlock |
| RunTheorems.DefineInheritanceIff | kernel/src/multitask.c:376-402 | A definition accepted while a thread is queued for the lock it asked for leaves the holder at least as urgent as that thread iff the holder comes first in the (period, id) order; otherwise the lock invariant is broken |
| Redefinition.DefinitionDropsInheritance | kernel/src/multitask.c:376-402 | A legal run from a fresh request to a state in which the kernel accepts a definition, and the holder loses the priority it had inherited |
| Runs.EndKeepsInv | kernel/src/multitask.c:601-620 | So does the end of a thread, releasing whatever it holds |
| Runs.TickKeeps | kernel/src/multitask.c:70-140 | So does a preempting tick in any state |
| Runs.DefineKeeps | kernel/src/multitask.c:411-479 | So does a definition, provided an accepted one comes while no lock is held or asked for |
| Runs.StartKeeps | kernel/src/multitask.c:518-566 | So does starting multitasking, whose reset of the ceiling is sound because main runs only while no lock is held |
| Protocol.NoCycle | kernel/src/multitask.c:673-735 | Deadlock freedom: no cycle of any length, where a thread waits for the lockers of the queues it stands in and of the lock it asked for |
| Protocol.PathDescends | kernel/src/multitask.c:673-735 | Static priorities strictly descend along every waits-for path that starts at a holder, by queues and by requested locks |
| Protocol.InheritedAlongPath | kernel/src/multitask.c:712-714 | Inheritance is transitive: along any chain of threads queued on the lock they asked for, the last holder is at least as urgent as the first thread |
| Protocol.ChainEnds | kernel/src/multitask.c:673-735 | From any queued thread a waits-for path leads to a holder that waits for nobody and is not blocked |
| Protocol.NewestHolderIsFree | kernel/src/multitask.c:728-731 | The locker of the cached lock is the most urgent holder, beats every ceiling held by others, stands in no queue and is not blocked |
| Protocol.NewestHolderIsServed | kernel/src/multitask.c:696-731 | Any legal request of that holder is granted at once and it keeps running |
| Protocol.AdmitsIsTextbook | kernel/src/multitask.c:691-696 | The test on cached ceiling, cached lock and dynamic priority holds exactly when the thread's static priority beats the ceilings of all locks held by others |
| Protocol.GrantIffTextbook | kernel/src/multitask.c:696-731 | A legal request is granted exactly under that rule; otherwise the thread is blocked and stands in a queue |
| Protocol.OneBlocker | kernel/src/multitask.c:691-731 | At most one less urgent thread holds locks whose ceilings can stop a given thread |
| Protocol.CacheIsExact | kernel/src/multitask.c:728-731 | The incrementally kept ceiling is the minimum over the locked locks, the cached lock is locked and attains it, and it is null iff nothing is locked |
| Protocol.PriorityBand | kernel/src/multitask.c:712-714 | Without locks a thread has its static priority; with locks its dynamic priority lies between a ceiling it holds and its static priority |
| Inheritance.InheritanceIsExact | kernel/src/multitask.c:696-795 | After any run from a fresh request a live thread has its static priority, or a more urgent one that is exactly the dynamic priority of some thread queued on a lock it holds; it is at least as urgent as every thread queued for a lock of its that it asked for; with empty queues it has its static priority |
| Inheritance.PriorityChanges | kernel/src/multitask.c:601-795 | One step changes a dynamic priority only if the thread itself gives up locks, or a more urgent thread asks for a lock it holds, whose priority it then has; a grant changes none |
| Protocol.InheritsIffLocked | kernel/src/multitask.c:704-714 | After a refusal the holder of the joined queue is at least as urgent as the requester iff the requested lock was locked or the holder already was |
| Inversion.CeilingBlockInheritsNothing | kernel/src/multitask.c:704-714 | A legal run from a fresh request in which a legal request for an open lock queues the most urgent thread behind a holder that inherits nothing, and a thread of middle priority that uses no lock gets the slots |
| Inversion.HolderRunsNextIff | kernel/src/multitask.c:704-720 | After any refusal the holder in the way has its own priority, lowered to the requester's iff the requested lock was locked, and it runs next iff it is ready and no ready thread comes before it at that priority |
| Inversion.InheritanceTakesEffect | kernel/src/multitask.c:712-720 | After the refusal of a locked lock with a ready holder, the thread that runs next is at least as urgent as the refused one |
| RunTheorems.LockHandover | kernel/src/mutex.c:53-88 | Mutual exclusion, step by step: a lock gets a holder only from being open, by the active thread's own granted request, and loses it only by that thread's unlock or end |
| RunTheorems.EndedHoldsNothing | kernel/src/multitask.c:601-620 | After the end of a thread, also a forced one, it is defunct and holds no lock |
| RunTheorems.InterleavedEnd | kernel/src/multitask.c:608-619 | A thread that only unlocks, in a run of any length with any steps of others in between, and has unlocked every lock it held, may then end: the run is legal, the thread is defunct, holds nothing, and the end touches no lock |
| RunTheorems.HoldsLess | kernel/src/multitask.c:608-613 | Along such a run the thread holds only what it held at the start and has not unlocked since |
| RunTheorems.LaterHolderMoreUrgent | kernel/src/multitask.c:673-735 | After any run, of two holders the one that began holding later is strictly more urgent and beats every ceiling the earlier one holds, and conversely |
| RunTheorems.FirstLock | kernel/src/multitask.c:696-731 | A thread comes to hold its first lock only by its own request, granted by the rule |
| RunTheorems.CacheMoves | kernel/src/multitask.c:723-786 | One step leaves the cached ceiling and lock alone, or it is a grant that lowers the ceiling and moves the cache to that lock, or an unlock or end that moves it to the first lock with the least ceiling |
| RunTheorems.HeldFreezesPriorities | kernel/src/multitask.c:376-379 | While some lock is held no step changes a static priority |
| LockInvariant.HolderNotAboveCeiling | kernel/src/multitask.c:712-714 | No holder is more urgent than the global ceiling, however much it inherited |
| LockInvariant.QueuedNotAdmitted | kernel/src/multitask.c:696-710 | No queued thread would pass the admission test |
| LockInvariant.SameLockingKeeps | kernel/src/multitask.c:70-186 | Scheduling steps, which may take threads out of the blocked state, keep the lock invariant |
| LockSteps.AcquireKeeps | kernel/src/multitask.c:723-731 | A granted request keeps the lock invariant |
| LockSteps.BlockKeepsIff | kernel/src/multitask.c:698-720 | A refused request, with queueing and inheritance, keeps the lock invariant iff the wait list it joins has a place left |
| LockSteps.RefusalHasTop | kernel/src/multitask.c:696-709 | Whenever the admission test fails the cached lock pointer is not null, so the code's dereferences of it are safe |
| LockSteps.RefusedHolderIsOlder | kernel/src/multitask.c:704-710 | A refused holder is less urgent than the thread it waits for |
| LockSteps.DonorNotAboveCeiling | kernel/src/multitask.c:712-714 | An inherited priority never exceeds the ceiling of the lock it is inherited through |
| UnlockSteps.UnlockRecomputes | kernel/src/multitask.c:767-785 | An unlock leaves the thread with exactly the minimum of its static priority and the dynamic priorities of all threads queued on locks it still holds |
| UnlockSteps.UnlockKeeps | kernel/src/multitask.c:743-795 | An unlock by the holder keeps the lock invariant |
| UnlockSteps.UnlockSpares | kernel/src/multitask.c:743-795 | It opens that lock and touches no other lock, and of the threads only states and the unlocker's priority |
| UnlockSteps.EndKeeps | kernel/src/multitask.c:601-620 | Ending keeps the lock invariant, leaves no lock with the thread and other threads' locks as they were |
| WaitLists.TickOrderlyIff | kernel/src/multitask.c:177-180 | A tick keeps the wait lists well formed (each entry blocked, entered once) iff it releases no blocked thread |
| WaitLists.StepOrderly | kernel/src/multitask.c:601-795 | Every other step keeps them well formed |
| WaitLists.WaitListFits | kernel/src/multitask.c:705-709 | A well-formed wait list holds each thread at most once and never the running one, so it has a place left |
| WaitLists.RoomWithoutBlockedReleases | kernel/src/multitask.c:698-720 | Over any run of permitted actions in which no blocked thread is released, the 14 places always suffice and the wait lists stay well formed |
| Overflow.WaitListOverflows | kernel/include/mutex.h:29-37 | A legal run from a fresh request, of two threads and one lock, after which the wait list holds 14 entries of one thread, and the next resumption of that thread writes a 15th |
| Overflow.WaitListBreaks | kernel/src/multitask.c:177-180 | A legal run whose wait lists are well formed until a tick releases the blocked thread |
| Overflow.BudgetBreaks | kernel/src/multitask.c:79-92 | A legal run in which a thread is charged its last slot while it stands in a queue, is then woken with no work left, and gets a second slot in a period that allows one |
| Budgets.BudgetEnforcedIff | kernel/src/multitask.c:79-101 | Over any run of a live thread with a period of at least 2: clock, work left and active time agree with the slots charged, these stay within c per period begun, and there is work left whenever the thread may run, all along the run iff no unlock or end wakes the thread from a wait list while it waits for its period |
| Budgets.AccountStepIff | kernel/src/multitask.c:79-101 | One step of any kind: the books stay right iff it does not charge the thread without work, and the account stays in order iff it does not wake the thread without work |
| Budgets.BooksIff | kernel/src/multitask.c:79-101 | Over any run: the release clock n ticks after definition is t - ((n+1) mod t), slots charged since the last release plus work left equal c, and the active time is the slots charged, all along iff no tick charges the thread when it has no work left |
| Budgets.SpentKeeps | kernel/src/multitask.c:79-101 | After any run, a thread that waits for its period in a queue has no work left |
| Budgets.BudgetBound | kernel/src/multitask.c:172-182 | In every run that never wakes the thread like that, total slots charged and active time never exceed c times the number of periods begun |
| Budgets.ClockNeedsPeriodTwo | kernel/src/multitask.c:176-178 | The release clock survives its first tick iff t is at least 2 |
| Budgets.DefineMakesFresh | kernel/src/multitask.c:454-461 | An accepted definition leaves its thread, in the last free slot and with the id, budget and period given, as the budget theorems ask |
| Sleep.SleepsUntilRelease | kernel/src/multitask.c:161-182 | A waiting thread with d ticks left on its release clock, in no queue, does not run and stays waiting for the next d - 1 ticks of any run, whatever the other threads do |
| Sleep.YieldSleeps | kernel/src/multitask.c:580-592 | A yield puts the caller to sleep until its next release, even if it is the most urgent thread |
| Sleep.ExhaustionSleeps | kernel/src/multitask.c:83-92 | So does using up the budget, unless the same tick is the release |
| Sleep.TickSleeps | kernel/src/multitask.c:164-182 | The tick on which the clock runs out readies the thread for the next choice, not for the one being made |
| Sleep.StepSleeps | kernel/src/multitask.c:411-795 | No system call of another thread wakes a waiting thread or moves its clock |
| TopPriority.TopThreadServed | kernel/src/multitask.c:79-186 | In tick-only runs from the start, the most urgent thread has slot k iff k mod t < c, for every k, if and only if c < t |
| TopPriority.PhaseAt | kernel/src/multitask.c:79-186 | Its whole control block k ticks after the start, in closed form |
| TopPriority.SaturatedMisses | kernel/src/multitask.c:83-92 | With c = t it loses slot 2t-1 |
| TopPriority.DefineRanksTop | kernel/src/multitask.c:473-474 | After an accepted definition the thread ranked 0 is more urgent than all others |
| Conservation.TimeConserved | kernel/src/multitask.c:79-81 | Over any run without redefinition, restart or wrap, the active time gained by all threads, idle and main equals the time counted |
| ThreadStates.StateMachine | kernel/src/multitask.c:70-795 | For every step but an accepted definition, how each thread came by its state: it runs only when chosen, ready by a release, a wake-up or losing the processor, waits only by its own yield or last slot, blocks only on its own refused request, is defunct only by its own end; every thread queued on a lock that is given up is ready or runs |
| ThreadStates.SwitchServesMostUrgent | kernel/src/multitask.c:103-186 | After a yield, an end, an unlock, a refusal or a tick the running thread is as urgent as every ready thread not just released, idle runs only if there is none, main only if no thread is left |
| Scheduling.SelectMeaning | kernel/src/multitask.c:148-186 | The scheduler answers main iff no thread is active, idle iff none was ready on entry, else the first of least dynamic priority among those ready on entry |
| Scheduling.PendSVRunsOne | kernel/src/multitask.c:103-122 | After PendSV no user thread but the active one is running |
| Priorities.OrderIsBijection | kernel/src/multitask.c:370-404 | Static priorities are a bijection of the live threads onto 0..count-1, strictly by (period, id); defunct slots keep 0xFFFFFFFF |
| Priorities.SearchSucceedsIff | kernel/src/multitask.c:382-403 | Every round of the assignment, as the search loop is proved to do it, finds a thread iff no live thread has period and id 0xFFFFFFFF |
| Scenes.SentinelAccepted | kernel/src/multitask.c:383-402 | In a fresh system with one slot the kernel accepts id and period 0xFFFFFFFF with one slot per period, and the first search then finds nothing |
| Admission.DefineOutcome | kernel/src/multitask.c:411-479 | A definition is accepted iff there is a function, 1 <= c <= t, no live thread has the id, some slot is defunct, and the shares of the live threads plus c/t are at most the table entry for their number plus one; each refusal code names the first of these that fails |
| Admission.BoundIsLiuLayland | kernel/src/multitask.c:249-252 | The table entry for k threads is the utilization u with (1 + u/k)^k = 2 to four decimal places, rounded to the nearest iff k is not 13 |
| Admission.DefineKeepsAdmission | kernel/src/multitask.c:411-479 | A definition keeps the count, distinct ids, the exact total utilization within its bound, and every thread findable by the priority search, iff it is not an accepted one with id and period 0xFFFFFFFF |
| Admission.RetireKeepsAdmission | kernel/src/multitask.c:614-618 | So does the end of a thread |
| Admission.StartFillsCeilings | kernel/src/multitask.c:493-534 | A start succeeds iff frequency, definitions and named lockers are valid, and then each ceiling is the static priority of the thread the lock names |
| Admission.StartOutcome | kernel/src/multitask.c:518-532 | Each refusal of a start names the first condition that fails, and the first two change nothing |
| Admission.ValidateStops | kernel/src/multitask.c:493-511 | A start that finds no thread for a lock has filled the ceilings of the locks before it and changed nothing else |
| Entitlement.EndedIffNotEntitled | kernel/src/multitask.c:676-680 | After any run from a successful start without an accepted definition, a request for a lock that names a live thread ends the requester iff it is more urgent than that thread |
| Entitlement.NamesKept | kernel/src/multitask.c:493-511 | Over any run without an accepted definition, every lock that names a live thread keeps that thread's static priority as its ceiling |
| StaleCeiling.NamedThreadIsEnded | kernel/src/multitask.c:676-680 | A legal run from a fresh request in which a definition lowers the rank of a thread below the ceiling of the lock that names it, so that its request, granted before, ends it |
| Kernel.Kernel.ScheduleRms | kernel/src/multitask.c:148-186 | The single fused loop equals selecting on the entry state and then advancing all timers |
| Kernel.Kernel.PendSVHandler | kernel/src/multitask.c:70-140 | The handler's new globals are the function `PendSV` of the old ones |
| Kernel.Kernel.MutexTry | kernel/src/mutex.c:53-69 | The attempt succeeds iff the lock was open, and leaves it locked |
| Kernel.Kernel.WakeWaiters | kernel/src/multitask.c:751-753 | Exactly the queued threads become ready |
| Kernel.Kernel.InheritFrom | kernel/src/multitask.c:780-782 | The sweep over one queue, in place, although the loop reads the priority it is changing |
| Kernel.Kernel.Sweep | kernel/src/multitask.c:765-786 | The sweep finds the least ceiling, the first lock with it, and the inherited priority |
| Kernel.Kernel.Unlock | kernel/src/multitask.c:743-795 | The whole unlock equals its function |
| Kernel.Kernel.ThreadEnd | kernel/src/multitask.c:601-620 | Ending equals its function; looping over all requested locks equals looping over the defined ones |
| Kernel.Kernel.BlockOn | kernel/src/multitask.c:698-720 | The refusing half of the loop, in place; it reports exactly the case in which the wait list is full |
| Kernel.Kernel.AttemptLock | kernel/src/multitask.c:696-731 | One pass of the request loop, with the attempt on the semaphore only after the test; it reports exactly the refusals that would overflow a wait list |
| Kernel.Kernel.SyscallLock | kernel/src/multitask.c:673-735 | The request up to its first grant, block or forced end, and exactly when it would overflow a wait list |
| Kernel.Kernel.NextInOrder | kernel/src/multitask.c:383-398 | With ranks below k given out, the search fails iff round k can find nothing, and otherwise finds the thread of rank k |
| Kernel.Kernel.OrderPriorities | kernel/src/multitask.c:370-404 | The selection loops give every live thread its rank, unless a live thread has period and id 0xFFFFFFFF, exactly when they would write outside the thread table |
| Kernel.Kernel.ThreadDefine | kernel/src/multitask.c:411-479 | Returned code for all arguments, and the new state, error paths included, for all but an accepted id and period of 0xFFFFFFFF, which is exactly when the code would write outside the thread table |
| Kernel.Kernel.FillCeiling | kernel/src/multitask.c:497-504 | The ceiling of one lock from the first live thread with the named id, or no change |
| Kernel.Kernel.ValidateCeilings | kernel/src/multitask.c:493-511 | True iff every named thread exists; ceilings are filled up to the first that does not |
| Kernel.Kernel.MultitaskStart | kernel/src/multitask.c:518-566 | New state and returned code of a start, error paths included; after a success with a frequency the timer counts, and its reload value, which fits 24 bits, times its bins is the period asked for or less than one cycle a bin longer; otherwise the timer is untouched |
| SysTick.Timer.Divide | kernel/src/multitask.c:538-553 | For every frequency up to the base the bin search ends, its reload value is accepted, and the timer then ticks at that frequency |
| SysTick.Timer.Handler | kernel/src/systick.c:73-83 | The handler raises preemption iff the wrap counter has reached the number of bins, and the counter's new value |
| SysTick.FourBins | kernel/src/multitask.c:545-547 | At most four bins are needed |
| SysTick.PeriodAccurate | kernel/src/multitask.c:541-552 | The scheduling period is at least the requested number of cycles and less than that plus the number of bins |
| SysTick.ReloadPositiveIff | kernel/src/multitask.c:541-552 | The reload value is positive iff the frequency is at most half the base |
| SysTick.FiresEveryBins | kernel/src/systick.c:73-83 | Preemption is raised on exactly every bins-th call, for ever |
| Stacks.CeilLog2Loop | kernel/include/arm.h:107-111 | The loop finds the least exponent, equal to the one found by halving |
| Stacks.SomeShiftReachesIff | kernel/include/arm.h:107-111 | The loop can end below a shift of 32 iff n is at most 2^31 |
| Stacks.StackTable.Request | kernel/src/multitask.c:262-304 | For sizes up to 2^31, returned code and the slices of all threads and idle; nothing changes on an error |
| Stacks.AcceptedFitsIff | kernel/src/multitask.c:269-277 | An accepted request fits in 32 kB iff it asks for at most 2^28 bytes a stack |
| Stacks.AcceptsExactly | kernel/src/multitask.c:269-277 | For sizes up to 2^31 (above which the loop of `ceil_log2` does not end), a request is accepted iff it is for 1 to 14 threads and at most 32 locks and it fits or its product is a multiple of 2^32 |
| Stacks.OversizedAccepted | kernel/src/multitask.c:269-277 | Seven threads with stacks of half a gigabyte are accepted |
| Stacks.ZeroBytesAccepted | kernel/src/multitask.c:269-277 | A size of 0 is accepted as stacks of one byte |
| Stacks.SlicesArePartition | kernel/src/multitask.c:283-304 | Slices of a request that fits have the common size, lie in the 32 kB below the top and are pairwise disjoint |
| Stacks.AlignedIsLeast | kernel/src/multitask.c:267-269 | The common size is the least power of two that holds the bytes asked for |
| Stacks.StacksAreProtected | kernel/src/multitask.c:127-137 | For every accepted request of 17 to 2^28 bytes, the region set up for a thread is aligned and legal and covers an address iff it is in that thread's stack, hence none of another thread's |
| Stacks.Mpu.RegionEnable | kernel/src/mpu.c:25-52 | It succeeds iff region, size and alignment are legal; the packed registers then decode to what was asked for, unprivileged code may read the region, and write it iff that was asked for; nothing else changes |
| Stacks.Mpu.RegionDisable | kernel/src/mpu.c:58-61 | The region is disabled and otherwise as it was |
| Stacks.Mpu.SwitchStacks | kernel/src/multitask.c:127-137 | After a switch regions 6 and 7 are exactly the thread's two stacks, or both off when the stacks are below 32 bytes |
| Stacks.PackIsSum | kernel/src/mpu.c:44-49 | The four RASR fields combined with or, as the code packs them, do not overlap |
| Stacks.DecodePacked | kernel/src/mpu.c:44-49 | The packed register decodes to its fields |
| Stacks.AndIsMod | kernel/src/mpu.c:36 | The alignment test with a mask is divisibility by the size |
| Stacks.CoversInterval | kernel/src/mpu.c:36-42 | An aligned enabled region covers exactly base to base plus size |
| Rtt.UpChannel.Write | kernel/src/rtt.c:48-83 | Whatever the host does between any two steps, exactly the given bytes are appended to what was written, and what the host consumed stays a prefix of it |
| Rtt.DownChannel.Read | kernel/src/rtt.c:91-121 | The next len bytes of the host's stream, in order, across wrap-around; no waiting if they were available |
| Rtt.DownChannel.Peek | kernel/src/rtt.c:128-139 | The count is never too large, however late the host's index is read |
| Rtt.DownChannel.SyscallRead | kernel/src/syscall.c:131-144 | It never spins: it returns min(len, waiting) or more if more arrived, exactly the next bytes; -1 iff an argument is invalid |
| Rtt.StoreThenPublish | kernel/src/rtt.c:71-79 | A stored byte is invisible until published, and then last |
| Rtt.TakeFirst | kernel/src/rtt.c:110-117 | Reading takes the first unread byte, also at the wrap |
| Printk.EveryFormatReads | kernel/src/printk.c:67-122 | Every text printed is one piece for each item of the format, in order, and each piece stands for its item: characters and strings as they are, nothing for an unknown letter, numbers as a reader of the letter gets them back |
| Printk.ConvertedReads | kernel/src/printk.c:79-96 | The text of `%u` is a decimal numeral of the argument modulo 2^32, of `%x`, `%X` and `%p` a hexadecimal one, of `%d` a signed decimal of the argument, of `%c` its low byte |
| Printk.Printk | kernel/src/printk.c:67-122 | The chunks handed to the ring concatenate to the expansion of the format, over any number of flushes; the value returned |
| Printk.Buffer.AppendChar | kernel/src/printk.c:24-38 | The printed text grows by exactly the character, flush or not |
| Printk.Buffer.AppendUnsigned | kernel/src/printk.c:43-62 | The digits sent are the numeral of the number |
| Printk.TopPower | kernel/src/printk.c:45-54 | The power of the leading digit, which never leaves 32 bits |
| Printk.PaddedIsDigits | kernel/src/printk.c:56-61 | Printing from the most significant digit gives the same numeral as collecting remainders |
| Printk.DigitsParseBack | kernel/src/printk.c:43-62 | The digits parse back to the number in its base |
| Printk.DigitsInjective | kernel/src/printk.c:43-62 | Different numbers print differently in the same base |
| Printk.NoLeadingZero | kernel/src/printk.c:43-62 | All characters are digits of the base; a leading zero only for zero |
| Printk.ExpandConcat | kernel/src/printk.c:67-122 | Printing two formats in a row is printing their concatenation |
| Printk.EscapeRoundTrip | kernel/src/printk.c:106-107 | Any text with its percent signs doubled prints as itself |
| Pix.EveryHistoryReads | kernel/src/pix.c:18-84 | After any series of calls the buffer holds one pulse for each bit and then 80 microseconds of low line, and each light, told 1 from 0 by the length of the pulse, reads green, red, blue, most significant bit first, the last colour written to it |
| Pix.DutyReads | kernel/include/pix.h:25-36 | Both encodings are high and then low within a period, and the one for 1 is high for more than half of it, the one for 0 is not |
| Pix.StepReads | kernel/src/pix.c:46-84 | A call gives its light the colour and changes no other light and not the tail; out of range it changes nothing |
| Pix.Buffer.Init | kernel/src/pix.c:29-38 | The array fill |
| Pix.Buffer.ColorSet | kernel/src/pix.c:46-84 | The three loops, in place, take the step the lemmas are about |

## Left out

- Stack frames, saved stack pointers, the SVC status bit and the assembly handlers: scheduling does not depend on them; they are not part of this model.
- Warnings printed by the kernel, and `active_thread_holds_locks`, which only decides about one.
- MemFault handling, and the fixed regions 0 to 5 set up by `mpu_enable`; the kernel-only protection mode.
- A tick that lands inside a system call before its PendSV.
- Exclusive monitors and the spinning `mutex_lock`: the lock protocol uses only `mutex_try`, modelled as one atomic attempt.
- Float rounding of the utilization: exact real numbers.
- Full schedulability of all threads: the bound table is rounded and budgets are refreshed one tick early, so only the budget bound and the most urgent thread's service are claimed.
- Kernel.Kernel.ThreadDefine: the error return for a definition before `multitask_request` is not modelled, nor what the write outside the thread table does after an accepted id and period of 0xFFFFFFFF; the result `inside` says exactly when it comes.
- Kernel.Kernel.BlockOn: what the code overwrites when the wait list is full, and the access through the null locker of an open lock, are not modelled; the result `inside` says exactly when the list is full.
- Kernel.Kernel.SyscallLock: one call covers the first pass of the loop; later passes are `Kernel.Kernel.AttemptLock`.
- Kernel.Kernel.ThreadEnd: the PendSV pended by each inner unlock takes effect at the end; see `RunTheorems.InterleavedEnd`.
- Runs.DefineKeeps: accepted definitions while a lock is held or asked for are not covered; `RunTheorems.DefineInheritanceIff` says what they do to inherited priorities.
- Kernel.Kernel.AttemptLock: the endless loop of `syscall_lock` is one pass for each time the thread is scheduled, with the lock asked for kept in the control block in place of the saved program counter.
- Stacks.StackTable.Request: the remaining initialisation of control blocks and the fixed regions of kernel-only protection.
- Printk.Printk: the count of characters is unbounded, where the code uses an `int`; a lone percent sign at the end of a format, which makes the code read past it, is excluded; the magnitude of the least `int` is taken to be 2^31.
- Rtt.UpChannel.Write: a host that never reads again, which makes the code wait for ever, is excluded; memory barriers are represented by the order of the steps.
- GPIO, PWM, I2C, ADC, timers, the ultrasonic sensor, the stepper, `sbrk`, `systick_delay` and reset: register plumbing and simple counters.
