# K42 protocols and data structures, verified

K42 is a research operating system. This project models the concurrent protocols of its Linux
compatibility layer (`lib/lk`), the file-descriptor table of its Linux emulation
(`kitch-linux/lib/emu`), the trace ring walk (`bin`) and a hot-swappable counter (`usr`), and
proves what they promise.

Code that several threads run at once is a step machine: a `State`, an `Action` type, `Enabled`,
`Apply`, and `Run` from `Init` over any sequence of actions. Program counters are fields of the
thread records, and a step is what the code does between two points at which another thread can
interfere: one atomic instruction, one locked section, or the code between `Scheduler::Disable`
and `Enable`. There is no bound on the number of threads, CPUs, timers, works or steps. Theorems
about every run take `Reachable(s)`. Code that one thread runs to its end is a method, or a class
whose methods change its fields, proved against a specification function.

| file | source | contents |
|---|---|---|
| `WorkQueue`, `WorkQueueProof`, `WorkQueueTheorems`, `WorkQueueCalls` | `lib/lk/workqueue.C` | queuers, delayed-work timers, workers and flushers |
| `Timers`, `TimerProof`, `TimerTheorems`, `TimerCalls`, `TimerRuns` | `lib/lk/Timer.C` | timer bases, the expired and purge lists, `delTimer`, `__mod_timer` |
| `TimerRace` | `lib/lk/Timer.C` | a deleter and a runner that hold different locks, access by access |
| `TimerLocking` | `lib/lk/Timer.C` | the order in which timer locks and anchor locks are taken |
| `TimerList` | `lib/lk/Timer.C` | the linked list of expired timers, reversed in place |
| `VpLocks` | `lib/lk/Locks.C` | the packed preempt count, flags, groups and bars of one thread |
| `VpExclusion`, `VpExclusionProof`, `VpExclusionTheorems`, `VpExclusionCalls` | `lib/lk/LinuxEnv.C`, `lib/lk/Locks.C` | all threads of one virtual processor |
| `KernelLock` | `lib/lk/Locks.C` | `lock_kernel` and `unlock_kernel` |
| `VirtualCpu` | `lib/lk/LinuxMode.C` | `setCPU` and `freeCPU` |
| `FdBits`, `FdTable`, `FdTheorems` | `kitch-linux/lib/emu/FD.C`, `FD.H` | bit vectors, the table, the map it stands for |
| `PollList` | `kitch-linux/lib/emu/FD.C` | blocked polls and `setPollStatus` |
| `DevRing`, `DevTree`, `DevFs` | `lib/lk/LinuxDevFS.C` | sibling rings, the tree and its paths, directories, devices and removals |
| `TraceDump` | `bin/traceDump.C` | the walk over the trace ring |
| `IntCtr` | `usr/intctr.C`, `usr/intctr.H` | shared and partitioned counters and the switch between them |
| `Prelude` | | definitions shared by the others |

Where the code and its comments or obvious intentions part, the model follows the code. For each
such place a member says exactly when the intended property holds, and another, or the same one,
gives a case in which it does not:

- `__mod_timer` passes a null base to `locked_discard` exactly if the timer is disarmed while it
  waits for the anchors (`ModTimerFaultsIffDisarmed`); `ModTimerFaults` is a run in which it does.
- `del_timer` can act under an anchor that is no longer the timer's, and then files a base on the
  purge list of the wrong virtual processor (`DeleterKeepsHomeIffSettled`,
  `UnsettledDeleteMisfiles`). The runner of that virtual processor can later delete the base
  under the `handleEvent` of its own (`UnsettledDeleteFreesReached`). A deletion leaves something
  that still has the base exactly in this case (`FreesReachedExact`), and never without such a
  deleter (`SettledFreedIsUnreachable`). It is then that handleEvent's assertion on the state
  fails (`HandlerAssertionExact`). The other timer theorems allow such deleters, but only as
  long as a deleter's locked section is one step.
- Such a deleter holds another lock than the runner, so its section is not one step.
  `TimerRace` has every interleaving of the two on one base and says exactly when the function
  of a discarded arming is called (`DiscardedCalledExact`, `DiscardedCalled`), when the runner
  follows a null timer (`NullTimerExact`, `NullTimerFollowed`), when the deleter follows a null
  base (`NullBaseExact`, `NullBaseFollowed`) and when it writes to a deleted one (`FreedExact`,
  `FreedWritten`). Under one lock none of these happens (`OneLockIsSafe`).
- `second` is not reset at `repeat` in `__mod_timer` (`RepeatSelfDeadlocks`). No run gets there
  (`TimerLocking.NeverRepeats`, `TimerTheorems.NeverRepeats`).
- An irqsave pair is clean and restores the state exactly if counts, flags and bars agree
  (`IrqPairNeedsAgreement`). After a plain interrupt disable they do not, whatever its caller
  adds to flag and count (`IrqSaveAfterDisable`).
- `findZero` skips a word whose free bits are all below `from` (`FindZeroExact`, `GapExample`), so
  `allocFD` can take a descriptor in use (`AllocInGapExact`, `AllocOverActive`, `AllocDropsFile`).
- `replaceFD` writes past the table exactly for the descriptor FD_MAX (`Table.ReplaceFD`);
  `closeFD`, `freeFD` and `setCOE` leave the table for every descriptor outside it.
- A close leaves the ref behind, against the comment in `FD.H` (`CommentAfterCloseExact`,
  `CloseLeavesRef`), so `copyFDs(1)` can follow a null reference (`Table.CopyFDs`, `ExecDangles`).
- Reopening a lazy descriptor drops its close-on-exec mark (`LookupKeepsMarkExact`,
  `LookupLosesMark`). The comment in `FD.C` says the kernel keeps its lazy state then; the kernel
  code drops it.
- A poll is woken by its first entry for a descriptor only (`WokenExact`, `SecondEntryMissed`).
- `k42devfs_register` tests the whole name where the last component is meant. It makes a second
  sibling of one name exactly if the path led somewhere, and its assertion notices exactly if
  the name has no slash (`Tree.Register`). A removal then does not make the path lead nowhere
  (`Tree.Remove`, `RemoveLeavesTwin`).
- The trace loggers mark buffers that were never written as full. `traceDump` counts such a
  buffer for ever if a word in it has length zero (`AdvancesExact`, `PrintLastEvents`,
  `FreshRingEndless`). It keeps to the written buffers exactly if all are written, one of them
  is not complete, or they hold enough events (`OnlyWrittenIffSafe`, `WholeRingUnsafe`).
- A shared counter that no virtual processor has used loses its value in a switch
  (`SwitchKeepsValueExact`, `UntouchedSharedLoses`).

## Model

| member | source | states |
|---|---|---|
| WorkQueueTheorems.NoWorkStranded | lib/lk/workqueue.C:96-231 | In every reachable state a non-empty worklist has its marker set, or a queuer between list add and compare-and-store, or a worker between clearing the marker and the end of its recheck. |
| WorkQueueTheorems.OneWorkerPerQueue | lib/lk/workqueue.C:207-231 | The marker is set exactly while the queue has a worker that serves it, and no queue ever has two. |
| WorkQueueTheorems.HolderMoves | lib/lk/workqueue.C:106-116 | In every reachable state the thread that holds a queue's lock can take its next step. |
| WorkQueueTheorems.NeverWedged | lib/lk/workqueue.C:96-231 | While a worklist is non-empty some thread of that queue can take a step. |
| WorkQueueTheorems.AllRunAtRest | lib/lk/workqueue.C:170-231 | When every queuer and worker has returned, each worklist is empty and the works completed are exactly those added, in the order added. |
| WorkQueueTheorems.SleeperHasWork | lib/lk/workqueue.C:170-276 | No wake-up is lost: a flusher asleep on work_done still has work to wait for, as long as fewer than 2^63 works passed since it sampled. |
| WorkQueueTheorems.NoFlushWaitsAtRest | lib/lk/workqueue.C:247-276 | At rest no flusher is asleep and none goes to sleep again, as long as fewer than 2^63 works passed since it sampled; the counters wrap at 64 bits. |
| WorkQueueTheorems.EachCallOnce | lib/lk/workqueue.C:96-199 | Executions of a work never exceed its insertions, nor these its accepted calls, which are at most one ahead; accepted calls and insertions are equal when the work is not pending, and all three at rest once its timer is not armed. |
| WorkQueueTheorems.OnePlace | lib/lk/workqueue.C:102-109 | A work is on at most one list, at most once, even if its function queues it again. |
| WorkQueueTheorems.BugOnsNeverFire | lib/lk/workqueue.C:96-199 | The BUG_ON conditions on the list entry, the timer and wq_data are never true. |
| WorkQueueTheorems.RunIsLater | lib/lk/workqueue.C:96-276 | Over any run the added and completed sequences of every queue only grow at their ends, and a flusher keeps what it was called with. |
| WorkQueueTheorems.FlushCompletesEarlierWork | lib/lk/workqueue.C:247-276 | When a flush returns, every work added to an online queue before it was called has finished, whatever ran meanwhile. |
| WorkQueueTheorems.SequencesCountOutstanding | lib/lk/workqueue.C:67-80 | In every reachable state insert_sequence minus remove_sequence, in 64-bit arithmetic, is the list length plus the work in flight, at most one, less one while a queuer is between its list add and its increment. |
| WorkQueueProof.ReachableInv | lib/lk/workqueue.C:96-276 | Every reachable state satisfies the joint invariant of locks, markers, servers, order, counters, pending bits, wq_data, tallies and flush targets. |
| WorkQueueCalls.AcceptedIffNotPending | lib/lk/workqueue.C:102-103 | A queue call is accepted if and only if the work's pending bit was clear, and has returned at once otherwise; either way the bit is set. |
| WorkQueueCalls.QueueWorkAdds | lib/lk/workqueue.C:96-122 | Whatever runs meanwhile: by the time queue_work returns it has put the work on the list of its own queue once and on no other, and returns true, if the bit was clear; otherwise it has put nothing anywhere and returns false. |
| WorkQueueCalls.QueuedWorkCompletes | lib/lk/workqueue.C:96-231 | A work accepted by queue_work is among those completed since, once everything is at rest. |
| WorkQueueCalls.QueueDelayedWorkArms | lib/lk/workqueue.C:148-168 | By the time queue_delayed_work returns it has armed the work's timer once, and returns true, if the bit was clear; otherwise it has armed nothing and returns false. |
| WorkQueueCalls.QueueDelayedWorkWaits | lib/lk/workqueue.C:148-168 | It puts nothing on a list itself. |
| WorkQueueCalls.ArmsForItsQueue | lib/lk/workqueue.C:158-163 | The step that arms the timer leaves it armed for the queue of the call. |
| WorkQueueCalls.ArmedKeepsQueue | lib/lk/workqueue.C:96-168 | While the timer is armed nobody changes the queue it is for. |
| WorkQueueCalls.TimerExpiryAdds | lib/lk/workqueue.C:124-146 | By the time the timer function returns it has put the work on the list of that queue once and on no other. |
| WorkQueueCalls.ToLongExact | lib/lk/workqueue.C:71-72 | A counter holds its value modulo 2^64, in the range of a signed 64-bit number. |
| TimerTheorems.NeverFreedTwice | lib/lk/Timer.C:370-481 | No timer base is deleted twice in any run. |
| TimerTheorems.FreedReachedExact | lib/lk/Timer.C:370-481 | In every run a deleted base is on no list or queue and no timer refers to it; something still has it if and only if that is a handleEvent already entered. |
| TimerTheorems.FreesReachedExact | lib/lk/Timer.C:460-481 | A step deletes a base that something still has if and only if it is cleanUp, on another virtual processor than the base's, while the base's own is inside handleEvent for it. |
| TimerTheorems.SettledFreedIsUnreachable | lib/lk/Timer.C:370-481 | When no deleter used a stale anchor, nothing at all still has a deleted base, and cleanUp deletes bases of its own virtual processor only. |
| TimerTheorems.ListsAreDisjoint | lib/lk/Timer.C:249-289 | A base on its way to runTimer is on no purge or cleaning list and not scheduled, on any virtual processor, and those lists hold it once. |
| TimerTheorems.PurgedOnce | lib/lk/Timer.C:437-481 | A base is on one purge or cleaning list at most, over all virtual processors, and once. |
| TimerTheorems.EachArmingRunsOnce | lib/lk/Timer.C:370-435 | The function of each arming is called at most once, by its own virtual processor, and never for a discarded arming, with every locked section one step. |
| TimerTheorems.DiscardIsFinal | lib/lk/Timer.C:437-456 | Whatever follows, a discarded arming stays discarded. |
| TimerTheorems.CallsFollowExpiryOrder | lib/lk/Timer.C:249-429 | What has been called is the undiscarded part of a prefix of what fired, in the order in which handleEvent's compare-and-store succeeded, across all batches, with every locked section one step. |
| TimerTheorems.ExpiredIsWatched | lib/lk/Timer.C:265-289 | A non-empty expired list has an Event pending, a pusher about to schedule one, a softirq raised, or a runner about to swap it. |
| TimerTheorems.AllCalledAtRest | lib/lk/Timer.C:249-429 | With no handler, runner, Event or softirq under way on a virtual processor, everything that fired was taken and the functions called are exactly those of the fired and undiscarded armings, in order, with every locked section one step. |
| TimerTheorems.HandlerAssertionExact | lib/lk/Timer.C:249-274 | handleEvent finds its base Waiting or Discarded, as it asserts, if and only if cleanUp has not deleted it, and Reset otherwise; its push never loses the compare-and-store. |
| TimerTheorems.RunnerAssertionsHold | lib/lk/Timer.C:399-409 | runTimer never finds a base of its batch still Waiting. |
| TimerTheorems.ModTimerFaultsIffDisarmed | lib/lk/Timer.C:498-533 | From any reachable state in which the modifier of an armed timer waits for the anchors, its section discards a null base exactly if some step in between disarmed the timer. |
| TimerRuns.ModTimerFaults | lib/lk/Timer.C:498-533 | A run from the initial state that ends in that fault. |
| TimerTheorems.StaysDisarmed | lib/lk/Timer.C:498-533 | While a modifier holds the timer's lock nobody arms the timer again. |
| TimerCalls.DelTimerDiscards | lib/lk/Timer.C:325-368 | If the timer is armed when del_timer or del_timer_sync is called and nobody else takes that arming from it meanwhile, the call returns with the arming discarded, and returns true. |
| TimerCalls.DelTimerResultExact | lib/lk/Timer.C:325-368 | The call returns true if and only if one of its own locked sections discarded an arming. |
| TimerCalls.SyncReturnsUnarmed | lib/lk/Timer.C:348-366 | del_timer_sync returns only from a step that finds the timer not armed. |
| TimerCalls.ReturnsAtOnce | lib/lk/Timer.C:325-343 | A call that returns without looking found the timer not armed. |
| TimerCalls.ModTimerArms | lib/lk/Timer.C:484-557 | Unless it faults, __mod_timer returns true if and only if the timer was armed when its lock was taken, leaves it armed with a new base that waits, scheduled on the virtual processor of the call, and has discarded what it was armed with. |
| TimerCalls.ExpiredIsCalled | lib/lk/Timer.C:249-429 | An arming that expires has had its function called by the time its virtual processor is at rest, unless it was discarded. |
| TimerCalls.RunTimerCleansUp | lib/lk/Timer.C:370-481 | What is on the purge list when runTimer starts has been deleted by the time it ends. |
| TimerCalls.FiredIsDeletedAtRest | lib/lk/Timer.C:370-435 | At rest everything that fired has been deleted. |
| TimerTheorems.DeleterKeepsHomeIffSettled | lib/lk/Timer.C:335-368 | A deleter's section keeps every base on its own virtual processor's lists exactly if the anchor it read is still the timer's, or the base is no longer Waiting. |
| TimerRuns.UnsettledDeleteMisfiles | lib/lk/Timer.C:335-368 | A run from the initial state after which one virtual processor's purge list holds a base scheduled on another. |
| TimerRuns.UnsettledDeleteFreesReached | lib/lk/Timer.C:335-481 | A run in which the base so misfiled is reset and deleted while the other virtual processor is inside handleEvent for it. |
| TimerRace.DiscardedCalledExact | lib/lk/Timer.C:346-430 | In any interleaving of a runner and a deleter that hold different locks, the function of a discarded arming is called if and only if the deleter had loaded the base when the runner cleared timer->base and had set its state when the call was made. |
| TimerRace.NullTimerExact | lib/lk/Timer.C:346-430 | The runner follows a null timer if and only if the deleter cleared base->timer after the runner's test and before its last use. |
| TimerRace.NullBaseExact | lib/lk/Timer.C:346-430 | The deleter follows a null base if and only if the runner cleared timer->base between the deleter's test and its load. |
| TimerRace.FreedExact | lib/lk/Timer.C:346-430 | The deleter writes to a deleted base if and only if the runner deleted it between the deleter's load and its last write. |
| TimerRace.OneLockIsSafe | lib/lk/Timer.C:346-430 | When the deleter's section does not overlap the runner's, none of the four happens. |
| TimerRace.DiscardedCalled | lib/lk/Timer.C:346-430 | An interleaving in which the function of a discarded arming is called. |
| TimerRace.NullTimerFollowed | lib/lk/Timer.C:346-430 | One in which the runner follows a null timer. |
| TimerRace.NullBaseFollowed | lib/lk/Timer.C:346-430 | One in which the deleter follows a null base. |
| TimerRace.FreedWritten | lib/lk/Timer.C:346-430 | One in which the deleter writes to a deleted base. |
| TimerTheorems.NeverRepeats | lib/lk/Timer.C:522-526 | In every run a modifier that gets the anchors' locks finds the timer's anchor unchanged. |
| TimerProof.ReachableInv | lib/lk/Timer.C:249-557 | Every reachable state satisfies the invariant of homes, links, places and views of each base, pipelines of each virtual processor and callers. |
| TimerLocking.NoWaitCycle | lib/lk/Timer.C:345-548 | No ring of threads, of any length, waits for each other's timer and anchor locks. |
| TimerLocking.SomeoneMoves | lib/lk/Timer.C:345-548 | As long as some call has not returned, some thread can take a step. |
| TimerLocking.NeverRepeats | lib/lk/Timer.C:498-526 | Under any schedule of the locks, the modifier's section succeeds the first time. |
| TimerLocking.SectionIsLocked | lib/lk/Timer.C:498-548 | In its section a modifier holds the timer's lock, its own anchor's and that of the anchor the timer is on, and nobody else holds any of them. |
| TimerLocking.ModTimerSets | lib/lk/Timer.C:484-557 | A modifier that has returned had set the timer's anchor to its own when it did. |
| TimerLocking.UseAnchorHolds | lib/lk/Timer.C:345-481 | A call that uses one anchor waits for its lock, holds it alone, or has returned. |
| TimerLocking.RepeatSelfDeadlocks | lib/lk/Timer.C:504-526 | Were entry.next to change, the second pass would wait for a lock it holds exactly if the first pass took the other anchor first and the second finds no other anchor. |
| TimerList.Push | lib/lk/Timer.C:265-270 | The list is the pushed node followed by the old list. |
| TimerList.Reverse | lib/lk/Timer.C:373-396 | The loop leaves the same nodes linked in the opposite order. |
| TimerList.Drain | lib/lk/Timer.C:398-404 | The loop handles the nodes in list order and unlinks each. |
| TimerList.RunBatch | lib/lk/Timer.C:370-429 | Nodes are handled in the order in which they were pushed, and none stays linked. |
| VpLocks.Vp.SpinLock | lib/lk/Locks.C:134-159 | From an agreeing state with room the preempt field goes up by one, the other fields stay, and counts, flags, groups and bars agree again; in an interrupt no group or bar changes. |
| VpLocks.Vp.SpinUnlock | lib/lk/Locks.C:161-188 | From an agreeing state the preempt field goes down by one and the state agrees again, unless this would leave a hardirq count without a preempt count. |
| VpLocks.Vp.SpinLockIrq | lib/lk/Locks.C:191-220 | From an agreeing state with room the preempt and hardirq fields go up by one and the state agrees again. |
| VpLocks.Vp.SpinLockIrqSave | lib/lk/Locks.C:222-255 | The same, and the value saved is the hardirq field before the lock. |
| VpLocks.Vp.SpinUnlockIrqRestore | lib/lk/Locks.C:257-304 | With the value saved by the innermost irqsave lock, both fields go down by one and the state agrees again. |
| VpLocks.Vp.SpinUnlockIrq | lib/lk/Locks.C:306-343 | From an agreeing state with interrupts disabled the preempt field goes down by one, the hardirq field to zero, and the state agrees again. |
| VpLocks.Vp.Execute | lib/lk/Locks.C:134-304 | The methods, called in the order of any well-nested program within the bit fields, leave every field as it was. |
| VpLocks.NestingRestores | lib/lk/Locks.C:134-304 | Every well-nested program of spin and irqsave pairs within the bit fields restores count, flags, bars and groups exactly. |
| VpLocks.CleanThroughout | lib/lk/LinuxEnv.C:384-436 | At every point inside such a program the count and flag conditions of assertClean hold, and counts, flags and bars agree both ways. |
| VpLocks.IrqPairNeedsAgreement | lib/lk/Locks.C:222-304 | From any state with room in the fields an irqsave pair is clean throughout and restores the state if and only if the state agrees, or is in interrupt mode with interrupts disabled and without its flag. |
| VpLocks.IrqSaveAfterDisable | lib/lk/LinuxEnv.C:249-266 | After __local_irq_disable an irqsave pair restores the state if and only if the caller set the flag and raised the hardirq field; the state inside is clean if and only if it did not set the flag; without a raised field interrupts end up enabled. |
| VpLocks.IrqUnlockExact | lib/lk/Locks.C:191-343 | The spin_lock_irq pair restores an agreeing state if and only if interrupts were enabled on entry. |
| VpExclusionTheorems.OneThreadOutside | lib/lk/LinuxEnv.C:293-371 | While a non-interrupt thread counts towards the preempt count it is the only one outside the syscall group and no other non-interrupt thread can run. |
| VpExclusionTheorems.CountIsNesting | lib/lk/Locks.C:134-304 | The preempt and hardirq counts are exactly the nesting of at most one non-interrupt thread and one interrupt; the flags and the syscall and interrupt bars are set exactly as these two require. |
| VpExclusionTheorems.OneInterrupt | lib/lk/LinuxEnv.C:339-360 | While one interrupt environment is past its entry, the interrupt group is barred, no second one gets past entry and no non-interrupt thread can run. |
| VpExclusionTheorems.EntryAssertionsHold | lib/lk/LinuxEnv.C:321-360 | The assertions made on entry hold in every run. |
| VpExclusionTheorems.DestroyAssertionHolds | lib/lk/LinuxEnv.C:439-500 | When destroy turns to the softirqs, and when it comes back from them, the preempt count is zero and nothing is barred. |
| VpExclusionTheorems.InterruptRestores | lib/lk/LinuxEnv.C:339-461 | Whatever happens between an interrupt's entry and its destroy, the destroy finds the counts the entry found, leaves counts, flags and bars as they were before, and no other thread has moved. |
| VpExclusionTheorems.UnlockAssertionHolds | lib/lk/Locks.C:172-175 | An unlock finds the preempt field non-zero. |
| VpExclusionTheorems.RunningIsClean | lib/lk/LinuxEnv.C:384-436 | Between calls the running thread passes assertClean's count and flag conditions. |
| VpExclusionTheorems.OneSurvivor | lib/lk/LinuxEnv.C:463-488 | At most one interrupt waits to run the softirqs. |
| VpExclusionTheorems.NeverWedged | lib/lk/LinuxEnv.C:293-515 | As long as there is an environment, some thread can run. |
| VpExclusionTheorems.AtRest | lib/lk/LinuxEnv.C:439-515 | When every environment has gone the virtual processor is as it began. |
| VpExclusionCalls.EntryTakesEffect | lib/lk/LinuxEnv.C:293-371 | A new environment is there, in its mode, until it is destroyed; a system call that has entered and holds no lock is in all three groups; an interrupt that has entered has its flag set and its group barred, and is in no group. |
| VpExclusionCalls.InterruptGoesOn | lib/lk/LinuxEnv.C:461-475 | The destroy of an interrupt makes it the survivor and puts it in all three groups if the slot is free; otherwise it is gone and the survivor is still there. |
| VpExclusionCalls.DestroyRunsSoftirqs | lib/lk/LinuxEnv.C:439-515 | After any destroy one environment, this one or the survivor, is bound for the softirqs and goes only by leaving them; it has the survivor's slot if and only if it still waits to run them. |
| VpExclusionCalls.LeaveEnds | lib/lk/LinuxEnv.C:494-515 | Leaving the softirqs ends the environment, with nothing counted or barred, and changes nothing else. |
| VpExclusionCalls.LockCallsTakeEffect | lib/lk/Locks.C:134-304 | Whatever runs meanwhile: a thread back from a lock call holds that lock innermost, back from an unlock call all but the innermost; with a lock held the syscall group is barred, with an irqsave lock innermost interrupts are too. |
| VpExclusionProof.ReachableInv | lib/lk/LinuxEnv.C:293-515 | In every reachable state thread_info and the bars are a function of the one thread outside the syscall group and the one active interrupt, and every other thread bars and counts nothing. |
| KernelLock.OwnerTestIsExact | lib/lk/Locks.C:356-366 | The unlocked owner test succeeds for a thread if and only if it already holds the lock. |
| KernelLock.OwnerHoldsLock | lib/lk/Locks.C:356-376 | The owner holds the global lock, and between calls the depth is its nesting. |
| KernelLock.MutualExclusion | lib/lk/Locks.C:356-376 | No two threads are ever inside. |
| KernelLock.ReleasedWithOutermost | lib/lk/Locks.C:368-376 | unlock_kernel gives the lock up exactly when it undoes the outermost lock_kernel. |
| KernelLock.CallsTakeEffect | lib/lk/Locks.C:356-376 | Whatever runs meanwhile: a thread back from lock_kernel owns the lock one level deeper; back from unlock_kernel it is one level less deep, and owns the lock if and only if a level is left. |
| VirtualCpu.HoldersDistinct | lib/lk/LinuxMode.C:111-138 | Threads that have a CPU have different ones, all below NR_CPUS. |
| VirtualCpu.SetCpuAssertionsHold | lib/lk/LinuxMode.C:117-122 | The mask read is never zero and the CPU found is below NR_CPUS. |
| VirtualCpu.AllReturned | lib/lk/LinuxMode.C:56-138 | At most NR_CPUS threads are between P and V; when none is, all permits and all bits are back. |
| VirtualCpu.SetCpuGivesOne | lib/lk/LinuxMode.C:111-123 | setCPU does not return without a CPU. |
| VirtualCpu.CpuIsKept | lib/lk/LinuxMode.C:111-138 | A thread keeps its CPU until it calls freeCPU. |
| VirtualCpu.FreeCpuPutsBack | lib/lk/LinuxMode.C:126-138 | The step of freeCPU that succeeds puts the CPU's bit back in the mask, where it was not, and changes no other. |
| VirtualCpu.FreeCpuGivesBack | lib/lk/LinuxMode.C:126-138 | Once it has called freeCPU, a thread is giving that CPU back or has done so. |
| VirtualCpu.Lowest | lib/lk/LinuxMode.C:118-121 | The bit found is the lowest one of a mask that is not zero. |
| FdBits.FindFirstZeroInWord | kitch-linux/lib/emu/FD.C:533-567 | The halving search returns the lowest zero bit of every word, and 64 for all ones. |
| FdBits.FindZero | kitch-linux/lib/emu/FD.C:575-597 | Without a gap the search gives the least free bit at or above `from`, or none if all are set; in a gap it gives the first bit of the next word. |
| FdBits.FindZeroExact | kitch-linux/lib/emu/FD.C:585-592 | In a gap that answer is right if and only if it lies in the vector and is free. |
| FdBits.NoGapAtBoundary | kitch-linux/lib/emu/FD.C:581-592 | There is no gap at a word boundary. |
| FdBits.GapExample | kitch-linux/lib/emu/FD.C:585-592 | A vector in which a search from 1 gives a bit in use. |
| FdBits.SetBit | kitch-linux/lib/emu/FD.H:54 | Exactly the one bit is added. |
| FdBits.ClrBit | kitch-linux/lib/emu/FD.H:53 | Exactly the one bit is removed. |
| FdTable.Table.constructor | kitch-linux/lib/emu/FD.C:318-341 | A new table stands for the empty map. |
| FdTable.Table.Inherit | kitch-linux/lib/emu/FD.C:318-361 | An inherited table stands for exactly what the server kept, all of it lazy. |
| FdTable.Table.GetFD | kitch-linux/lib/emu/FD.H:118-144 | The file of the descriptor, none if out of range or inactive, reopening it if lazy; no other descriptor changes. |
| FdTable.Table.Reopen | kitch-linux/lib/emu/FD.C:363-434 | The lazy bit, the coe bit and the server's entry go, the ref comes. |
| FdTable.Table.CloseFD | kitch-linux/lib/emu/FD.C:467-503 | The descriptor becomes inactive, its file is detached if and only if it was active with a live ref, and EBADF is given exactly if it was inactive; below zero and past the table the code goes astray. |
| FdTable.Table.FreeFD | kitch-linux/lib/emu/FD.C:440-465 | The descriptor becomes inactive and its file is handed back; outside the table the code goes astray. |
| FdTable.Table.ReplaceFD | kitch-linux/lib/emu/FD.C:505-531 | The new file is installed and the old one handed back; EMFILE exactly above FD_MAX; a write past the table exactly at FD_MAX. |
| FdTable.Table.AllocFD | kitch-linux/lib/emu/FD.C:634-655 | EINVAL exactly for a lowest descriptor out of range; without a gap the least inactive descriptor at or above it, or EMFILE when all are active; in a gap the first of the next word, or a write outside the table. |
| FdTable.Table.AllocLowest | kitch-linux/lib/emu/FD.C:634-655 | With the default lowest descriptor: the least inactive descriptor, or none if and only if all are active, the rule of open() in IEEE Std 1003.1. |
| FdTable.Table.SetCOE | kitch-linux/lib/emu/FD.C:710-722 | The mark changes exactly if the descriptor is active; outside the table the code goes astray. |
| FdTable.Table.CloseAll | kitch-linux/lib/emu/FD.C:728-747 | Every active descriptor is closed and every live ref detached once, in order. |
| FdTable.Table.CloseMarkedOnExec | kitch-linux/lib/emu/FD.C:658-694 | Exactly the marked descriptors are closed, and their live refs detached once, in order. |
| FdTable.DetachedExactly | kitch-linux/lib/emu/FD.C:658-747 | closeAll detaches exactly the live refs of the active descriptors, and closeOnExec those of the marked ones, each once, in the order of the descriptors. |
| FdTable.Table.CopyFDs | kitch-linux/lib/emu/FD.C:749-796 | A null reference is followed if and only if it is an exec and some active marked descriptor has a live ref; otherwise every slot is as the walk says and nothing is detached. |
| FdTheorems.CallRefines | kitch-linux/lib/emu/FD.C:363-796 | Each call, allocations in a gap and execAll included, keeps the invariant of every slot and has its effect on the map from descriptor to file and on the close-on-exec marks. |
| FdTheorems.RunRefines | kitch-linux/lib/emu/FD.H:97-144 | Any run of calls keeps coe and lazy inside active and exactly one of ref and lazy bit per active descriptor, and is a run of the map. |
| FdTheorems.PerformOne | kitch-linux/lib/emu/FD.C:363-796 | A call on the table succeeds if and only if it is none of the calls with which the code goes astray, and then has the effect of the call on the slots. |
| FdTheorems.Perform | kitch-linux/lib/emu/FD.C:363-796 | Any sequence of calls on a table is a run of the map, with the files detached call by call as specified, or is one up to the first call with which the code goes astray. |
| FdTheorems.FileLeavesOnlySo | kitch-linux/lib/emu/FD.C:363-796 | A live file leaves a descriptor only by being detached, handed back by freeFD or replaceFD, or overwritten by an allocation from inside a gap. |
| FdTheorems.DetachedIsClosed | kitch-linux/lib/emu/FD.C:467-747 | A file that a call detaches was live in a descriptor which that call closes. |
| FdTheorems.AllocInGapExact | kitch-linux/lib/emu/FD.C:585-592 | From inside a gap it gives the least inactive descriptor if and only if the first of the next word is in the table and inactive. |
| FdTheorems.AllocOverActive | kitch-linux/lib/emu/FD.C:649-652 | On an active descriptor it replaces the open file, and keeps the invariant if and only if that was not lazy. |
| FdTheorems.AllocDropsFile | kitch-linux/lib/emu/FD.C:585-592 | A table in which an allocation from 1 takes descriptor 64 and drops the file open there. |
| FdTheorems.ForkHandsOver | kitch-linux/lib/emu/FD.C:749-796 | forkAll leaves the map as it was and every open descriptor lazy. |
| FdTheorems.ExecHandsOver | kitch-linux/lib/emu/FD.C:749-796 | execAll without a dangling descriptor closes exactly the marked descriptors and leaves the others lazy. |
| FdTheorems.ExecDangles | kitch-linux/lib/emu/FD.C:770-787 | A table in which execAll follows a null reference. |
| FdTheorems.ForkThenInherit | kitch-linux/lib/emu/FD.C:318-361 | A child that inherits what fork handed over has the parent's files and no marks. |
| FdTheorems.LookupKeepsMarkExact | kitch-linux/lib/emu/FD.C:419-434 | A lookup keeps the marks if and only if the descriptor was not both marked and lazy. |
| FdTheorems.LookupLosesMark | kitch-linux/lib/emu/FD.C:419-434 | A table in which a lookup loses a mark. |
| FdTheorems.CommentAfterCloseExact | kitch-linux/lib/emu/FD.H:97-102 | A close keeps what the table's comment says if and only if the descriptor had no ref. |
| FdTheorems.CloseLeavesRef | kitch-linux/lib/emu/FD.H:97-102 | A table for which a close makes the comment false. |
| PollList.Polls.SetPollStatus | kitch-linux/lib/emu/FD.C:798-864 | The polls kept, the results of the polls taken off and the threads unblocked are those of the specification, in list order, despite the lag of one iteration; a poll stays if and only if what was given does not wake it, end of file counting as readable. |
| PollList.HitIffWakes | kitch-linux/lib/emu/FD.C:805-821 | A poll is woken if and only if the descriptor is destroyed, or its first entry for it asks for something given, or asks for reading at end of file. |
| PollList.ReventsExact | kitch-linux/lib/emu/FD.C:805-839 | A woken poll finds in its entry exactly what was given, and that it can read at end of file; it gets EINVAL if and only if the descriptor was destroyed. |
| PollList.UnblockedExactly | kitch-linux/lib/emu/FD.C:824-861 | A thread is unblocked if and only if it waits in a poll that what was given wakes. |
| PollList.WokenExact | kitch-linux/lib/emu/FD.C:815-821 | A poll with an entry that asks for what is notified is woken if and only if the descriptor is destroyed or its first entry for it asks; no other poll is woken. |
| PollList.SecondEntryMissed | kitch-linux/lib/emu/FD.C:815-821 | A poll with two entries that is not woken. |
| PollList.KeptExactly | kitch-linux/lib/emu/FD.C:815-821 | A poll stays if and only if the notification does not wake it. |
| PollList.Conserved | kitch-linux/lib/emu/FD.C:812-854 | Polls kept and polls woken are together the polls there were. |
| PollList.ResultsMatch | kitch-linux/lib/emu/FD.C:815-839 | A woken poll has no waiter and only its first entry for the descriptor filled in, with the state; it has EINVAL and its old waker under DESTROYED, success and the descriptor otherwise. |
| PollList.DestroyedLeavesNone | kitch-linux/lib/emu/FD.C:834-852 | After DESTROYED no blocked poll names the descriptor in any entry, and every poll that did was woken with EINVAL. |
| PollList.RousedInOrder | kitch-linux/lib/emu/FD.C:824-861 | The threads unblocked are those of the woken polls, in list order. |
| PollList.WaitersInOrder | kitch-linux/lib/emu/FD.C:824-861 | Polls that each have a thread have as many threads, in the same order. |
| PollList.UnblockedOnce | kitch-linux/lib/emu/FD.C:824-861 | If every blocked poll has a thread of its own, no thread is unblocked twice. |
| DevRing.AddInserts | lib/lk/LinuxDevFS.C:64-76 | addChild leaves one ring, in the order of findChild, with the new entry right after the first. |
| DevRing.DelRemoves | lib/lk/LinuxDevFS.C:77-90 | delChild leaves the ring of the others in that order. |
| DevRing.FindChild | lib/lk/LinuxDevFS.C:91-101 | The walk ends, and finds the first entry of the name in that order, if there is one. |
| DevRing.ShortExact | lib/lk/LinuxDevFS.C:91-101 | Names are told apart by their first 64 characters, and by where they end before that. |
| DevRing.ChildInserted | lib/lk/LinuxDevFS.C:64-101 | A new entry is found under its name unless the first child has it too. |
| DevTree.NewKeeps | lib/lk/LinuxDevFS.C:238-250 | A new entry keeps every ring a ring, children later than their directory and the root outside. |
| DevTree.PathUnique | lib/lk/LinuxDevFS.C:216-254 | An entry is reached by one path only, up to the 64 characters kept of a name. |
| DevTree.NewResolves | lib/lk/LinuxDevFS.C:238-250 | After a new entry that the first child does not hide, its path leads to it, paths that go on from there lead nowhere, and all others lead where they did. |
| DevTree.TwinEntry | lib/lk/LinuxDevFS.C:177-199 | A new entry of a name that is taken is found if and only if the other is not the first child, and then the other is lost. |
| DevTree.TwinUnreachable | lib/lk/LinuxDevFS.C:91-101 | Of two siblings of one name only one can be reached. |
| DevTree.DelKeeps | lib/lk/LinuxDevFS.C:289-298 | A removal keeps what a new entry keeps. |
| DevTree.DelAvoids | lib/lk/LinuxDevFS.C:256-300 | Paths that do not go through the entry removed lead where they did. |
| DevTree.DelThrough | lib/lk/LinuxDevFS.C:256-300 | The path of the entry removed, and every path beyond, leads where it leads from the next sibling of the name, or nowhere. |
| DevFs.JoinSplit | lib/lk/LinuxDevFS.C:216-240 | The components of a path hold no slash, and joined by slashes are the path. |
| DevFs.Tree.MkDir | lib/lk/LinuxDevFS.C:216-254 | The path leads to the entry returned; a path leads somewhere if and only if it did before or names a beginning of this one; those that did lead to the same entry; if the path led somewhere already nothing changes. |
| DevFs.Tree.Register | lib/lk/LinuxDevFS.C:136-200 | For names of fewer than 64 characters: a null directory is followed if and only if a directory after an empty component is missing; the new entry has a sibling of its name if and only if the path led somewhere; the assertion fails if and only if it did and the name has no slash; earlier paths keep their meaning if and only if the path was free or still leads to the old entry. |
| DevFs.Tree.Remove | lib/lk/LinuxDevFS.C:256-300 | Removes if and only if the path leads somewhere; then the path leads nowhere if and only if the entry had no sibling of its name, and all other paths are as DelAvoids and DelThrough say. |
| DevFs.RemoveLeavesTwin | lib/lk/LinuxDevFS.C:136-300 | A name registered twice without a warning that still leads somewhere after its removal. |
| TraceDump.LengthReadBack | lib/libc/trace/traceLib.H:22-43 | The length of an event is read back from its first word as the loggers write it. |
| TraceDump.AdvancesExact | bin/traceDump.C:74-78 | The counting loop ends if and only if no word it visits has length zero. |
| TraceDump.CountEvents | bin/traceDump.C:74-78 | It ends exactly then, with the number of its turns. |
| TraceDump.PrintEvents | bin/traceDump.C:31-43 | The walk around the ring ends if and only if following events from its start comes to its end, and prints exactly the walk to the first meeting. |
| TraceDump.FindStart | bin/traceDump.C:56-97 | For any words in the ring: the search ends if and only if every buffer it visits can be counted; it goes back over complete buffers until there are enough events or the run of complete buffers ends, with wrap-around. |
| TraceDump.PrintLastEvents | bin/traceDump.C:45-108 | It ends if and only if the search ends and the walk from the start found comes to the current index; if the buffers visited hold whole events it prints exactly the last min(numb, available) of those of the buffers taken, in ring order. |
| TraceDump.LastOfLongest | bin/traceDump.C:56-97 | These are the last events of the longest run of complete buffers that ends at the current index. |
| TraceDump.OnlyWrittenIffSafe | bin/traceDump.C:56-97 | The search keeps to buffers that were written if and only if all were, or one of those is not complete, or they hold enough events. |
| TraceDump.SafeTiles | bin/traceDump.C:45-108 | Then the program ends and prints whole events only. |
| TraceDump.WholeRingUnsafe | bin/traceDump.C:111-119 | The request that childMain makes is not safe before the last buffer is written, unless a written buffer is not complete. |
| TraceDump.FreshRingEndless | os/kernel/trace/trace.C:240-249 | A ring as TraceStart leaves it, on cleared memory, on which every request for an event is endless. |
| TraceDump.PrintedEndsAtIndex | bin/traceDump.C:99-108 | The last event printed runs up to the current index. |
| IntCtr.ReadValue | usr/intctr.H:199-210 | The loop over the representatives gives the sum, in whatever order they come. |
| IntCtr.AddCounts | usr/intctr.H:189-198 | inc and dec on any virtual processor change the value by one, whichever implementation is in place. |
| IntCtr.SwitchKeepsValueExact | usr/intctr.C:71-256 | Any interleaving of every virtual processor's export and import, in either direction and for every type the old counter offers, keeps the value if and only if some virtual processor used the old counter or the value was zero. |
| IntCtr.UntouchedSharedLoses | usr/intctr.C:224-238 | A shared counter of value five that nobody used becomes zero. |

## Left out

- TimerTheorems.FreesReachedExact: a deleter's locked section is one step here, also when its anchor is stale; TimerRace has its accesses one by one, but for one fired base and one runner only. The removal from another processor's queue that a comment at lib/lk/Timer.C:89-90 forbids is one step too.
- TimerTheorems.EachArmingRunsOnce: likewise; TimerRace.DiscardedCalledExact says when it fails.
- Registration failure of timers, and the Reset state of a base before it is registered; `add_timer_on` and its message, which store an array slot instead of an anchor.
- The wait of `del_timer_sync` for a running timer, of which nothing is claimed.
- `cancel_delayed_work`, and the creation of work queues with one thread.
- A work function that queues work is a queuer of its own; its other effects are not modelled.
- IntCtr.SwitchKeepsValueExact: counts are unbounded integers; the wrap-around of the 64-bit values is not modelled.
- Suspend and Resume of a Linux environment, and the debugging owner of a bar in `assertClean`.
- VpExclusionTheorems.RunningIsClean: `local_bh_disable` and with it the softirq conditions of assertClean; what changes the softirq count is in a Linux header that is not part of this repository.
- VpExclusionProof.ReachableInv: the softirq count, for the same reason; the preempt count is a record of two unbounded counters there, and the packing into bit fields is in VpLocks.
- VpLocks.NestingRestores: the widths of the bit fields, eight bits each, are those of Linux 2.6; the header that defines them is not part of this repository.
- The words of spin locks, and fairness of FairBLock; locks are atomic.
- FdTable.Table.CloseFD: poll objects of a descriptor are not part of the table here; PollList has the blocked polls.
- The chains of files that the server closes together, and files of unsupported types, which stop the program.
- The blocking part of `poll`, `smallPoll` and `select`.
- PollList.Polls.SetPollStatus: the search for the entry reads one entry past the array before it tests the bound; the model does not read it.
- Device creation in the server, whose outcome is a parameter of Register; a failed directory creation there is ignored, as in the code. `k42devfs_unregister`, and registration in a directory other than the root, which nothing in this repository does.
- DevFs.Tree.MkDir: the path is cut into components before the walk instead of during it.
- DevFs.Tree.Register: likewise; names of 64 characters or more, which `devfs_mk_cdev` and `devfs_mk_bdev` cut, keep the tree's invariant but nothing more is said of them; per cent signs, which `devfs_mk_dir` reads as a format.
- TraceDump.PrintLastEvents: the ring is a snapshot and its mask is a remainder.
- TraceDump.SafeTiles: that a buffer which was written and is complete holds whole events is a hypothesis there; the loggers in `lib/libc/trace/traceLib.H` are not modelled.
- VirtualCpu.AllReturned: `limit` is any number; the code's mask of NR_CPUS bits in a 64-bit word needs NR_CPUS below 64.
- Memory ordering below sequential consistency, tracing, and debug lists.
- `lib/lk/RCUCollector.C`, `lib/lk/Memory.H`, the remaining system calls of `kitch-linux/lib/emu`, and the programs in `bin` and `usr`: they depend on code outside this repository or add only easy members.
