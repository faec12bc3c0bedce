# A verified model of the single-core FreeRTOS kernel

This project models the FreeRTOS V11.1.0 kernel that the firmware is built on, in its single-core, preemptive
configuration (`Core/Inc/FreeRTOSConfig.h`), and proves what its protocols keep over every run.  Timers, event groups and
stream buffers are modelled as if they were switched on.

The kernel's state is described twice where it is updated in place.  Each component has a value model: a state datatype,
one function for each operation, and a `Next` that takes one atomic step (a critical section, a stretch with the scheduler
suspended, or one byte of a copy), so that a sequence of actions is an arbitrary interleaving of tasks and interrupts.
Beside it stand classes whose methods follow the C functions loop by loop and branch by branch, each proved to compute the
function of the value model.  History fields (a clock that does not wrap, the bytes ever accepted, the tasks woken and not
yet back) appear in states, and as ghost fields of the classes, whose methods therefore decide without them.

| files | what they model |
|---|---|
| `Clock`, `Arithmetic`, `Common`, `Rings` | 32-bit ticks against an unbounded clock, and the lists and rings used by the rest |
| `TimedLists`, `RoundRobin`, `CircularLists` | `list.c`: the intrusive circular lists, sorted insertion and round-robin order |
| `Kernel`, `KernelProofs`, `KernelEffects`, `Scheduler`, `StepTicks` | `tasks.c`: delayed lists, suspension, pended ticks, tick stepping |
| `Timeouts` | `tasks.c`: time-out accounting and `xTaskDelayUntil` |
| `Selection`, `ReadyQueues` | `tasks.c`: the ready lists and the choice of the next task |
| `Notifications`, `NotificationProofs`, `NotificationEffects` | `tasks.c`: notification take and give |
| `Mutexes`, `MutexProofs`, `MutexOwnership`, `MutexKernel` | `queue.c` and `tasks.c`: mutexes and priority inheritance |
| `PriorityInversion`, `PriorityDominance`, `EventListOrder`, `Preemption`, `PriorityRuns` | what inheritance and yields achieve, and where they stop |
| `QueueProtocol`, `QueueOutcomes`, `QueueRing` | `queue.c`: the blocking protocol, and the byte ring |
| `Timers`, `TimerProofs`, `TimerDaemon`, `TimerCallbacks`, `TimerCommands`, `TimerService` | `timers.c` |
| `StreamBuffers`, `StreamProofs`, `StreamRing`, `StreamWaits` | `stream_buffer.c` |
| `EventGroups`, `EventGroupProofs`, `EventGroupObject` | `event_groups.c` |

`dafny verify dfyconfig.toml` checks everything.

## The main results

- No wake-up is lost in any interleaving of blocking sends, receives and peeks with interrupts (`NoLostWakeUp`), and the
  cap on the lock counts costs nothing in any run (`CapNeverMatters`).  Items are conserved (`ItemsConserved`) and calls
  end only when they should (`EndsIff`).
- Tasks wake at their true time across wraps of the tick count (`EpochSplit`, `ExactWake`), through nested suspensions and
  pended ticks (`SuspensionProtocol`, `TicksCounted`); a signalled task is ready as soon as the scheduler is not suspended
  (`SignalledIsReady`), and a tickless sleep ends as the suppressed ticks would have (`StepRefinesTicks`).
- Mutex bookkeeping is exact over every run (`MutexInvariant`), and a recursive mutex is freed by the give that matches its
  first take (`FreedByLastGive`).  Nobody ever waits for a holder of lower priority if and
  only if three kinds of step avoid a condition that can be checked before them (`DominatesIff`); holding one mutex at a
  time, and testing a mutex only while no ready task has a higher priority, is enough (`NoPriorityInversion`).  Likewise
  exact are the conditions for event lists to stay in order of priority (`OrderedIff`) and for no ready task to be left
  above the running one without a yield (`AttendedIff`).
- Timers are filed and fired exactly on wrapping time (`PlacementExact`, `DaemonInvariant`), and an auto-reload timer gets
  every one of its callbacks once over every run (`CallbacksExact`), with none outstanding when the daemon blocks
  (`AllCalledBack`); a one-shot timer fires once (`OneShotOnce`), and every command does to its timer what it says, however
  late it is processed (`CommandExact`).
- The lock-free stream buffer delivers a prefix of what it accepted in every interleaving (`StreamSafety`), and message
  buffers deliver whole messages in order (`MessageRoundTrip`); a side that waits misses no wake-up
  (`NoLostStreamWakeUp`).
- Notifications are neither lost nor counted twice (`NoLostNotification`, `NothingLost`), and nothing else wakes a task that
  waits for one (`WokenIff`); no event-group waiter is
  left behind with its condition met (`SetBitsExact`, `NoWaiterSatisfied`).
- The byte ring of a queue is a bounded deque (`QueueRing.Queue`), the linked lists are sequences (`CircularLists.List`),
  and ready tasks take turns: each of n runs once in n selections of an unchanged list (`EachRunsOnce`), and within 2n
  whatever arrives and leaves (`PickedWithinTwoRounds`).

## Where the code falls short of what one might expect

- `xTaskCheckForTimeOut` can report that a wait goes on after it is over, if it is called after two or more overflows of
  the tick count: `CheckTooLate` is an instance and `CheckCorrectIff` the exact condition.
- `xQueueOverwrite` on a queue of items of size 0 that is full counts past the queue's length, because the branch that
  keeps the count is not reached: the contract of `Queue.Send` and `CountBoundedIff` give the exact condition,
  `OverwriteSemaphore` an instance.
- The comments of `vListInsertEnd` (`FreeRTOS-Kernel/include/list.h:343-352`) say that every other item is visited before a
  new one.  The item at the index comes after it, and it need not have been visited: when the running task blocks, the
  index steps back on to a task that is still waiting for its turn, and a task that becomes ready then gets in front of it.
  `CanBeOvertaken` is an instance, `ArriveAhead` says exactly when it happens, and `BoundedWaiting` and
  `PickedWithinTwoRounds` what still holds.
- Inheritance is not transitive, so a holder can have a lower priority than a task waiting for its mutex once tasks hold
  several: `NotTransitive` is a run from the start in which this happens, `DominatesIff` the exact condition.
- A task on an event list that inherits a priority is not moved, so the list can get out of order: `OrderBreaks` is a run
  in which it does, `OrderedIff` the exact condition.
- A ready task can be left above the running one without a yield.  A task that gives its last mutex back drops its
  inherited priority but yields only for the task it wakes, if it wakes one (`GiveIff`, and `YieldMissed` is a run in which
  this happens); and a time-out can raise a holder that is ready above the task that timed out (`GiveBackAboveIff`, and
  `RaiseMissesYield` is a run).
  `AttendedIff` is the exact condition over every run.

## Model

| member | source | states |
|---|---|---|
| QueueProtocol.NoLostWakeUp | FreeRTOS-Kernel/queue.c:939-1154 | in every interleaving, while a receiver is still on its unlocked list the items held are at most the tasks that left the list and have not tested the queue again; dually for senders and free slots |
| QueueProtocol.RunKeeps | FreeRTOS-Kernel/queue.c:1526-1648 | the whole protocol invariant, locked phases included, in every reachable state |
| QueueProtocol.UnlockKeeps | FreeRTOS-Kernel/queue.c:2494-2611 | playing the recorded events back on unlocking restores the balance of woken tasks and items |
| QueueProtocol.CapLosesNothing | FreeRTOS-Kernel/queue.c:265-300 | a lock count capped at the number of tasks wakes the same tasks as the uncapped count |
| QueueProtocol.CapNeverMatters | FreeRTOS-Kernel/queue.c:265-300 | in every run, unlocking a locked list wakes the tasks it would wake had every event been counted |
| QueueProtocol.SignalKeeps | FreeRTOS-Kernel/queue.c:1196-1321 | an interrupt that adds one unit keeps the balance, by waking a task or by recording the event |
| QueueProtocol.ServePeekKeeps | FreeRTOS-Kernel/queue.c:1907-1946 | a peek passes its wake-up on to the next waiting task |
| QueueProtocol.GuardedList.Release | FreeRTOS-Kernel/queue.c:2494-2611 | the unlock loop computes the specified unlocking of a list |
| QueueProtocol.GuardedList.SignalFromIsr | FreeRTOS-Kernel/queue.c:1196-1321 | waking the head, or counting up to the cap while locked |
| QueueOutcomes.ItemsConserved | FreeRTOS-Kernel/queue.c:2390-2491 | in every run the items in the queue are those it held and those sent, less those received, counted on the calls |
| QueueOutcomes.CountExact | FreeRTOS-Kernel/queue.c:2446-2467 | a send adds one item unless it overwrites, a receive takes one, nothing else changes the count |
| QueueOutcomes.EndsIff | FreeRTOS-Kernel/queue.c:1526-1648 | a call ends at its test, served or without time to wait, or after a time-out, and in no other way |
| QueueOutcomes.GivesUpIff | FreeRTOS-Kernel/queue.c:1601-1648 | a call goes on to give up only when it finds its time run out |
| QueueOutcomes.BlockingCallWaits | FreeRTOS-Kernel/queue.c:1595-1628 | an undisturbed call that cannot be served ends up blocked on the list, with the queue unlocked and the scheduler resumed |
| QueueOutcomes.WokenIsServed | FreeRTOS-Kernel/queue.c:1526-1563 | a woken task tests the queue again and is served if it can be |
| QueueOutcomes.UnlockExact | FreeRTOS-Kernel/queue.c:2494-2611 | unlocking wakes as many tasks as events were recorded, from the head on |
| QueueOutcomes.SignalWakesOne | FreeRTOS-Kernel/queue.c:1196-1321 | one event wakes the first task and only that, or is recorded |
| QueueOutcomes.CallAndTimeOut | FreeRTOS-Kernel/tasks.c:4755-4770 | a time-out takes the waiting task off its list and nobody else |
| TimedLists.InsertKeeps | FreeRTOS-Kernel/list.c:139-211 | insertion keeps a list sorted, adds exactly the item, and the head is the least value |
| CircularLists.List.constructor | FreeRTOS-Kernel/list.c:49-86 | an empty ring: the end marker linked to itself |
| CircularLists.List.InsertEnd | FreeRTOS-Kernel/list.c:105-136 | the ring stays closed; the new item comes last in the round-robin order, except for the item at the index, and the others keep their order |
| CircularLists.List.Insert | FreeRTOS-Kernel/list.c:139-211 | the item is put on the ring by stable sorted insertion, for portMAX_DELAY too; the walk terminates at the end marker |
| CircularLists.List.FindPlace | FreeRTOS-Kernel/list.c:161-197 | the walk stops before the first greater value, or at the end |
| CircularLists.List.Remove | FreeRTOS-Kernel/list.c:215-245 | the ring closes over the item, an index on it steps back, and the others keep their round-robin order |
| CircularLists.List.OwnerOfNextEntry | FreeRTOS-Kernel/include/list.h:286-297 | the next item in round-robin order is returned and goes to the back; the end marker is skipped |
| CircularLists.Spliced | FreeRTOS-Kernel/list.c:121-128 | four pointer writes make a larger ring in which next and previous are inverse |
| CircularLists.Unspliced | FreeRTOS-Kernel/list.c:223-224 | two pointer writes make a smaller such ring |
| RoundRobin.InsertEndIsLast | FreeRTOS-Kernel/list.c:105-136 | where exactly vListInsertEnd puts an item in the order of visits |
| RoundRobin.RemoveKeepsOrder | FreeRTOS-Kernel/list.c:228-237 | removing an item takes it out of the order of visits and changes nothing else |
| RoundRobin.FairShare | FreeRTOS-Kernel/include/list.h:286-297 | n steps over n items visit each once and come back to the same order |
| KernelProofs.EpochSplit | FreeRTOS-Kernel/tasks.c:248-260 | in every run the delayed list holds exactly the waits ending in the current 2^32-tick epoch, the overflow list those of the next, and none is overdue |
| KernelProofs.ExactWake | FreeRTOS-Kernel/tasks.c:4691-4805 | a task blocked until d and not woken otherwise stays blocked before d and is ready after exactly the step whose ticks reach d |
| KernelProofs.SuspensionProtocol | FreeRTOS-Kernel/tasks.c:3956-4103 | in every run each state item is in exactly one list, each event item in at most one, pending tasks and pended ticks exist only under suspension, every tick is counted once, and the next unblock time is not late |
| KernelProofs.RunKeeps | FreeRTOS-Kernel/tasks.c:3811-4103 | the kernel invariant in every reachable state |
| KernelEffects.TicksCounted | FreeRTOS-Kernel/tasks.c:4905-4907 | in every run the tick count and the pended ticks together advance by the ticks given by the calls, and suspensions nest as the calls do |
| KernelEffects.SignalExact | FreeRTOS-Kernel/tasks.c:5364-5392 | a signal takes the first task off the event list; it is ready at once, or pending under suspension |
| KernelEffects.SignalledIsReady | FreeRTOS-Kernel/tasks.c:3990-4040 | in every run a signalled task is ready in the first later state in which the scheduler is not suspended |
| KernelEffects.UnblockExact | FreeRTOS-Kernel/tasks.c:5434-5516 | a task taken off an unordered event list is ready and on no event list |
| KernelEffects.BlockExact | FreeRTOS-Kernel/tasks.c:5243-5299 | a task that blocks is on the event list, off the ready lists, and filed under its true time-out |
| KernelEffects.DelayExact | FreeRTOS-Kernel/tasks.c:8415-8530 | a task that delays is off the ready lists and filed under its true wake time |
| KernelEffects.NextUnblockExact | FreeRTOS-Kernel/tasks.c:4714-4749 | when a tick or a wake-up changes the next unblock time, and that it is then the first wait to end |
| KernelProofs.InitialInv | FreeRTOS-Kernel/tasks.c:3720-3722 | the state in which the scheduler starts satisfies the invariant |
| KernelProofs.DelayedEmptyAtSwitch | FreeRTOS-Kernel/tasks.c:248-260 | the delayed list is empty whenever the lists are switched |
| KernelProofs.TickExact | FreeRTOS-Kernel/tasks.c:4670-4805 | one tick wakes exactly the tasks whose true wake time it reaches |
| KernelProofs.TicksExact | FreeRTOS-Kernel/tasks.c:4043-4065 | so do k ticks |
| KernelProofs.NothingDue | FreeRTOS-Kernel/tasks.c:4714-4717 | before the next unblock time nothing is due, so the search may be skipped |
| KernelProofs.SignalKeeps | FreeRTOS-Kernel/tasks.c:5341-5392 | waking the head of an event list keeps the invariant, with the scheduler running or suspended |
| KernelProofs.UnblockKeeps | FreeRTOS-Kernel/tasks.c:5434-5516 | so does taking a task off an unordered event list |
| KernelProofs.AddPendedKeeps | FreeRTOS-Kernel/tasks.c:4546-4571 | caught-up ticks are counted once |
| KernelProofs.ResumeKeeps | FreeRTOS-Kernel/tasks.c:3956-4103 | resuming drains the pending list and the pended ticks and keeps the invariant |
| Scheduler.TaskScheduler.IncrementTick | FreeRTOS-Kernel/tasks.c:4670-4805 | the C function computes the specified tick |
| Scheduler.TaskScheduler.ReadyDueTasks | FreeRTOS-Kernel/tasks.c:4717-4800 | the loop readies all due tasks and sets the next unblock time |
| Scheduler.TaskScheduler.TickHandler | FreeRTOS-Kernel/tasks.c:4670-4907 | the tick interrupt, suspended or not, keeps the invariant |
| Scheduler.TaskScheduler.ReadyPendingTasks | FreeRTOS-Kernel/tasks.c:3990-4040 | the loop over the pending-ready list computes the specified draining |
| Scheduler.TaskScheduler.ResumeAll | FreeRTOS-Kernel/tasks.c:3956-4103 | both loops of xTaskResumeAll together compute the specified resume and keep the invariant |
| Scheduler.TaskScheduler.AddCurrentToDelayedList | FreeRTOS-Kernel/tasks.c:8492-8530 | the running task is filed under its true wake time in the right list |
| Scheduler.TaskScheduler.RemoveFromEventList | FreeRTOS-Kernel/tasks.c:5341-5392 | the head of an event list is made ready, or held pending under suspension, as specified; the result says whether it has a higher priority |
| Scheduler.TaskScheduler.StepTick | FreeRTOS-Kernel/tasks.c:4504-4541 | computes the specified step, which holds back the tick that reaches the next unblock time |
| Scheduler.TaskScheduler.ResetNextUnblockTime | FreeRTOS-Kernel/tasks.c:6456-6474 | the next unblock time becomes the head of the delayed list or portMAX_DELAY |
| StepTicks.StepRefinesTicks | FreeRTOS-Kernel/tasks.c:4504-4541 | vTaskStepTick(k) and then resume gives the same tick count, overflow count and lists as resume and then k ticks |
| StepTicks.QuietTicks | FreeRTOS-Kernel/tasks.c:4691-4717 | ticks below the next unblock time only count |
| Timeouts.CheckExact | FreeRTOS-Kernel/tasks.c:5544-5594 | with fewer than two overflows since entry, time-out is reported iff the true elapsed time reached the wait, and the rest is the true rest |
| Timeouts.CheckCorrectIff | FreeRTOS-Kernel/tasks.c:5544-5594 | the exact condition under which the verdict is right, for all entry and check times |
| Timeouts.CheckTooLate | FreeRTOS-Kernel/tasks.c:5570-5594 | an instance in which it is wrong |
| Timeouts.ChecksExact | FreeRTOS-Kernel/tasks.c:5522-5594 | over any chain of checks, remaining ticks and elapsed time add up to the original wait |
| Timeouts.TimeOutState.CheckForTimeOut | FreeRTOS-Kernel/tasks.c:5534-5600 | the C function computes the specified check |
| Timeouts.DelayUntilExact | FreeRTOS-Kernel/tasks.c:2354-2411 | the task blocks iff its true next wake time is in the future, for exactly the difference |
| Timeouts.DriftFree | FreeRTOS-Kernel/tasks.c:2343-2411 | over every run the reference is the start plus the sum of increments, wraps included, and each call returns at the reference or at once |
| Timeouts.DelayUntilWakes | FreeRTOS-Kernel/tasks.c:2400-2411 | the delay asked for files the task under its true next wake time |
| Selection.AddOrder | FreeRTOS-Kernel/tasks.c:268-274 | where a task that becomes ready comes in its priority's order |
| Selection.RemoveOrder | FreeRTOS-Kernel/list.c:215-245 | a task that blocks leaves the order of the others as it is |
| Selection.ChooseOrder | FreeRTOS-Kernel/tasks.c:189-191 | the task chosen is the first in order and goes to the back |
| Selection.ArriveAhead | FreeRTOS-Kernel/list.c:105-136 | an arrival gets in front of a waiting task iff the index is on that task |
| Selection.BoundedWaiting | FreeRTOS-Kernel/tasks.c:178-193 | whatever arrives and leaves, every pick brings a ready task one place nearer, less the arrivals that got in front |
| Selection.PickedInTime | FreeRTOS-Kernel/tasks.c:178-193 | so it is picked in time |
| Selection.PickedWithinTwoRounds | FreeRTOS-Kernel/tasks.c:178-193 | no starvation: on a list of at most n tasks, a task that stays ready is picked within 2n picks, whatever arrives and leaves |
| Selection.DistanceFalls | FreeRTOS-Kernel/list.c:105-136 | the distance of the index from a task never grows, and every pick of another task lessens it |
| Selection.CanBeOvertaken | FreeRTOS-Kernel/list.c:228-233 | an instance of an arrival that gets in front |
| ReadyQueues.Highest | FreeRTOS-Kernel/tasks.c:180-187 | the search ends at the highest priority that has a ready task |
| ReadyQueues.EachRunsOnce | FreeRTOS-Kernel/tasks.c:167-193 | n selections with unchanged lists run each of the n ready tasks of the highest priority once |
| ReadyQueues.ReadyTasks.AddTaskToReadyList | FreeRTOS-Kernel/tasks.c:268-274 | the record stays at or above the highest ready priority |
| ReadyQueues.ReadyTasks.RemoveFromReadyList | FreeRTOS-Kernel/list.c:215-245 | removal does not disturb the record |
| ReadyQueues.ReadyTasks.SelectHighestPriorityTask | FreeRTOS-Kernel/tasks.c:178-193 | with the idle task ready the downward search terminates at the highest non-empty list and the next task in its order runs |
| ReadyQueues.ReadyTasks.SwitchContext | FreeRTOS-Kernel/tasks.c:5056-5139 | under suspension only a yield is noted; otherwise the chosen task has the highest ready priority |
| NotificationProofs.NoLostNotification | FreeRTOS-Kernel/tasks.c:7627-7705 | in every interleaving, with the scheduler running a blocked task has a value of zero on the index it waits for and is marked as waiting |
| NotificationProofs.NotificationsCounted | FreeRTOS-Kernel/tasks.c:8154-8224 | gives less consumed counts equal the stored value modulo 2^32, and an event item enters the pending list at most once per wait |
| NotificationEffects.NothingLost | FreeRTOS-Kernel/tasks.c:8154-8224 | in every run the stored value is the gives made less what was taken, both counted on the calls, modulo 2^32 |
| NotificationEffects.CollectExact | FreeRTOS-Kernel/tasks.c:7681-7700 | with clear-on-exit a take returns the count and leaves 0, otherwise it leaves one less; no other slot changes |
| NotificationEffects.TestExact | FreeRTOS-Kernel/tasks.c:7632-7652 | a take waits iff there is nothing to take, and blocks iff it also may |
| NotificationEffects.WokenIff | FreeRTOS-Kernel/tasks.c:8154-8224 | a blocked task is made ready by its time-out, a give on the index it waits for, or the resume after one, and by nothing else |
| NotificationEffects.EntersOnce | FreeRTOS-Kernel/tasks.c:8168-8181 | in every run its event item enters the pending list at most once per wait |
| NotificationEffects.StepFrame | FreeRTOS-Kernel/tasks.c:7627-7675 | how each step moves the task on, nests suspensions and dispatches |
| NotificationProofs.GiveWakes | FreeRTOS-Kernel/tasks.c:8165-8186 | a give makes a waiting task ready at once, or at the resume that ends the suspension |
| NotificationProofs.RunKeeps | FreeRTOS-Kernel/tasks.c:7627-7705 | the protocol invariant in every reachable state |
| MutexProofs.MutexInvariant | FreeRTOS-Kernel/queue.c:1679-1873 | over every run: count 0 iff a holder is recorded, held counts exact, priority never below base and at base when nothing is held, ready tasks in the list of their priority |
| MutexProofs.RunKeeps | FreeRTOS-Kernel/queue.c:756-853 | the full invariant, recursive mutexes and event lists included, in every reachable state |
| MutexOwnership.DepthCounted | FreeRTOS-Kernel/queue.c:756-853 | in every run the recursive count is the takes completed less the gives, counted on the calls |
| MutexOwnership.FreedByLastGive | FreeRTOS-Kernel/queue.c:770-800 | a recursive mutex is sent back and freed by exactly the last give owed, and is free only with none owed |
| MutexOwnership.HolderExact | FreeRTOS-Kernel/queue.c:1684-1730 | a mutex gets a holder when a task tests it free, loses it when the holder sends it back, and not otherwise |
| MutexOwnership.WaitCall | FreeRTOS-Kernel/queue.c:1780-1800 | a task that finds the mutex taken is on its list, not ready, and notes an inheritance iff the holder's base priority is lower |
| MutexOwnership.CallExact | FreeRTOS-Kernel/queue.c:1679-1873 | where each step leaves the running task in its call and how many mutexes it holds |
| MutexOwnership.ReadyAtTheEnd | FreeRTOS-Kernel/tasks.c:268-274 | a task that becomes ready joins the ready list of its priority at the end |
| MutexOwnership.MovedToTheEnd | FreeRTOS-Kernel/tasks.c:6604-6640 | so does a ready task whose priority changes |
| MutexOwnership.OthersExact | FreeRTOS-Kernel/tasks.c:4755-4770 | a time-out takes the task off the list to test once more, with its note of inheritance kept |
| MutexProofs.InitialInv | FreeRTOS-Kernel/queue.c:614-637 | free mutexes and tasks at base priority satisfy it |
| MutexProofs.HolderCanGive | FreeRTOS-Kernel/queue.c:756-806 | the recorded holder can always give the mutex back |
| MutexProofs.HighestIsPriority | FreeRTOS-Kernel/queue.c:2365-2387 | the priority read from the first waiter's event item is a real one |
| MutexProofs.ReprioritiseKeeps | FreeRTOS-Kernel/tasks.c:6596-6640 | changing a priority moves a ready task to its new list and keeps the invariant |
| MutexProofs.ReleaseKeeps | FreeRTOS-Kernel/queue.c:2401-2417 | giving a mutex restores the base priority when the last mutex goes and wakes the first waiter |
| MutexProofs.CountDownKeeps | FreeRTOS-Kernel/queue.c:775-790 | between counting a recursive mutex down to 0 and sending it back the invariant holds |
| MutexProofs.DisinheritAfterTimeoutKeeps | FreeRTOS-Kernel/tasks.c:6777-6890 | giving back an inherited priority after a time-out keeps the invariant |
| MutexKernel.MutexTable.PriorityInherit | FreeRTOS-Kernel/tasks.c:6580-6675 | computes the specified inheritance and its result |
| MutexKernel.MutexTable.PriorityDisinherit | FreeRTOS-Kernel/tasks.c:6683-6769 | computes the specified disinheritance, none without a holder; a yield is asked for iff the priority dropped |
| MutexKernel.MutexTable.PriorityDisinheritAfterTimeout | FreeRTOS-Kernel/tasks.c:6777-6890 | computes the specified disinheritance after a time-out |
| MutexKernel.MutexTable.GiveMutex | FreeRTOS-Kernel/queue.c:1030-1062 | giving a mutex, recursive or not, is the specified step and keeps the invariant; exactly when a yield is asked for |
| Preemption.AttendedIff | FreeRTOS-Kernel/queue.c:1030-1062 | for every run: no ready task is ever above the running one without a yield outstanding if and only if every step was prompt |
| Preemption.StepIff | FreeRTOS-Kernel/tasks.c:5395-5430 | the condition for each step: sending a mutex back, giving an inherited priority back and switching have one, all others are prompt |
| Preemption.GiveIff | FreeRTOS-Kernel/queue.c:1030-1062 | sending a mutex back, recursive or not, leaves a ready task above the giver without a yield iff it drops an inherited priority, wakes a task not above its base, and another ready task is above that base |
| Preemption.GiveBackAboveIff | FreeRTOS-Kernel/tasks.c:6777-6890 | giving an inherited priority back leaves one iff the holder can run and its new priority is above the running task |
| PriorityRuns.YieldMissed | FreeRTOS-Kernel/queue.c:1037-1059 | a preemptive run from the start that ends with a yield missed, for a plain and for a recursive mutex |
| PriorityRuns.RaiseMissesYield | FreeRTOS-Kernel/tasks.c:6777-6890 | a preemptive run from the start in which a time-out raises a ready task above the running one without a yield |
| PriorityRuns.ChainIsReached | FreeRTOS-Kernel/tasks.c:6592-6640 | a preemptive run from the start to a chain of waits |
| MutexKernel.MutexTable.GiveMutexRecursive | FreeRTOS-Kernel/queue.c:756-806 | counts down and sends the mutex back at 0; refused to a task that is not the holder |
| MutexKernel.MutexTable.WakeFirstWaiter | FreeRTOS-Kernel/tasks.c:5341-5430 | the first waiter is made ready, and the result says whether it has a higher priority |
| PriorityInversion.NoPriorityInversion | FreeRTOS-Kernel/tasks.c:6580-6890 | in every run with one mutex held at a time and mutexes tested only at the highest ready priority, a holder has at least the priority of every waiter; a free mutex with waiters is about to be tested by a task of no lower priority |
| PriorityInversion.WaitStep | FreeRTOS-Kernel/queue.c:1778-1800 | a task that blocks leaves the holder at no lower priority than any waiter |
| PriorityInversion.GiveBackStep | FreeRTOS-Kernel/queue.c:1836-1859 | after a time-out the holder keeps the highest priority still waiting |
| PriorityInversion.InsertDescending | FreeRTOS-Kernel/tasks.c:5243-5269 | an event list stays in order of priority |
| PriorityInversion.InitialNoInversion | FreeRTOS-Kernel/queue.c:614-637 | its hypotheses hold when no mutex is held |
| PriorityDominance.DominatesIff | FreeRTOS-Kernel/tasks.c:6580-6890 | for every run, with any number of mutexes held and any task running: holders are never below the tasks waiting for them if and only if every step was safe |
| PriorityDominance.StepIff | FreeRTOS-Kernel/tasks.c:6580-6890 | the condition for each step: three kinds have one, all others keep the property unconditionally |
| PriorityDominance.WaitIff | FreeRTOS-Kernel/tasks.c:6580-6675 | blocking keeps it iff the holder that inherits does not itself wait for another task of lower priority |
| PriorityDominance.TryIff | FreeRTOS-Kernel/queue.c:1679-1735 | taking keeps it iff no task waiting for the mutex is above the taker |
| PriorityDominance.GiveBackIff | FreeRTOS-Kernel/tasks.c:6777-6890 | a time-out keeps it iff no task still waiting is above the priority the holder falls back to |
| PriorityDominance.NotTransitive | FreeRTOS-Kernel/tasks.c:6592-6640 | a preemptive run from the start to a valid state in which all is well until one more task waits |
| PriorityDominance.InitialDominates | FreeRTOS-Kernel/queue.c:614-637 | the hypotheses of DominatesIff hold when no mutex is held |
| EventListOrder.OrderedIff | FreeRTOS-Kernel/tasks.c:6596-6602 | for every run: the event lists are in order of priority at every point if and only if every change of a waiting task's priority fitted its place |
| EventListOrder.OrderStepIff | FreeRTOS-Kernel/tasks.c:6580-6890 | the condition for each step: two kinds have one, all others keep the order unconditionally |
| EventListOrder.WaitOrderIff | FreeRTOS-Kernel/tasks.c:6596-6602 | blocking keeps the order iff the holder that inherits is not behind a task below its new priority |
| EventListOrder.GiveBackOrderIff | FreeRTOS-Kernel/tasks.c:6795-6835 | a time-out keeps it iff nobody before the holder is below the priority it falls back to and nobody after it above |
| EventListOrder.InsertPlace | FreeRTOS-Kernel/list.c:139-211 | a task joins the list after all tasks of its own or a higher priority: equals are first come, first served |
| EventListOrder.InsertIff | FreeRTOS-Kernel/tasks.c:5243-5269 | joining a list leaves it in order iff it was |
| EventListOrder.OrderBreaks | FreeRTOS-Kernel/tasks.c:6596-6602 | a preemptive run from the start that breaks the order |
| EventListOrder.InitialOrdered | FreeRTOS-Kernel/queue.c:614-637 | the hypotheses of OrderedIff hold when no mutex is held |
| QueueRing.Queue.constructor | FreeRTOS-Kernel/queue.c:318-325 | a new queue is empty and its positions agree |
| QueueRing.Queue.Send | FreeRTOS-Kernel/queue.c:2390-2470 | a send to the back appends, to the front prepends, overwriting replaces, a full queue refuses; the positions and the count stay right iff not overwriting a full queue of size-0 items |
| QueueRing.Queue.Receive | FreeRTOS-Kernel/queue.c:1526-1563 | the front item is returned and removed, or nothing if there is none |
| QueueRing.Queue.Peek | FreeRTOS-Kernel/queue.c:1907-1921 | the front item is returned and nothing changes |
| QueueRing.Queue.CopyDataFromQueue | FreeRTOS-Kernel/queue.c:2473-2491 | the bytes copied are those of the oldest item |
| QueueRing.RingSendBack | FreeRTOS-Kernel/queue.c:2418-2431 | the slot at pcWriteTo holds no item, and the ring then holds the items and the new one |
| QueueRing.RingSendFront | FreeRTOS-Kernel/queue.c:2434-2445 | the slot at pcReadFrom holds no item, and the ring then holds the new one and the items |
| QueueRing.RingReceive | FreeRTOS-Kernel/queue.c:2473-2491 | the next slot holds the oldest item and the ring then holds the rest |
| QueueRing.CountBoundedIff | FreeRTOS-Kernel/queue.c:2390-2470 | the count that Send stores agrees with the items, and stays within the length, iff not overwriting a full queue of size-0 items |
| QueueRing.OverwriteSemaphore | FreeRTOS-Kernel/queue.c:2402-2417 | an instance: a queue of length 1 that counts 2 |
| TimerProofs.PlacementExact | FreeRTOS-Kernel/timers.c:894-935 | immediate processing iff the true expiry has come, otherwise the list of the true epoch |
| TimerProofs.CatchUpExact | FreeRTOS-Kernel/timers.c:699-715 | one callback for each missed expiry, in order, and the first expiry past now |
| TimerDaemon.CatchUpCount | FreeRTOS-Kernel/timers.c:718-745 | exactly 1 + floor((now - e) / period) callbacks and refiling at the first multiple past now |
| TimerDaemon.DrainStep | FreeRTOS-Kernel/timers.c:1095-1107 | each round of the overflow loop shortens the current list for good |
| TimerDaemon.Drain | FreeRTOS-Kernel/timers.c:1086-1108 | the loop terminates with an empty current list and everything filed |
| TimerDaemon.SampleKeeps | FreeRTOS-Kernel/timers.c:871-891 | with samples less than 2^32 ticks apart, list switches keep every timer in the list of its true epoch |
| TimerDaemon.ChangePeriodKeeps | FreeRTOS-Kernel/timers.c:1036-1049 | a new period counts from now and the timer is always filed |
| TimerDaemon.StartKeeps | FreeRTOS-Kernel/timers.c:996-1028 | a start that is processed late is filed or fired by its true expiry |
| TimerDaemon.DaemonInvariant | FreeRTOS-Kernel/timers.c:748-1108 | over every run: epoch split, ACTIVE bit iff listed, no callback before its expiry |
| TimerCommands.CommandExact | FreeRTOS-Kernel/timers.c:938-1075 | what every received command makes of its timer, through the removal from its list and the sampling, however late it is processed |
| TimerCommands.StartExact | FreeRTOS-Kernel/timers.c:996-1028 | a start is filed at the command time plus the period if that is to come; a late one-shot fires once and stays off the lists, a late auto-reload timer catches up |
| TimerCommands.ChangePeriodExact | FreeRTOS-Kernel/timers.c:1036-1049 | the new period is stored, counts from now, and the timer is active |
| TimerCommands.StopExact | FreeRTOS-Kernel/timers.c:1030-1075 | a stopped or deleted timer is inactive, on no list, and not called back |
| TimerCommands.OneShotOnce | FreeRTOS-Kernel/timers.c:718-745 | over every run without commands to it, a one-shot timer fires for its expiry once, when it leaves the list, and never again |
| TimerCallbacks.CallbacksExact | FreeRTOS-Kernel/timers.c:699-745 | over every run in which it gets no command, an auto-reload timer due at e has fired for exactly e, e + p, ... up to the expiry it is now listed under, once each, through catch-up and list switches |
| TimerCallbacks.SeriesAt | FreeRTOS-Kernel/timers.c:699-715 | the i-th of those expiries is e + i * p |
| TimerCallbacks.DueIsFired | FreeRTOS-Kernel/timers.c:782-842 | a turn that finds the head due fires it: an auto-reload timer is moved past now, a one-shot fires once and leaves the list |
| TimerCallbacks.LateStartFires | FreeRTOS-Kernel/timers.c:996-1028 | a start processed late gets the callbacks of all expiries that have passed |
| TimerCallbacks.AllCalledBack | FreeRTOS-Kernel/timers.c:782-842 | when the head of the current list is not due, every listed expiry is still to come |
| TimerCallbacks.BlockTimeExact | FreeRTOS-Kernel/timers.c:782-869 | the daemon then blocks until exactly the first expiry of this epoch, or the overflow of the tick count if there is none, and never past an expiry |
| TimerDaemon.InitialValid | FreeRTOS-Kernel/timers.c:1111-1125 | the initial service satisfies the invariant |
| TimerService.ActiveTimers.InsertTimerInActiveList | FreeRTOS-Kernel/timers.c:894-935 | computes the specified placement |
| TimerService.ActiveTimers.ReloadTimer | FreeRTOS-Kernel/timers.c:699-715 | the reload loop terminates and makes the specified callbacks |
| TimerService.ActiveTimers.ProcessExpiredTimer | FreeRTOS-Kernel/timers.c:718-745 | computes the specified processing of the head of the list |
| TimerService.ActiveTimers.SwitchTimerLists | FreeRTOS-Kernel/timers.c:1086-1108 | the drain loop terminates and computes the specified switch |
| TimerService.ActiveTimers.SampleTimeNow | FreeRTOS-Kernel/timers.c:871-891 | computes the specified sampling and keeps the invariant |
| StreamProofs.StreamSafety | FreeRTOS-Kernel/stream_buffer.c:1476-1561 | in every interleaving the bytes received are a prefix of those accepted, no unpublished byte is read and no unread byte overwritten |
| StreamProofs.MessageRoundTrip | FreeRTOS-Kernel/stream_buffer.c:1000-1050 | in every interleaving the messages delivered are a prefix of those accepted, the stored bytes are their frames, and there are none or more than a prefix of them |
| StreamProofs.CountsExact | FreeRTOS-Kernel/stream_buffer.c:754-788 | the space and byte counts are exact |
| StreamProofs.SendExact | FreeRTOS-Kernel/stream_buffer.c:1009-1036 | a whole message is accepted or nothing, and as much of a stream as fits |
| StreamProofs.ReceiveExact | FreeRTOS-Kernel/stream_buffer.c:1136-1160 | a receive begins iff more than the prefix, or the trigger level, is stored, and reads as much as there is and fits |
| StreamProofs.PublishExact | FreeRTOS-Kernel/stream_buffer.c:1038-1047 | publishing adds exactly what was copied to the stream and to the messages sent; an empty message is not published |
| StreamProofs.CopyExact | FreeRTOS-Kernel/stream_buffer.c:1476-1561 | a copy step moves one byte and publishes nothing |
| StreamProofs.DecideExact | FreeRTOS-Kernel/stream_buffer.c:1285-1325 | a receive takes the whole oldest message, or leaves it alone if the caller's buffer is too small |
| StreamProofs.ConsumeKeeps | FreeRTOS-Kernel/stream_buffer.c:1316-1325 | consuming delivers exactly the oldest message, or the bytes read |
| StreamProofs.HoldsStep | FreeRTOS-Kernel/stream_buffer.c:1476-1513 | a copied byte goes where it will be read from, and that place holds no unread byte |
| StreamProofs.ReadByteKeeps | FreeRTOS-Kernel/stream_buffer.c:1522-1561 | a byte read has been published and is the next of the stream |
| StreamProofs.LengthRoundTrip | FreeRTOS-Kernel/stream_buffer.c:1013-1024 | the stored length reads back as the length |
| StreamProofs.RunKeeps | FreeRTOS-Kernel/stream_buffer.c:1000-1050 | the invariant in every reachable state |
| StreamRing.StreamBuffer.constructor | FreeRTOS-Kernel/stream_buffer.c:1587-1625 | a new buffer is empty |
| StreamRing.StreamBuffer.BytesAvailable | FreeRTOS-Kernel/stream_buffer.c:1566-1584 | the number of bytes accepted and not received |
| StreamRing.StreamBuffer.SpacesAvailable | FreeRTOS-Kernel/stream_buffer.c:754-788 | the room left, one byte less than the length when empty |
| StreamRing.StreamBuffer.WriteBytes | FreeRTOS-Kernel/stream_buffer.c:1476-1518 | the two-piece copy around the end is the byte-by-byte copy of the protocol |
| StreamRing.StreamBuffer.ReadBytes | FreeRTOS-Kernel/stream_buffer.c:1522-1561 | likewise for reading |
| StreamRing.StreamBuffer.WriteMessage | FreeRTOS-Kernel/stream_buffer.c:1000-1050 | appends one message or the bytes that fit, with a space reading that may be out of date, and keeps the invariant |
| StreamRing.StreamBuffer.ReadMessage | FreeRTOS-Kernel/stream_buffer.c:1276-1328 | returns and consumes the oldest message, leaves one that is too long untouched, or returns the next bytes of a stream, with a count that may be out of date |
| StreamRing.StreamBuffer.NextMessageLength | FreeRTOS-Kernel/stream_buffer.c:1169-1213 | the length of the oldest message, or 0 |
| StreamWaits.NoLostStreamWakeUp | FreeRTOS-Kernel/stream_buffer.c:1088-1134 | in every interleaving, a side that is blocked while the other has nothing left to do is registered and lacks what it needs or what it would be notified of |
| StreamWaits.WriterWaitsForSpace | FreeRTOS-Kernel/stream_buffer.c:868-905 | a writer is then blocked only while there is too little space |
| StreamWaits.ReaderWaitsForTrigger | FreeRTOS-Kernel/stream_buffer.c:1088-1134 | a reader that needs no more than the trigger level is then blocked only while there are fewer bytes |
| StreamWaits.EnterExact | FreeRTOS-Kernel/stream_buffer.c:1088-1117 | whoever finds too little registers, with any stale notification cleared |
| StreamWaits.BlockedIff | FreeRTOS-Kernel/stream_buffer.c:1119-1134 | when a side becomes blocked, and that only a notification or its time-out ends it |
| StreamWaits.PeerExact | FreeRTOS-Kernel/stream_buffer.c:915-930 | every rise of the level is checked against the trigger level and completed if it is reached |
| StreamWaits.LeaveExact | FreeRTOS-Kernel/stream_buffer.c:1119-1125 | after the wait nothing of it is left |
| StreamWaits.RunKeeps | FreeRTOS-Kernel/stream_buffer.c:54-160 | registration and notification agree in every reachable state |
| EventGroupProofs.SetBitsExact | FreeRTOS-Kernel/event_groups.c:547-644 | exactly the waiters whose condition holds on old or set bits are unblocked and handed that value, and exactly the union of their clear-on-exit masks is cleared |
| EventGroupProofs.OrderIrrelevant | FreeRTOS-Kernel/event_groups.c:574-634 | whatever the order of the list |
| EventGroupProofs.NoWaiterSatisfied | FreeRTOS-Kernel/event_groups.c:185-644 | in every run of set, clear, wait, sync and time-out no waiter's condition is met by the current bits |
| EventGroupProofs.MetExact | FreeRTOS-Kernel/event_groups.c:775-800 | all bits: none is missing; any bit: not all are |
| EventGroupProofs.WaitExact | FreeRTOS-Kernel/event_groups.c:336-404 | a met call takes its bits away iff it asked to; one that is not met leaves them and waits iff it may |
| EventGroupProofs.SyncExact | FreeRTOS-Kernel/event_groups.c:205-247 | a completed rendezvous leaves none of the bits waited for and the others as the set left them |
| EventGroupProofs.CollectExact | FreeRTOS-Kernel/event_groups.c:416-458 | a task unblocked by bits returns what it was handed and clears nothing; one that timed out returns the current bits and clears its own iff they are met and it asked to |
| EventGroupProofs.ClearExact | FreeRTOS-Kernel/event_groups.c:472-501 | exactly the bits named are cleared |
| EventGroupProofs.TimeOutExact | FreeRTOS-Kernel/tasks.c:4755-4770 | a time-out takes the task off the list and changes nothing else |
| EventGroupProofs.ReturnedValueMeets | FreeRTOS-Kernel/event_groups.c:416-458 | in every run a task unblocked by bits returns a value that meets its condition, without control bits |
| EventGroupProofs.PackRoundTrip | FreeRTOS-Kernel/event_groups.c:372-396 | the packed event item value reads back as the call |
| EventGroupProofs.RunKeeps | FreeRTOS-Kernel/event_groups.c:185-644 | the invariant in every reachable state |
| EventGroupObject.EventGroup.Set | FreeRTOS-Kernel/event_groups.c:547-644 | the loop over the waiters, with removals on the way, computes the specified pass |
| EventGroupObject.EventGroup.Clear | FreeRTOS-Kernel/event_groups.c:472-501 | clears the bits, returns the old ones, and satisfies nobody |
| EventGroupObject.EventGroup.Wait | FreeRTOS-Kernel/event_groups.c:312-404 | returns at once iff the condition is met or no block time is given, with its bits cleared iff met and asked for; otherwise joins the list |
| EventGroupObject.EventGroup.Synchronise | FreeRTOS-Kernel/event_groups.c:185-247 | blocks iff the rendezvous is not complete with the bits just set; otherwise returns those bits, or the current ones if there is no block time; a complete one clears its bits |
| EventGroupObject.EventGroup.Finish | FreeRTOS-Kernel/event_groups.c:405-458 | after waking, returns the value handed over, or after a time-out the current bits, with its own bits cleared iff met by then and asked for |

## Left out

- SMP (more than one core), core affinity, co-routines, MPU wrappers, queue sets, the queue registry, tracing, stack checks
  and statistics.
- Creation and deletion of objects and the heap; the timer delete command only takes the timer off the lists.
- Task suspension, task deletion and delay abortion, which this firmware switches off; waits are always timed.
- xQueueGenericReset on a queue with waiters, which wakes one sender only, and vEventGroupDelete.
- The optimised task selection of the ports; the generic search is modelled.
- The firmware around the kernel: drivers, services, network and TLS.
- Yield requests and the higher-priority-task-woken flags, except where a method's result is named: a model step leaves it
  open which ready task runs next, so the results hold for every choice.
- Scheduler.TaskScheduler.IncrementTick: the returned request to switch context is not modelled.
- Scheduler.TaskScheduler.ResumeAll: the returned flag that a yield has been made is not modelled.
- Kernel, QueueProtocol: a task enters an event list at an arbitrary place, which covers every assignment and change of
  priorities; Mutexes keeps the real order.
- Kernel: priorities are constant, the block times are 1 to 2^32 - 1 ticks, and configINITIAL_TICK_COUNT is 0.
- QueueProtocol: items are counted, not stored (QueueRing stores them), time-outs may happen at any time, and an interrupt
  that would overflow a lock count past INT8_MAX, where the kernel asserts, does not happen.
- Mutexes: a time-out of a task that waits for a mutex it holds itself, where the kernel asserts, does not happen.
- PriorityInversion.NoPriorityInversion: supposes that a task tests a mutex only while no ready task has a higher priority, and that it holds
  no other mutex when it takes one.
- Notifications: transitions on values, one per critical section; only take and give are modelled, not the notify actions
  that set bits or overwrite values.
- TimerDaemon: the command queue is a sequence of received commands; reset commands are treated as start commands, which
  take the same branch, and pended function calls are left out.
- StreamBuffers: memcpy copies bytes in ascending order and buffer lengths do not overflow size_t; trigger levels only
  decide whether a read is tried.
- StreamWaits: levels are numbers (StreamBuffers has the bytes), and xTaskNotifyWait is a step that marks the task as
  waiting and blocks it, whose inner protocol is that of Notifications.  A reader of a batching buffer waits at exactly the
  trigger level too, as the code has it; the comment at FreeRTOS-Kernel/stream_buffer.c:1077-1078 speaks of fewer bytes.
- CircularLists.List.Remove: takes the place of the item in the ring as a ghost argument; the integrity check values are
  left out.
