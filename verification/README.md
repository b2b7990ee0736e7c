# A user-level scheduler, verified

The program schedules tasks at user level.  A signal arrives every 10 ms; its handler runs a timing
wheel, wakes sleepers, and takes the processor from a task whose time slice is used up.  Tasks start,
exit, sleep, block on semaphores and re-entrant locks, and pass characters through a ring buffer.
This project models those parts in Dafny and proves what they promise.  `dafny verify dfyconfig.toml`
checks all of it.

Two things are modelled throughout: values, on which the theorems are stated, and the data structures
that the program updates in place, whose methods are proved to compute those values.

| files | subject |
|---|---|
| `Wheel`, `WheelPlacement`, `WheelAgenda`, `WheelHistory`, `WheelTheorems`, `WheelDrift`, `WheelOrder`, `WheelPunctual`, `WheelRuns`, `WheelTable` | the five-level timing wheel as a value, its placement invariant, and what it promises over every history of timer operations |
| `TimerRing`, `TimerManager` | the same wheel on the heap: 512 circular lists relinked in place |
| `Kernel`, `KernelPartition`, `KernelInvariant`, `KernelStart`, `KernelLate` | the scheduler as a state machine, composed with the wheel, and the invariant of every run; exactly which ticks break it, and what they break |
| `KernelSleep`, `KernelRuns`, `RoundRobin` | how long a sleep lasts; bounded bypass and context isolation; exact shares of the processor |
| `KernelLaws`, `KernelOrder`, `KernelWheel` | what every event does to every control block and to every list, and what follows over runs; the wheel inside the scheduler, and its clean-up timer |
| `Aging`, `AgingRuns`, `AgingLaws` | the alternative choice of the next task |
| `Scheduler` | task control blocks and lists updated in place, proved against the state machine |
| `Lock`, `LockProtocol`, `LockCounts`, `LockProgram` | the semaphore and the re-entrant lock under any interleaving of any number of tasks |
| `IoQueue`, `Bitmap`, `IntrusiveList`, `ListRaces`, `DeadTasks` | the ring buffer, the tid bitmap, the linked list, which interruptions of its operations lose elements, and the clean-up of the pool |

## What is assumed

- A stretch of code between `interrupt_disable` and `interrupt_enable` is not interrupted.  The
  functions mask SIGUSR1 only; that this stops every tick, and that a task switched to from such a
  stretch runs with ticks enabled, are assumptions.  The mask does not nest, so an inner
  `interrupt_enable` ends the stretch: in `task_start` and `task_exit` (the tid lock), in `sema_up`
  (`task_unblock`).  `task_block` may be called outside any such stretch.  Ticks are modelled there: after the
  new task is in the ready list, between the parts of `task_exit`, between the status and the switch of
  `task_block`, and between the choice of the next task and the loading of its context.
- In the scheduler's runs a single list operation is one step.  Three of them run with interrupts enabled;
  `ListRaces` says exactly which ticks in the middle of one lose an element.
- So are `release_tid`, and `allocate_tid` with the rest of `task_start` up to the ready list; for ticks in that
  stretch `KernelStart.StartIsOneStep` justifies it.  The tid lock itself is taken to be free then.
- The tick handler is not interrupted, and timers are created and deleted only while no tick is
  running.  The two callbacks of the program do not touch the wheel, so running them after the turns
  of `run_timer` that call them, in the same order, is the same as running them inside.
- A task that sets its collaborative flag does nothing else until it is woken, as the hooked sleep
  functions do: it neither exits nor blocks nor starts a task meanwhile.
- Every operation that takes the processor from a task without queueing it (sleep, block, exit)
  happens only when another task is ready.  Otherwise the program spins with nobody to run.
- A task is started only while some tid is free; with a full bitmap the program's assertion stops it.
- A program releases a lock only when it has acquired it, and `task_unblock` outside `sema_up` is
  called for a blocked task that waits on no semaphore.
- The clock is a parameter of every tick and may stand still, jump or lag; the wheel catches up.
- Machine contexts are opaque values.  The granularity of the wheel is a parameter g >= 1; results
  about the exact ticks of all timers hold for g in 1..64; those about windows, and those about timers
  within 256 ticks, for every g.

## Where the program deviates from what it says

- `task_exit`, `task_start` and an unprotected `task_block` (the ring buffer's, `ioqueue.c` lines 41-42)
  can be interrupted before they are done.  If the time slice ends there, a dead task is put into the
  ready list, where the next `task_start` finds it and stops (`KernelLate.LateExit`,
  `KernelLate.DeadTaskStarted`), a task is lost for ever
  (`KernelLate.LostForever`, `KernelLate.BlockedTaskLost`), a task computes with another's context
  (`KernelLate.LateLoad`, `KernelLate.WrongContext`), or one runs without being listed
  (`KernelLate.LateStart`, `KernelLate.UnlistedTask`).  `KernelLate.LateIff` says exactly when a tick
  breaks the invariant, and `KernelLate.LateLoad` when it spoils a context: only when the task has no
  ticks left, as far as whole list operations go.  The invariant of the scheduler is stated for runs without such ticks.
- A comment in `hook.c` (lines 242-243) says that a sleeping task continues after at least the given
  time.  `add_timer` divides the remaining time by 10 before it chooses the wheel but not before it
  chooses the slot, so a sleep of 1000 ms lasts 232 ms (`WheelTheorems.AsConfigured`).
  `WheelTheorems.FirstTickIff` says exactly which due times are exact, and
  `WheelTheorems.NeverDriftsIff` which periodic timers keep time (`WheelTheorems.LatePeriods`: one that
  does not; `WheelDrift.DriftTest`: a test for longer periods).
- The hooked sleep functions set the flag before the time.  After a tick between the two writes the sleep lasts
  for the time that happens to be there (`KernelSleep.SleepLengthIff`), and the time then written is left for a
  later call that is interrupted in the same place (`KernelSleep.StaleTime`).
- `task_start`, `died_task_schedule` and `block_task_schedule` change the ready list with interrupts enabled
  (`task.c` lines 251, 464 and 484).  A tick in the middle that wakes a sleeper can lose a task, whatever
  ticks are left (`ListRaces.InterruptedAppend`, `ListRaces.LostAppends`, `ListRaces.InterruptedPop`).
- `task_unblock` enables interrupts in the middle of `sema_up`; a wake-up can then be lost
  (`LockProtocol.LostWakeUp`).  `LockProtocol.StepHeardIff` says exactly which step loses it.
- The assertion on a task from the pool contradicts the status that `task_exit` gives it
  (`KernelInvariant.PoolIsDead`).  The model leaves that assertion out.
- A scan for several bits may return a run that ends one bit past the end of the map
  (`Bitmap.RunOutside`).
- The loop condition of `clean_dead_task` is inverted.  `DeadTasks.CleanDeadTask` says exactly what a call
  frees, when it keeps to its limit, and when it pops the empty list: with fewer than eight live tasks and
  one task in the pool.
- Ticks of a waiting task wrap around for priorities above 128 (`Aging.NeverWrapsIff`).

## Model

| member | source | states |
|---|---|---|
| Wheel.LevelByDivision | User_Schedule/ROS2/user_thread_scheduler/src/interrupt/timer.c:97-119 | Choosing the wheel by multiples of the granularity, as the model does, agrees with dividing the remaining time first, as `add_timer` does, for every granularity. |
| WheelPlacement.LevelForMeans | User_Schedule/ROS2/user_thread_scheduler/src/interrupt/timer.c:97-138 | A timer goes to wheel n exactly when its remaining time is from the reach of wheel n-1 up to that of wheel n, where the granularity stretches every reach g times. |
| WheelPlacement.FiledIsPlaced | User_Schedule/ROS2/user_thread_scheduler/src/interrupt/timer.c:91-141 | `add_timer` files every timer that is not overdue where the placement invariant wants it, and in a slot that is still to be looked at. |
| WheelPlacement.CascadeInv | User_Schedule/ROS2/user_thread_scheduler/src/interrupt/timer.c:144-160 | Turning wheel n at the start of its block keeps the placement invariant and makes it true of wheel n for later ticks only, even when timers go back into the slot they came from. |
| WheelPlacement.CascadeFromInv | User_Schedule/ROS2/user_thread_scheduler/src/interrupt/timer.c:180-185 | The carry chain keeps the placement invariant, however far it goes. |
| WheelPlacement.TickInv | User_Schedule/ROS2/user_thread_scheduler/src/interrupt/timer.c:173-205 | One turn of the loop of `run_timer` keeps the placement invariant, for every granularity >= 1. |
| WheelPlacement.RunInv | User_Schedule/ROS2/user_thread_scheduler/src/interrupt/timer.c:162-207 | So does a whole `run_timer`, which ends one tick after the clock, or where it was if the clock has not moved. |
| WheelPlacement.CreateInv | User_Schedule/ROS2/user_thread_scheduler/src/interrupt/timer.c:251-269 | `create_timer` keeps it, for any due time and period. |
| WheelPlacement.DeleteInv | User_Schedule/ROS2/user_thread_scheduler/src/interrupt/timer.c:272-288 | `delete_timer` keeps it, for any pending timer. |
| WheelPlacement.FiredInWindow | User_Schedule/ROS2/user_thread_scheduler/src/interrupt/timer.c:180-195 | What a tick calls back is never overdue, is due at a multiple of 256 ticks from now, and is early by at most 256(g-1) ticks. |
| WheelPlacement.RunInWindow | User_Schedule/ROS2/user_thread_scheduler/src/interrupt/timer.c:162-207 | The same bound for every callback of a `run_timer`, which lies between its first tick and the clock. |
| WheelPlacement.WindowIsSharp | User_Schedule/ROS2/user_thread_scheduler/src/interrupt/timer.c:97-195 | The bound cannot be improved, at any granularity: a timer created with 256(g-1) ticks left is called back at the very next turn, that much early. |
| WheelAgenda.CascadeConserves | User_Schedule/ROS2/user_thread_scheduler/src/interrupt/timer.c:144-160 | `cascade_timer` neither loses nor copies a timer: the multiset of pending timers is the same. |
| WheelAgenda.CascadeFromConserves | User_Schedule/ROS2/user_thread_scheduler/src/interrupt/timer.c:180-185 | Nor does the carry chain. |
| WheelAgenda.TickConserves | User_Schedule/ROS2/user_thread_scheduler/src/interrupt/timer.c:180-204 | After a tick, pending are the timers pending before, less those called back, plus the periodic ones of these with their new expiry. |
| WheelAgenda.FiledTickIs | User_Schedule/ROS2/user_thread_scheduler/src/interrupt/timer.c:91-141 | A timer fires EarlyBy before its expiry, an amount fixed by the remaining time when it is filed, and never before it was filed. |
| WheelAgenda.RefiledTick | User_Schedule/ROS2/user_thread_scheduler/src/interrupt/timer.c:144-160 | For granularities 1..64, filing a timer again when its slot is turned does not change the tick at which it will fire. |
| WheelAgenda.CascadeAgenda | User_Schedule/ROS2/user_thread_scheduler/src/interrupt/timer.c:144-160 | Hence cascading leaves the agenda, the list of all timers with the ticks they will fire at, as it is. |
| WheelAgenda.CarryAgenda | User_Schedule/ROS2/user_thread_scheduler/src/interrupt/timer.c:180-185 | And so does the whole carry chain, at every tick. |
| WheelTheorems.DeleteAgenda | User_Schedule/ROS2/user_thread_scheduler/src/interrupt/timer.c:272-288 | `delete_timer` takes one entry from the agenda and leaves all others. |
| WheelAgenda.TickRefines | User_Schedule/ROS2/user_thread_scheduler/src/interrupt/timer.c:173-205 | One turn of the wheel is one step of a plain timer list: it calls back exactly the entries of its tick, leaves exactly the later ones, and enters the periodic timers again. |
| WheelTable.TickIsTable | User_Schedule/ROS2/user_thread_scheduler/src/interrupt/timer.c:173-205 | With granularity 1 a turn calls back every timer with that expiry, as often as it is pending, and none other. |
| WheelTable.RunIsTable | User_Schedule/ROS2/user_thread_scheduler/src/interrupt/timer.c:162-207 | With granularity 1 and whatever else is pending, `run_timer` calls a one-shot timer back if its expiry is up to the clock, as often as it is pending, and otherwise leaves it; every callback runs at its expiry. |
| WheelTable.TableRun | User_Schedule/ROS2/user_thread_scheduler/src/interrupt/timer.c:162-207 | With granularity 1 and all timers together, one-shot and periodic: the callbacks of `run_timer` are those of every pending timer at its expiry e, e+p, e+2p, ... up to the clock, and pending afterwards is each with its next expiry. |
| WheelRuns.RunIsAgenda | User_Schedule/ROS2/user_thread_scheduler/src/interrupt/timer.c:162-207 | For granularities 1..64, over a whole `run_timer` and all timers together: the callbacks are exactly the firings of every agenda entry up to the clock, each taken by itself, and the agenda left is what they leave. |
| WheelPunctual.PunctualTick | User_Schedule/ROS2/user_thread_scheduler/src/interrupt/timer.c:173-205 | At every granularity a timer that is due, and due again, within 256 ticks is called by a turn if and only if it is due then. |
| WheelPunctual.PunctualHistory | User_Schedule/ROS2/user_thread_scheduler/src/interrupt/timer.c:162-288 | Such a timer, and at granularity 1 every timer, is called at e, e+p, e+2p, ... exactly, over any history that spares it, and is left with its next expiry. |
| WheelPunctual.PunctualCreated | User_Schedule/ROS2/user_thread_scheduler/src/interrupt/timer.c:251-269 | A timer created with a due time below 256 and a period of at most 256, at any granularity, or with any at granularity 1, fires once at its expiry, or in arithmetic progression from it. |
| WheelHistory.RunInBatches | User_Schedule/ROS2/user_thread_scheduler/src/interrupt/timer.c:162-207 | A `run_timer` to a and then one to b leave the same wheel and make the same calls in the same order as one catch-up run to b. |
| WheelHistory.RunInOrder | User_Schedule/ROS2/user_thread_scheduler/src/interrupt/timer.c:162-207 | Callbacks run in the order of their ticks, none before the wheel's own time and none after the clock. |
| WheelOrder.AddAllSel | User_Schedule/ROS2/user_thread_scheduler/src/interrupt/timer.c:150-158 | Filing the timers of a list one after the other puts them behind those of their slots, in the order of the list. |
| WheelOrder.CascadePair | User_Schedule/ROS2/user_thread_scheduler/src/interrupt/timer.c:144-160 | Cascading, at every granularity, takes two timers of one slot with equal expiries to one slot, and keeps their order. |
| WheelOrder.TickPair | User_Schedule/ROS2/user_thread_scheduler/src/interrupt/timer.c:173-205 | A turn of `run_timer` calls both or neither, in the order of the slot, and files them again in that order if they have the same period. |
| WheelOrder.RearmedBehind | User_Schedule/ROS2/user_thread_scheduler/src/interrupt/timer.c:197-201 | A periodic timer that is filed again goes behind a timer that waits in that slot for the same tick. |
| WheelOrder.HistoryPair | User_Schedule/ROS2/user_thread_scheduler/src/interrupt/timer.c:140-288 | Timers of one slot with equal expiries are called in slot order and at the same tick, at every granularity, through all cascades of any history that spares them; with equal periods their calls go on in turn. |
| WheelOrder.InCreationOrder | User_Schedule/ROS2/user_thread_scheduler/src/interrupt/timer.c:91-269 | So of two timers created at the same wheel time with the same due time, the one created first is called first, whatever is created, deleted and run before and after. |
| WheelOrder.MateFollows | User_Schedule/ROS2/user_thread_scheduler/src/interrupt/timer.c:186-203 | In terms of positions: each such call of the first timer is followed in the log by the call of the second at the same tick. |
| WheelTheorems.HistoryValid | User_Schedule/ROS2/user_thread_scheduler/src/interrupt/timer.c:91-288 | Every history of creating, deleting and running keeps the placement invariant, and time does not go back. |
| WheelTheorems.OneShotOnce | User_Schedule/ROS2/user_thread_scheduler/src/interrupt/timer.c:162-288 | Any granularity, any history: a one-shot timer that is not deleted fires exactly once, in a window that ends at its expiry and is 256(g-1) ticks wide; until then it is pending and not overdue. |
| WheelTheorems.CreateHolds | User_Schedule/ROS2/user_thread_scheduler/src/interrupt/timer.c:251-269 | `create_timer` gives a task that has no timer exactly one, with its expiry counted from the wheel's own time. |
| WheelTheorems.CreatedEntry | User_Schedule/ROS2/user_thread_scheduler/src/interrupt/timer.c:251-269 | `create_timer` adds exactly one entry to the agenda, for the tick FirstTick, which is not after the expiry. |
| WheelTheorems.RunOnly | User_Schedule/ROS2/user_thread_scheduler/src/interrupt/timer.c:162-207 | Over one `run_timer` a timer fires as its agenda entry says, whatever else is in the wheel. |
| WheelTheorems.TimerAlone | User_Schedule/ROS2/user_thread_scheduler/src/interrupt/timer.c:162-288 | Over any history that does not touch a timer, it fires at exactly the ticks at which it would fire if it were alone in the wheel, however the clock is batched and whatever is created or deleted beside it. |
| WheelTheorems.ExactIff | User_Schedule/ROS2/user_thread_scheduler/src/interrupt/timer.c:97-141 | A timer is early if and only if it first comes to wheel 1 or 2 with a remaining time in [256, 256g); never when g is 1. |
| WheelTheorems.ExactNear | User_Schedule/ROS2/user_thread_scheduler/src/interrupt/timer.c:97-141 | The same for remaining times below 1048576g, without recursion. |
| WheelTheorems.NextPeriod | User_Schedule/ROS2/user_thread_scheduler/src/interrupt/timer.c:197-201 | For every period p and every g: a periodic timer that fires at t fires next at t + (p-1) mod 256 + 1 if p is below 256g, and EarlyBy before t + p otherwise; that is t + p if and only if OnTime(g, t, p), a test on the remaining time. |
| WheelTheorems.NoDriftIff | User_Schedule/ROS2/user_thread_scheduler/src/interrupt/timer.c:191-203 | For every period: up to a given tick the firings are f, f+p, f+2p, ... if and only if the timer is on time each time. |
| WheelTheorems.NeverDriftsIff | User_Schedule/ROS2/user_thread_scheduler/src/interrupt/timer.c:191-203 | It never drifts if and only if OnTime holds at f + ip for every i. |
| WheelTheorems.NoDriftAtOne | User_Schedule/ROS2/user_thread_scheduler/src/interrupt/timer.c:191-203 | At granularity 1 no periodic timer drifts, whatever its period. |
| WheelTheorems.SteadyOnTime | User_Schedule/ROS2/user_thread_scheduler/src/interrupt/timer.c:191-203 | Below 16384g it depends on the period alone: on time, then and always, if and only if the period is at most 256 or from 256g on. |
| WheelTheorems.OnTimeNear | User_Schedule/ROS2/user_thread_scheduler/src/interrupt/timer.c:191-203 | From there to 1048576g it depends on the next expiry modulo 16384, which must not be in [256, 256g). |
| WheelTheorems.LatePeriods | User_Schedule/ROS2/user_thread_scheduler/src/interrupt/timer.c:12-12 | Deviation: at the granularity of 10 a timer of period 200000 that fires at 13292 fires next 256 ticks early; one that fires at 12992 does not. |
| WheelDrift.TwosGreatest | User_Schedule/ROS2/user_thread_scheduler/src/interrupt/timer.c:197-201 | Twos(p, n) is the greatest common divisor of p and 2^n: every common divisor divides it. |
| WheelDrift.Reach | User_Schedule/ROS2/user_thread_scheduler/src/interrupt/timer.c:197-201 | Modulo 2^n the multiples of p reach everything that is congruent modulo that divisor. |
| WheelDrift.DriftTest | User_Schedule/ROS2/user_thread_scheduler/src/interrupt/timer.c:191-203 | So for a period p from 16384g to 1048576g, with d the greatest common divisor of p and 16384: a timer that fires at t never drifts if and only if g is 1, or d is at least 256g (or is 16384) and t mod d is not in [256, 256g). |
| WheelTheorems.PeriodicHistory | User_Schedule/ROS2/user_thread_scheduler/src/interrupt/timer.c:191-288 | A periodic timer of any period, over any history that spares it, fires as it would alone, and in arithmetic progression if and only if it is on time each time. |
| WheelTheorems.OneShotHistory | User_Schedule/ROS2/user_thread_scheduler/src/interrupt/timer.c:162-288 | A one-shot timer fires at FirstTick, once, over any history that spares it. |
| WheelTheorems.FirstTickIff | User_Schedule/ROS2/user_thread_scheduler/src/interrupt/timer.c:97-141 | The first firing is on time if and only if the remaining time misses [256, 256g); in that interval only the due time modulo 256 is waited for. |
| WheelTheorems.AsConfigured | User_Schedule/ROS2/user_thread_scheduler/src/interrupt/timer.c:12-12 | With the program's granularity of 10 a due time of 1000 ms fires after 232 ms, and the clean-up timer's 150000 ms is exact and does not drift. |
| TimerRing.Insert | User_Schedule/ROS2/user_thread_scheduler/src/interrupt/timer.c:24-30 | `list_timer_insert` links the new node between its two neighbours. |
| TimerRing.InsertTail | User_Schedule/ROS2/user_thread_scheduler/src/interrupt/timer.c:37-40 | On a well-formed circle, `list_timer_insert_tail` gives the circle with the node at its end. |
| TimerRing.ReplaceInit | User_Schedule/ROS2/user_thread_scheduler/src/interrupt/timer.c:52-58 | `list_timer_replace_init` moves the whole list under the new head and leaves the old one empty, also when it was empty and the links alias. |
| TimerRing.Unlink | User_Schedule/ROS2/user_thread_scheduler/src/interrupt/timer.c:279-281 | Unlinking leaves the circle without that node and in the same order. |
| TimerManager.TimerManager.AddTimer | User_Schedule/ROS2/user_thread_scheduler/src/interrupt/timer.c:91-141 | `add_timer` on the heap files the node as the value-level function does, at the end of its list (which WheelOrder is about), with all 512 lists well-formed and disjoint. |
| TimerManager.TimerManager.Detach | User_Schedule/ROS2/user_thread_scheduler/src/interrupt/timer.c:149-149 | Taking a slot's list out leaves the slot empty and the other lists alone. |
| TimerManager.TimerManager.Refile | User_Schedule/ROS2/user_thread_scheduler/src/interrupt/timer.c:150-158 | Draining the detached list terminates and files every node again, in order, possibly into the same slot. |
| TimerManager.TimerManager.CascadeTimer | User_Schedule/ROS2/user_thread_scheduler/src/interrupt/timer.c:144-160 | `cascade_timer` on the heap equals the value-level cascade, returns the index, and keeps the set of nodes. |
| TimerManager.TimerManager.CarryOver | User_Schedule/ROS2/user_thread_scheduler/src/interrupt/timer.c:180-185 | The chain of calls with its short-circuits equals the value-level carry. |
| TimerManager.TimerManager.FireNext | User_Schedule/ROS2/user_thread_scheduler/src/interrupt/timer.c:191-203 | The pointer is advanced before the callback and the re-filing, so the rest of the list can still be followed. |
| TimerManager.TimerManager.FireAll | User_Schedule/ROS2/user_thread_scheduler/src/interrupt/timer.c:186-203 | All expired nodes are called back in order, and the periodic ones are filed again with their new expiry. |
| TimerManager.TimerManager.OneTick | User_Schedule/ROS2/user_thread_scheduler/src/interrupt/timer.c:173-205 | One turn of the outer loop equals the value-level tick, with the same calls. |
| TimerManager.TimerManager.RunTimer | User_Schedule/ROS2/user_thread_scheduler/src/interrupt/timer.c:162-207 | `run_timer` terminates and equals the value-level run, with the same log of calls. |
| TimerManager.TimerManager.CreateTimer | User_Schedule/ROS2/user_thread_scheduler/src/interrupt/timer.c:251-269 | `create_timer` on the heap allocates one node and equals the value-level creation. |
| TimerManager.TimerManager.DeleteTimer | User_Schedule/ROS2/user_thread_scheduler/src/interrupt/timer.c:272-288 | `delete_timer` on the heap equals the value-level deletion and gives the node up. |
| TimerManager.TimerManager.constructor | User_Schedule/ROS2/user_thread_scheduler/src/interrupt/timer.c:210-223 | `timer_init` builds 512 empty circles and the clock. |
| KernelPartition.DispatchParts | User_Schedule/ROS2/user_thread_scheduler/src/task/task.c:354-360 | Making the first ready task current turns "nobody runs" into a full partition. |
| KernelPartition.ScheduleParts | User_Schedule/ROS2/user_thread_scheduler/src/task/task.c:400-427 | `schedule` keeps the partition, also when the ready list was empty. |
| KernelPartition.YieldParts | User_Schedule/ROS2/user_thread_scheduler/src/task/task.c:433-493 | So do `collaborative_schedule` and `block_task_schedule`. |
| KernelPartition.BlockParts | Thread/task/sync.c:31-39 | The wait of `sema_down`, all of it with interrupts disabled (queueing, `task_block`, the switch), keeps the partition. |
| KernelPartition.SuspendParts | User_Schedule/ROS2/user_thread_scheduler/src/task/task.c:300-305 | `task_block` with interrupts enabled, up to the call of `block_task_schedule`: the task is blocked and still on the processor. |
| KernelPartition.LeaveParts | User_Schedule/ROS2/user_thread_scheduler/src/task/task.c:118-141 | `task_exit` up to `release_tid` takes the dead task out of every list but the pool; it is still on the processor. |
| KernelPartition.ReleaseParts | User_Schedule/ROS2/user_thread_scheduler/src/task/task.c:143-147 | Giving the tid back and enabling interrupts leaves it so. |
| KernelPartition.GiveUpParts | User_Schedule/ROS2/user_thread_scheduler/src/task/task.c:456-491 | `died_task_schedule` and `block_task_schedule`, up to the assignment of `current_task`, make the first ready task current and leave the partition whole. |
| KernelPartition.LoadParts | User_Schedule/ROS2/user_thread_scheduler/src/task/task.c:469-492 | And so does the context switch at their end. |
| KernelPartition.EnrolParts | User_Schedule/ROS2/user_thread_scheduler/src/task/task.c:229-251 | `task_start` as far as the ready list keeps it, from the pool or from new memory; the new task is in the ready list only. |
| KernelPartition.AdmitParts | User_Schedule/ROS2/user_thread_scheduler/src/task/task.c:253-258 | The rest of `task_start` makes it a live task. |
| KernelPartition.UnblockParts | User_Schedule/ROS2/user_thread_scheduler/src/task/task.c:312-324 | `task_unblock` keeps it. |
| KernelPartition.UpParts | Thread/task/sync.c:54-57 | The wake-up of `sema_up` keeps it. |
| KernelPartition.WakeParts | User_Schedule/ROS2/user_thread_scheduler/src/interrupt/timer.c:295-305 | The wake-up of a sleeper keeps it, and the sleeper was in no ready list, as line 299 asserts. |
| KernelPartition.SliceParts | User_Schedule/ROS2/user_thread_scheduler/src/interrupt/timer.c:328-335 | All three branches of the tick handler keep it, also in the middle of `task_start`, `task_exit` or `task_block`, unless the tick is late. |
| KernelPartition.FourKinds | User_Schedule/ROS2/user_thread_scheduler/src/task/task.c:300-493 | A live task is of exactly one kind: running, in the ready list, blocked, or asleep; one that waits on a semaphore is blocked and in no other list, and RUNNING means running or asleep. |
| KernelPartition.OneLink | User_Schedule/ROS2/user_thread_scheduler/src/task/task.c:249-319 | A task is linked by its `general_tag` at most once, in the ready list or in one wait list. |
| KernelInvariant.RunAlarms | User_Schedule/ROS2/user_thread_scheduler/src/interrupt/timer.c:162-207 | `run_timer` turns pending alarms into calls, at most one for each sleeper. |
| KernelInvariant.WakeAlarms | User_Schedule/ROS2/user_thread_scheduler/src/interrupt/timer.c:295-305 | Every call is for a task that is asleep at that moment. |
| KernelInvariant.CallBackInv | User_Schedule/ROS2/user_thread_scheduler/src/interrupt/timer.c:295-305 | All callbacks of one `run_timer` find their task outside the ready list, and after them every sleeper has exactly one alarm again. |
| KernelInvariant.CallBackKeeps | User_Schedule/ROS2/user_thread_scheduler/src/interrupt/timer.c:295-305 | Callbacks move no tid, context or list but the end of the ready list. |
| KernelInvariant.CallBackOne | User_Schedule/ROS2/user_thread_scheduler/src/interrupt/timer.c:295-305 | A task called back is READY, in the ready list and has a full slice; one not called back is unchanged. |
| KernelInvariant.FirstFitBound | User_Schedule/ROS2/user_thread_scheduler/src/task/task.c:93-100 | First fit never goes above the number of live tasks. |
| KernelInvariant.StartTids | User_Schedule/ROS2/user_thread_scheduler/src/task/task.c:93-100 | With fewer than n <= 32767 tasks live, the new tid is the first free number plus one, in 1..n, different from all others, and survives the narrowing to 16 bits. |
| KernelInvariant.LeaveTids | User_Schedule/ROS2/user_thread_scheduler/src/task/task.c:118-141 | A dead task keeps its tid, and nobody else has it. |
| KernelInvariant.ReleaseTids | User_Schedule/ROS2/user_thread_scheduler/src/task/task.c:106-112 | `release_tid` clears exactly its bit: again the set bits are the tids of the live tasks. |
| KernelInvariant.FallAsleep | User_Schedule/ROS2/user_thread_scheduler/src/interrupt/timer.c:332-333 | A task that goes to sleep has exactly one alarm. |
| KernelInvariant.TimersInv | User_Schedule/ROS2/user_thread_scheduler/src/interrupt/timer.c:162-207 | `run_timer` with its callbacks keeps the full invariant: partition, alarms, tids, wheel. |
| KernelInvariant.CurrentKept | User_Schedule/ROS2/user_thread_scheduler/src/interrupt/timer.c:295-325 | The callbacks of a tick do not touch the task that has the processor. |
| KernelInvariant.TickInv | User_Schedule/ROS2/user_thread_scheduler/src/interrupt/timer.c:316-336 | The tick handler keeps it, unless the tick is late: the ticks of the current task are used up while it is in the middle of `task_start`, `task_exit`, `task_block` or a switch. |
| KernelInvariant.StepInv | User_Schedule/ROS2/user_thread_scheduler/src/task/task.c:118-493 | Every event keeps it: both halves of start, the three parts of exit, both forms of block, the two halves of a switch, unblock, wake, the two writes of sleep, a tick that is not late, computing. |
| KernelInvariant.ExecInv | User_Schedule/ROS2/user_thread_scheduler/src/task/task.c:118-493 | So it holds in every state of every run in which at most n tasks are live and no tick is late; KernelLate says exactly what a late tick does. |
| KernelInvariant.BootInv | User_Schedule/ROS2/user_thread_scheduler/src/task/task.c:340-348 | It holds after `task_init` and `timer_init`. |
| KernelInvariant.AsleepIffAlarmed | User_Schedule/ROS2/user_thread_scheduler/src/interrupt/timer.c:331-334 | In every reachable state a live task that is not running has its collaborative flag set if and only if exactly one pending timer names it; then it is in neither the ready list nor a wait list, and otherwise no timer names it. |
| KernelInvariant.PoolIsDead | User_Schedule/ROS2/user_thread_scheduler/src/task/task.c:239-239 | Deviation: every task in the pool is DIED, so the assertion that it is not always fails when a task is reused. |
| KernelInvariant.Tid2TaskFinds | User_Schedule/ROS2/user_thread_scheduler/src/task/task.c:285-294 | `tid2task` returns x if and only if x is the live owner of the tid. |
| KernelInvariant.NarrowingIff | User_Schedule/ROS2/user_thread_scheduler/src/task/task.c:99-99 | The 16-bit field holds bit number + 1 if and only if the number is below 32767. |
| DeadTasks.CleanDeadTask | User_Schedule/ROS2/user_thread_scheduler/src/task/task.c:502-519 | Deviation: a call frees one task if the pool is not empty and fewer than eight tasks live, and none otherwise; it pops the empty list if and only if that task was the only one; it stays within its limit if and only if the pool is empty or eight tasks live, and frees as many as limit and pool allow if and only if the pool is empty. |
| KernelLate.LateIff | User_Schedule/ROS2/user_thread_scheduler/src/task/task.c:143-150 | Deviation: interrupts are enabled before `task_exit`, `task_start` and an unprotected `task_block` are done.  A tick there keeps the invariant if and only if the task has ticks left, or is being switched to with nobody else ready. |
| KernelLate.LateExit | User_Schedule/ROS2/user_thread_scheduler/src/task/task.c:147-150 | With no ticks left in the end of `task_exit`, the dead task is READY in the ready list, and in the pool, and not among all tasks. |
| KernelLate.StartAssertion | User_Schedule/ROS2/user_thread_scheduler/src/task/task.c:233-249 | After that tick the assertion of the next `task_start`, that its task is not in the ready list, fails if and only if the task it takes is the dead one. |
| KernelLate.DeadTaskStarted | User_Schedule/ROS2/user_thread_scheduler/src/task/task.c:118-249 | A run from the start of the program, whatever the clock reads, after which the dead task is READY in the ready list, in the pool and not among all tasks; the next `task_start` takes it and stops at its assertion. |
| KernelLate.LateHalt | User_Schedule/ROS2/user_thread_scheduler/src/task/task.c:304-305 | With no ticks left in an unprotected `task_block`, the task is READY in the ready list with the switch still to do, and everything else is in order. |
| KernelLate.ResumedIsLost | User_Schedule/ROS2/user_thread_scheduler/src/task/task.c:476-492 | When it runs again it does the switch and is lost: RUNNING, not on the processor, and in no list from which a task is taken. |
| KernelLate.LostForever | User_Schedule/ROS2/user_thread_scheduler/src/task/task.c:118-493 | A lost task never runs again, over any run, late ticks included. |
| KernelLate.BlockedTaskLost | User_Schedule/ROS2/user_thread_scheduler/src/task/task.c:300-305 | A run from the start of the program that loses a task. |
| KernelLate.LateLoad | User_Schedule/ROS2/user_thread_scheduler/src/task/task.c:466-492 | A tick between the assignment of `current_task` and the loading of its context overwrites that context with the machine's if and only if the task has no ticks left. |
| KernelLate.WrongContext | User_Schedule/ROS2/user_thread_scheduler/src/task/task.c:476-492 | A run from the start of the program after which a task computes with the context of another. |
| KernelLate.LateStart | User_Schedule/ROS2/user_thread_scheduler/src/task/task.c:251-258 | A late tick in `task_start`: the new task may run before it is in the list of all tasks. |
| KernelLate.UnlistedTask | User_Schedule/ROS2/user_thread_scheduler/src/task/task.c:229-262 | A run from the start of the program in which it waits for the processor so. |
| KernelStart.StartTicks | User_Schedule/ROS2/user_thread_scheduler/src/task/task.c:186-251 | Any number of ticks between the early enabling of interrupts in `allocate_tid` and the ready list leave the new task, which is in no list, as it is, and do otherwise what they would have done before the call. |
| KernelStart.StartIsOneStep | User_Schedule/ROS2/user_thread_scheduler/src/task/task.c:186-251 | If the caller has the processor after them, the whole is the same as those ticks followed by the stretch in one step. |
| KernelInvariant.EnabledWhen | User_Schedule/ROS2/user_thread_scheduler/src/task/task.c:229-482 | In every reachable state: a tick can be handled unless the task going to sleep is the last one ready; a task that is not about to sleep can exit, can block on a semaphore if another is ready, and can start a task while fewer than n are live; a dying or blocked one can switch if and only if another is ready. |
| KernelInvariant.HereWhen | User_Schedule/ROS2/user_thread_scheduler/src/task/task.c:300-305 | In every reachable state the current task can block, with one of the statuses BLOCKED, WAITING and HANGING and no other, if it is in the middle of nothing and has not asked to sleep; in `sema_down` also only with another task ready.  It can call a sleep function or compute whenever it is in the middle of nothing. |
| KernelInvariant.OthersWhen | User_Schedule/ROS2/user_thread_scheduler/src/task/task.c:312-324 | The first waiter of every semaphore can be woken, and every task with one of these statuses that waits on no semaphore can be unblocked; no other task can. |
| KernelInvariant.RestWhen | User_Schedule/ROS2/user_thread_scheduler/src/task/task.c:143-492 | What is half done, `task_start`, `task_exit` or a switch, can be finished. |
| KernelInvariant.QuietSleepers | User_Schedule/ROS2/user_thread_scheduler/src/task/task.c:118-324 | No event other than a tick changes who is asleep, or the wheel. |
| KernelSleep.FallsAsleep | User_Schedule/ROS2/user_thread_scheduler/src/interrupt/timer.c:331-334 | The first tick after a task has asked to sleep puts it to sleep, until the tick FirstTick of its time counted from the wheel's clock. |
| KernelSleep.TickSleep | User_Schedule/ROS2/user_thread_scheduler/src/interrupt/timer.c:316-336 | A tick before that time leaves the task asleep; the first one at or after it makes it ready with a full slice. |
| KernelSleep.SleepLasts | User_Schedule/ROS2/user_thread_scheduler/src/interrupt/timer.c:316-336 | Over any run without a tick that late, the task stays asleep, whatever the others do. |
| KernelSleep.SleepLengthIff | User_Schedule/ROS2/user_thread_scheduler/src/hook.c:237-238 | Deviation: the hooked sleep sets its flag before its time.  The sleep lasts as long as asked for if and only if no tick comes between the two writes, or the time held in the structure gives the same tick; otherwise it lasts for the time held there. |
| KernelSleep.KeepsTime | User_Schedule/ROS2/user_thread_scheduler/src/hook.c:237-272 | A task that is awake and calls no sleep function keeps the time held in its structure, over every run. |
| KernelSleep.StaleTime | User_Schedule/ROS2/user_thread_scheduler/src/hook.c:237-238 | So the time that such a call writes after its sleep is over is what a later call sleeps for if it is interrupted there too, whatever that call asks for. |
| KernelRuns.StepMoves | User_Schedule/ROS2/user_thread_scheduler/src/task/task.c:312-493 | An event moves a ready task back by one if it pushes a woken task to the front, forward by one if it dispatches, and not otherwise; leaving the list means getting the processor. |
| KernelRuns.BypassLaw | User_Schedule/ROS2/user_thread_scheduler/src/task/task.c:312-493 | Over any run, until a ready task gets the processor its place is the first place plus the pushes minus the dispatches. |
| KernelRuns.BoundedBypass | User_Schedule/ROS2/user_thread_scheduler/src/task/task.c:312-493 | Hence a task at place k gets the processor within k + 1 + m dispatches, m being the wake-ups pushed to the front meanwhile. |
| KernelRuns.WaitersInOrder | Thread/task/sync.c:38-57 | Over any run, the tasks that waited on a semaphore or blocked on it are those woken from it, in that order, followed by those that still wait. |
| KernelRuns.StepPrivate | User_Schedule/ROS2/user_thread_scheduler/src/task/task.c:418-492 | No event but the task's own computing changes the context that it computes with, in the middle of a switch either. |
| KernelRuns.ContextsArePrivate | User_Schedule/ROS2/user_thread_scheduler/src/task/task.c:400-493 | Over any run, whenever a task has the processor the machine context is the one it left there, also when a lone task is switched to itself. |
| KernelRuns.StartsFresh | User_Schedule/ROS2/user_thread_scheduler/src/task/task.c:210-220 | A new task starts with the context built for it. |
| KernelLaws.StepTcb | User_Schedule/ROS2/user_thread_scheduler/src/task/task.c:118-493 | What every event does to the control block of every live task that does not exit: priority and tid stay; the ticks change only in a tick, of the running task by one or back to the priority, and of a task whose sleep ends to the priority; the sleep fields change only by the two writes of its own call and by the end of its sleep; a blocked task keeps its status until it is unblocked. |
| KernelLaws.KeptForLife | User_Schedule/ROS2/user_thread_scheduler/src/task/task.c:118-493 | Over any run a task has the same priority and tid until it exits, however often it waits, sleeps or is passed over. |
| KernelLaws.StartedForLife | User_Schedule/ROS2/user_thread_scheduler/src/task/task.c:171-204 | A task started with a priority has it, modulo 256, until it exits, begins awake with a full slice, and has the first free tid. |
| KernelLaws.MainForLife | User_Schedule/ROS2/user_thread_scheduler/src/task/task.c:267-279 | In every run from the start the main task has priority 3 and tid 1, began with 3 ticks, and computes with the context with which the scheduler was started. |
| KernelLaws.TicksLaw | User_Schedule/ROS2/user_thread_scheduler/src/interrupt/timer.c:300-335 | After any run the ticks of a live task are what the ticks that found it running and the ends of its sleeps have made of them; nothing else touches them. |
| KernelLaws.SliceKept | Thread/task/sync.c:31-39 | A task that does not sleep and that no tick finds running keeps its ticks and its priority: one that blocks on a semaphore goes on, when woken and dispatched, with the slice with which it blocked. |
| KernelLaws.WakesWithItsShare | User_Schedule/ROS2/user_thread_scheduler/src/interrupt/timer.c:295-335 | A task that falls asleep is woken with the priority with which it fell asleep, and a full slice of it. |
| KernelOrder.CallBackReady | User_Schedule/ROS2/user_thread_scheduler/src/interrupt/timer.c:295-305 | The callbacks of a `run_timer` append the sleepers to the ready list in the order of the calls. |
| KernelOrder.StepReady | User_Schedule/ROS2/user_thread_scheduler/src/task/task.c:251-493 | The ready list and the processor after every event, exactly: an unblocked task in front; a new task, woken sleepers, and behind them the task whose slice has ended, at the end; the first of them all runs if the event gives the processor up. |
| KernelOrder.ReusedInOrder | User_Schedule/ROS2/user_thread_scheduler/src/task/task.c:132-244 | Over any run the dead tasks of the pool are used again in the order in which they died; the main task is never among them and stays the same. |
| KernelOrder.StepOrder | User_Schedule/ROS2/user_thread_scheduler/src/task/task.c:129-255 | The list of all tasks keeps its order, and a new task is the last. |
| KernelOrder.Seniority | User_Schedule/ROS2/user_thread_scheduler/src/task/task.c:129-255 | Over any run a live task stays before all that were behind it or were started later, so that `tid2task` and `get_next_task_011` meet them in the order of starting. |
| KernelWheel.WheelOfRun | User_Schedule/ROS2/user_thread_scheduler/src/interrupt/timer.c:162-335 | Over any run of the scheduler its wheel is what the wheel's own operations make of it (a run for each tick, a one-shot timer for each task that falls asleep), with the same callbacks; so every theorem about histories of the wheel holds of the scheduler. |
| KernelWheel.BootWheel | User_Schedule/ROS2/user_thread_scheduler/src/interrupt/timer.c:210-226 | At the start the wheel holds the timer of `clean_dead_task` and no other: due in 150000 ticks, with period 150000. |
| KernelWheel.CleanUpAlone | User_Schedule/ROS2/user_thread_scheduler/src/interrupt/timer.c:162-335 | Over any run that timer fires as if it were alone. |
| KernelWheel.CleanUpOnTime | User_Schedule/ROS2/user_thread_scheduler/src/interrupt/timer.c:224-224 | In every run from the start, at the granularity 10 of the program and up to 64, `clean_dead_task` is called at start + 150000, + 300000, ... as far as the wheel has been run, and at no other tick. |
| RoundRobin.SlicesCount | User_Schedule/ROS2/user_thread_scheduler/src/interrupt/timer.c:328-331 | In the slices of the first i tasks of the queue each of them is interrupted priority + 1 times and the others never. |
| RoundRobin.Shares | User_Schedule/ROS2/user_thread_scheduler/src/interrupt/timer.c:328-331 | Over a window of one round, wherever in a slice it begins, each task of the queue is interrupted exactly priority + 1 times. |
| RoundRobin.AlwaysWithinSlice | User_Schedule/ROS2/user_thread_scheduler/src/task/task.c:201-420 | In every run no task ever has more ticks left than its priority. |
| RoundRobin.NobodyWakes | User_Schedule/ROS2/user_thread_scheduler/src/interrupt/timer.c:316-325 | While nobody sleeps, `run_timer` touches no task. |
| RoundRobin.SteadyTick | User_Schedule/ROS2/user_thread_scheduler/src/interrupt/timer.c:328-331 | While nobody sleeps, a tick of the whole scheduler is a turn of that queue, and the condition stays true. |
| RoundRobin.TicksAreTurns | User_Schedule/ROS2/user_thread_scheduler/src/interrupt/timer.c:316-336 | The tasks interrupted in a run are those of the queue. |
| RoundRobin.WeightedRoundRobin | User_Schedule/ROS2/user_thread_scheduler/src/task/task.c:400-427 | Weighted round robin: over any sum of (priority + 1) consecutive ticks, every task that is running or ready is the interrupted one exactly priority + 1 times. |
| RoundRobin.Settles | User_Schedule/ROS2/user_thread_scheduler/src/task/task.c:400-427 | From any state with nobody asleep and whatever ticks the ready tasks have left: once as many tasks have been dispatched as were ready, all ready tasks have full slices. |
| RoundRobin.SettlesSoon | User_Schedule/ROS2/user_thread_scheduler/src/task/task.c:400-427 | That is so at the latest after as many ticks as the current task and the ready tasks but the last have left, plus one each. |
| RoundRobin.DebtAtMost | User_Schedule/ROS2/user_thread_scheduler/src/task/task.c:400-427 | Which is less than one round. |
| RoundRobin.SharesFromAnyStart | User_Schedule/ROS2/user_thread_scheduler/src/task/task.c:400-427 | So from any such state the shares become exact within a round and stay so. |
| Aging.PassesClosedForm | User_Schedule/ROS2/user_thread_scheduler/src/task/task.c:376-381 | For priority p <= 128 and any uint8 ticks t, k passes give 2p-1 - floor((2p-1-t)/2^k) if t is below 2p, and 2p + floor((t-2p)/2^k) if not; they never wrap. |
| Aging.NeverWrapsIff | User_Schedule/ROS2/user_thread_scheduler/src/task/task.c:380-380 | From any uint8 ticks, the closed form holds for ever if and only if the priority is at most 128; above, some pass wraps the uint8. |
| Aging.NinePasses | User_Schedule/ROS2/user_thread_scheduler/src/task/task.c:380-380 | Nine passes bring any such task to its limit, 2p-1 from below or 2p from above. |
| Aging.PickExists | User_Schedule/ROS2/user_thread_scheduler/src/task/task.c:384-387 | There is a choice if and only if some task is ready, and then only one: the earliest READY task of maximal ticks. |
| Aging.Next011Parts | User_Schedule/ROS2/user_thread_scheduler/src/task/task.c:384-394 | Running that choice keeps the partition, takes only that task from the ready list, and leaves the ticks of all ready tasks alone; the choice has at least as many ticks as any of them, and more than any that stands before it among all tasks. |
| AgingRuns.TickPossible | User_Schedule/ROS2/user_thread_scheduler/src/task/task.c:366-427 | With `get_next_task_011` in the place of `get_next_task`, a tick can be handled if and only if it can be with `get_next_task`, and the choice is determined. |
| AgingRuns.GoInv | User_Schedule/ROS2/user_thread_scheduler/src/task/task.c:366-427 | That scheduler keeps the full invariant too, over every run. |
| AgingRuns.MoveIdle | User_Schedule/ROS2/user_thread_scheduler/src/task/task.c:372-381 | In one step of it, a task that is and stays blocked or asleep gathers ticks once if the step is a pass over all tasks, and keeps ticks and priority if not. |
| AgingRuns.TicksPassed | User_Schedule/ROS2/user_thread_scheduler/src/task/task.c:366-395 | Over every run in which a task stays blocked or asleep, whatever else happens, its ticks are what that many passes make of them. |
| AgingRuns.TicksGathered | User_Schedule/ROS2/user_thread_scheduler/src/task/task.c:366-395 | So for priorities up to 128 they follow the closed form in the number of passes. |
| AgingLaws.MoveTcb | User_Schedule/ROS2/user_thread_scheduler/src/task/task.c:366-427 | What every step of that scheduler does to the ticks of every live task: a pass gathers for those that are blocked or asleep, the running task loses one or is filled up, the end of a sleep fills up, and nothing else changes any; priority and tid stay. |
| AgingLaws.GoTcb | User_Schedule/ROS2/user_thread_scheduler/src/task/task.c:366-427 | So over every run of it a task keeps its priority and tid until it exits, and its ticks are what those steps have made of them. |
| Scheduler.ListAssertions | User_Schedule/ROS2/user_thread_scheduler/src/task/task.c:138-319 | In every reachable state the list assertions of `task_start`, `schedule`, `task_unblock` and `sema_down` hold, also when a function is half done. |
| Scheduler.TickAssertions | User_Schedule/ROS2/user_thread_scheduler/src/interrupt/timer.c:299-299 | And so do the callbacks' assertion and the one of `schedule` after them. |
| Scheduler.ScheduleIs | User_Schedule/ROS2/user_thread_scheduler/src/task/task.c:400-451 | `schedule` is the queueing of the current task followed by `collaborative_schedule`. |
| Scheduler.Scheduler.AllocateTid | User_Schedule/ROS2/user_thread_scheduler/src/task/task.c:93-100 | The lowest clear bit is found byte by byte and set; the tid is that bit plus one, narrowed. |
| Scheduler.Scheduler.ReleaseTid | User_Schedule/ROS2/user_thread_scheduler/src/task/task.c:106-112 | Exactly the tid's bit is cleared. |
| Scheduler.Scheduler.InitTask | User_Schedule/ROS2/user_thread_scheduler/src/task/task.c:171-204 | All scheduling fields of the task, and no other task. |
| Scheduler.Scheduler.MakeMainTask | User_Schedule/ROS2/user_thread_scheduler/src/task/task.c:267-279 | The main task gets tid 1, priority 3, RUNNING, and is appended to the list of all tasks and counted, with the assertion that it was not there. |
| Scheduler.Scheduler.TimerInit | User_Schedule/ROS2/user_thread_scheduler/src/interrupt/timer.c:210-226 | With the clean-up timer the scheduler is in the initial state of the state machine, whose timer KernelWheel.CleanUpOnTime is about. |
| Scheduler.Scheduler.TakeMemory | User_Schedule/ROS2/user_thread_scheduler/src/task/task.c:233-244 | The first task of the pool, or new memory if the pool is empty; in no list. |
| Scheduler.Scheduler.Enrol | User_Schedule/ROS2/user_thread_scheduler/src/task/task.c:229-251 | `task_start` in place as far as the ready list, with its assertion. |
| Scheduler.Scheduler.Admit | User_Schedule/ROS2/user_thread_scheduler/src/task/task.c:253-258 | And its rest, with the other assertion. |
| Scheduler.Scheduler.TaskStart | User_Schedule/ROS2/user_thread_scheduler/src/task/task.c:229-262 | The whole of `task_start` when no tick comes between. |
| Scheduler.Scheduler.GetNextTask | User_Schedule/ROS2/user_thread_scheduler/src/task/task.c:354-360 | Pops the ready list; only the popped task changes. |
| Scheduler.Scheduler.SwitchTo | User_Schedule/ROS2/user_thread_scheduler/src/task/task.c:444-450 | Saves into the old task, loads from the new one. |
| Scheduler.Scheduler.Schedule | User_Schedule/ROS2/user_thread_scheduler/src/task/task.c:400-427 | `schedule` in place equals the state machine's, with its assertion. |
| Scheduler.Scheduler.Yield | User_Schedule/ROS2/user_thread_scheduler/src/task/task.c:433-493 | `collaborative_schedule` and `block_task_schedule` in place. |
| Scheduler.Scheduler.TaskBlock | Thread/task/sync.c:31-39 | The wait of `sema_down` in place, with the assertions of `sema_down` and `task_block`; what it leaves of the blocking task is in KernelLaws.StepTcb. |
| Scheduler.Scheduler.Suspend | User_Schedule/ROS2/user_thread_scheduler/src/task/task.c:300-305 | `task_block` with interrupts enabled, up to the switch. |
| Scheduler.Scheduler.BlockUnprotected | User_Schedule/ROS2/user_thread_scheduler/src/task/task.c:300-305 | All of it when no tick comes. |
| Scheduler.Scheduler.TaskUnblock | User_Schedule/ROS2/user_thread_scheduler/src/task/task.c:312-324 | `task_unblock` in place: to the front of the ready list, with its two assertions. |
| Scheduler.Scheduler.WakeWaiter | Thread/task/sync.c:54-57 | The longest waiting task of the semaphore is unblocked. |
| Scheduler.Scheduler.LeaveLists | User_Schedule/ROS2/user_thread_scheduler/src/task/task.c:118-141 | `task_exit` in place up to `release_tid`. |
| Scheduler.Scheduler.GiveBackTid | User_Schedule/ROS2/user_thread_scheduler/src/task/task.c:143-147 | `release_tid` in place, for a dead task of any reachable state. |
| Scheduler.Scheduler.GiveUp | User_Schedule/ROS2/user_thread_scheduler/src/task/task.c:456-491 | `died_task_schedule` and `block_task_schedule` in place, up to the assignment of `current_task`. |
| Scheduler.Scheduler.LoadContext | User_Schedule/ROS2/user_thread_scheduler/src/task/task.c:469-492 | `context_set` and `context_swap`: the old context is saved unless its task is dead, and the new one loaded. |
| Scheduler.Scheduler.TaskExit | User_Schedule/ROS2/user_thread_scheduler/src/task/task.c:118-151 | The whole of `task_exit` when no tick comes in its second half. |
| Scheduler.Scheduler.Wake | User_Schedule/ROS2/user_thread_scheduler/src/interrupt/timer.c:295-305 | `collaborative_schedule_helper` in place. |
| Scheduler.Scheduler.CallBack | User_Schedule/ROS2/user_thread_scheduler/src/interrupt/timer.c:191-203 | The callbacks of a `run_timer`, in order. |
| Scheduler.Scheduler.RunTimers | User_Schedule/ROS2/user_thread_scheduler/src/interrupt/timer.c:162-207 | `run_timer` with its callbacks, on the heap of nodes and the heap of tasks. |
| Scheduler.Scheduler.TimeSlice | User_Schedule/ROS2/user_thread_scheduler/src/interrupt/timer.c:328-335 | The three branches of the tick handler in place; what they leave of each task is in KernelLaws.StepTcb. |
| Scheduler.Scheduler.InterruptTimerHandler | User_Schedule/ROS2/user_thread_scheduler/src/interrupt/timer.c:316-336 | The tick handler in place equals the state machine's tick. |
| Scheduler.Scheduler.AgeAndPick | User_Schedule/ROS2/user_thread_scheduler/src/task/task.c:373-389 | The loop of `get_next_task_011` gives every waiting or sleeping task its ticks once, and finds the earliest ready task of maximal ticks. |
| Scheduler.Scheduler.GetNextTask011 | User_Schedule/ROS2/user_thread_scheduler/src/task/task.c:366-395 | `get_next_task_011` in place. |
| Scheduler.Scheduler.Do | User_Schedule/ROS2/user_thread_scheduler/src/task/task.c:118-493 | Every event on the heap is the state machine's step, late ticks included, and in every reachable state its preconditions hold. |
| Lock.ReentrantLock.constructor | Thread/task/sync.c:19-24 | `lock_init`: free, value 1, nobody waits. |
| Lock.ReentrantLock.Down | Thread/task/sync.c:31-42 | One pass of the loop of `sema_down`: takes the semaphore if it is raised, and queues for it if not. |
| Lock.ReentrantLock.Up | Thread/task/sync.c:52-57 | `sema_up` as far as nothing interrupts it: all of it, or up to the wake-up. |
| LockProtocol.StartInv | Thread/task/sync.c:19-24 | The invariant holds after `lock_init`, for any set of tasks. |
| LockProtocol.StartHeard | Thread/task/sync.c:19-24 | No wake-up is lost yet after `lock_init`. |
| LockProtocol.AssertionsHold | Thread/task/sync.c:27-92 | In every state with the invariant every assertion of sync.c that a task is about to evaluate holds. |
| LockProtocol.QueueInv | Thread/task/sync.c:31-39 | Queueing keeps the invariant. |
| LockProtocol.TakeInv | Thread/task/sync.c:42-45 | Taking the semaphore keeps it. |
| LockProtocol.WakeInv | Thread/task/sync.c:54-57 | Unblocking the first waiter keeps it, and that task was blocked. |
| LockProtocol.RaiseInv | Thread/task/sync.c:58-60 | Raising the value keeps it. |
| LockProtocol.StepInv | Thread/task/sync.c:27-92 | Every step of every task keeps it, for any number of tasks and any interleaving. |
| LockProtocol.RunInv | Thread/task/sync.c:27-92 | So in every run no assertion of sync.c fails. |
| LockProtocol.ValuePlusOwners | Thread/task/sync.c:27-61 | Semaphore value + number of tasks between a completed down and their up = 1; the holder, when set, is that task. |
| LockProtocol.HolderBetweenCalls | Thread/task/sync.c:64-92 | Between calls a task is the holder if and only if its depth is positive; the repeat count is its depth, and every other task has depth 0.  LockCounts.HeldAsOftenAsAcquired says that the depth is the number of its calls of `lock_acquire` less those of `lock_release`. |
| LockProtocol.TestIsStable | Thread/task/sync.c:68-68 | No step of another task changes whether a task is the holder. |
| LockProtocol.StepHeardIff | Thread/task/sync.c:49-61 | A step loses a wake-up if and only if the last woken task looks at the value before the waker has raised it. |
| LockProtocol.NoLostWakeUp | Thread/task/sync.c:49-61 | If `sema_up` is not interrupted, then in every state of every run a free semaphore with waiters has a woken task still to take it. |
| LockProtocol.WaitersHaveHope | Thread/task/sync.c:27-61 | Then a waiting task always has somebody awake who has the lock or is about to take it. |
| LockProtocol.FirstComeFirstServed | Thread/task/sync.c:38-57 | Over any run and interleaving, tasks are unblocked in the order in which they queued, whoever barges in. |
| LockProtocol.LostWakeUp | Thread/task/task.c:315-323 | Deviation: `task_unblock` enables interrupts, so `sema_up` can be interrupted; a run of two tasks ends with the semaphore free, nobody in a call, and one task waiting. |
| LockCounts.StepBalance | Thread/task/sync.c:64-92 | A call of `lock_acquire` adds one to what its task has acquired or is acquiring, a call of `lock_release` takes one away, and no other step of anybody changes it. |
| LockCounts.RunBalance | Thread/task/sync.c:64-92 | So over any run it changes by the number of the one calls less that of the others. |
| LockCounts.HeldAsOftenAsAcquired | Thread/task/sync.c:64-92 | After any run and for any task that is in no call: it holds the lock if and only if it has called `lock_acquire` more often than `lock_release`, and then the repeat count is the difference. |
| LockCounts.OneHolder | Thread/task/sync.c:64-92 | Of any two such tasks, one has released as often as it has acquired. |
| LockCounts.AllReleased | Thread/task/sync.c:64-92 | When all have returned and released as often as they acquired, the lock is as `lock_init` left it. |
| LockCounts.CallsReturn | Thread/task/sync.c:27-92 | A call of `lock_acquire` returns within five of its task's own steps, one of `lock_release` within seven, and each time the task queues costs it one more. |
| LockProgram.Program.GoAcquire | Thread/task/sync.c:64-77 | The steps of `lock_acquire` on the lock object, with its assertion, are those of the protocol, whose counting is that of LockCounts. |
| LockProgram.Program.GoDown | Thread/task/sync.c:27-46 | And those of `sema_down`, with its three assertions. |
| LockProgram.Program.GoRelease | Thread/task/sync.c:80-92 | And those of `lock_release`. |
| LockProgram.Program.GoUp | Thread/task/sync.c:49-61 | And those of `sema_up`. |
| IoQueue.LengthMeans | Thread/device/ioqueue.c:99-108 | `ioq_length` is below 64, leads from tail to head around the ring, is 63 exactly when the queue is full and 0 exactly when it is empty. |
| IoQueue.StoreUnseen | Thread/device/ioqueue.c:90-90 | Writing at head changes nothing that is in the queue. |
| IoQueue.HeadMoves | Thread/device/ioqueue.c:91-91 | Moving head of a queue that is not full adds exactly the character there. |
| IoQueue.TailMoves | Thread/device/ioqueue.c:68-68 | Moving tail of a queue that is not empty takes exactly the oldest character. |
| IoQueue.StepInv | Thread/device/ioqueue.c:54-96 | Every step of either side keeps: produced = consumed ++ buffered, and what each side has seen is still true. |
| IoQueue.FirstInFirstOut | Thread/device/ioqueue.c:54-108 | Over every interleaving the characters returned are the first of those put, the others are buffered, and their number is `ioq_length`, at most 63. |
| IoQueue.WhoCanGoOn | Thread/device/ioqueue.c:61-91 | The producer passes its test if and only if fewer than 63 characters are waiting, the consumer if and only if one is, so they never both fail; and each can always do its next access. |
| IoQueue.PutsGoIn | Thread/device/ioqueue.c:75-96 | Every character with which `ioq_putchar` was called and found room has gone into the queue, in the order of the calls, or is the one in hand. |
| IoQueue.GotsComeOut | Thread/device/ioqueue.c:54-72 | And what has left the queue is what the calls of `ioq_getchar` returned. |
| IoQueue.OutAsIn | Thread/device/ioqueue.c:54-96 | So from an empty queue, over every interleaving, what `ioq_getchar` has returned is the beginning of what `ioq_putchar` was called with, and at most 64 characters are on their way. |
| IoQueue.Ring.TestRoom | Thread/device/ioqueue.c:85-85 | The producer's test passes if and only if there is room. |
| IoQueue.Ring.StoreByte | Thread/device/ioqueue.c:90-90 | The store is one step of the machine. |
| IoQueue.Ring.MoveHead | Thread/device/ioqueue.c:91-91 | So is the update of head. |
| IoQueue.Ring.TestByte | Thread/device/ioqueue.c:61-61 | The consumer's test passes if and only if there is a character. |
| IoQueue.Ring.LoadByte | Thread/device/ioqueue.c:67-67 | The load is one step. |
| IoQueue.Ring.MoveTail | Thread/device/ioqueue.c:68-68 | So is the update of tail. |
| IoQueue.Ring.Count | Thread/device/ioqueue.c:99-108 | `ioq_length` counts the characters put and not yet returned. |
| Bitmap.WriteBits | User_Schedule/ROS2/user_thread_scheduler/src/lib/bitmap.c:94-98 | Or-ing or and-ing the mask into byte i/8 changes bit i of the map and no other. |
| Bitmap.RunInside | User_Schedule/ROS2/user_thread_scheduler/src/lib/bitmap.c:61-78 | While the map has a run, the bit after the last does not influence the result. |
| Bitmap.RunOutside | User_Schedule/ROS2/user_thread_scheduler/src/lib/bitmap.c:61-78 | Deviation: when it has none, a run is reported if and only if the last cnt-1 bits and the bit past the end are clear, and that run leaves the map by one bit. |
| Bitmap.Bitmap.Test | User_Schedule/ROS2/user_thread_scheduler/src/lib/bitmap.c:25-29 | `bitmap_scan_test` reads the named bit, or bit 0 of the byte past the end. |
| Bitmap.Bitmap.Set | User_Schedule/ROS2/user_thread_scheduler/src/lib/bitmap.c:87-99 | `bitmap_set` changes exactly the named bit. |
| Bitmap.Bitmap.FirstFree | User_Schedule/ROS2/user_thread_scheduler/src/lib/bitmap.c:39-56 | The byte loop and the bit loop end at the first clear bit. |
| Bitmap.Bitmap.Scan | User_Schedule/ROS2/user_thread_scheduler/src/lib/bitmap.c:37-79 | `bitmap_scan` returns the first run of cnt clear bits if the map has one, without reading past the end; otherwise -1 or the run of RunOutside. |
| IntrusiveList.InsertBefore | User_Schedule/ROS2/user_thread_scheduler/src/lib/list.c:15-25 | Links the element in before the given one, everything else in place. |
| IntrusiveList.Unlink | User_Schedule/ROS2/user_thread_scheduler/src/lib/list.c:40-48 | Unlinks the element, everything else in place. |
| IntrusiveList.List.constructor | User_Schedule/ROS2/user_thread_scheduler/src/lib/list.c:6-12 | `list_init`: the two sentinels face each other. |
| IntrusiveList.List.Push | User_Schedule/ROS2/user_thread_scheduler/src/lib/list.c:28-31 | `list_push` puts the element first. |
| IntrusiveList.List.Append | User_Schedule/ROS2/user_thread_scheduler/src/lib/list.c:34-37 | `list_append` puts it last. |
| IntrusiveList.List.Remove | User_Schedule/ROS2/user_thread_scheduler/src/lib/list.c:40-48 | `list_remove` takes it out, and it is then in the list no more. |
| IntrusiveList.List.Pop | User_Schedule/ROS2/user_thread_scheduler/src/lib/list.c:51-56 | `list_pop` takes the first out. |
| IntrusiveList.List.IsEmpty | User_Schedule/ROS2/user_thread_scheduler/src/lib/list.c:102-105 | `list_empty` if and only if there are no elements. |
| IntrusiveList.List.Find | User_Schedule/ROS2/user_thread_scheduler/src/lib/list.c:59-69 | `elem_find` if and only if the element is in the list. |
| IntrusiveList.List.Traverse | User_Schedule/ROS2/user_thread_scheduler/src/lib/list.c:72-87 | `list_traversal` returns the first element that satisfies the function, or none if there is none. |
| IntrusiveList.List.Len | User_Schedule/ROS2/user_thread_scheduler/src/lib/list.c:90-99 | `list_len` is the number of elements. |
| ListRaces.InterruptedAppend | User_Schedule/ROS2/user_thread_scheduler/src/lib/list.c:15-25 | Deviation: the list operations of `task.c` lines 251, 464 and 484 run with interrupts enabled.  An append that a tick interrupts with appends of its own comes to be in the list if and only if the tick comes before its first write or after its last; otherwise its element cannot be reached from the head. |
| ListRaces.LostAppends | User_Schedule/ROS2/user_thread_scheduler/src/lib/list.c:15-37 | After that every further append is lost too. |
| ListRaces.InterruptedPop | User_Schedule/ROS2/user_thread_scheduler/src/lib/list.c:40-56 | In the middle of a pop the appends of a tick are all lost if and only if they come between its two writes and the popped element is the only one. |

## Left out

- 32-bit wrap-around of the clock and of expiry times: ticks are unbounded natural numbers, and an expiry is never before the wheel's time.
- The branches of `add_timer` for negative and for very large remaining times, which an unsigned 32-bit division by 10 cannot reach.
- `destroy_timer_manager`, `delete_array_list_timer`, failing allocations, and freeing: a freed timer is one that no list holds.
- DeadTasks.CleanDeadTask: taken by itself; in the scheduler's runs the callback changes nothing, as is right with an empty pool or at least eight live tasks.
- `task_exit` of a task other than the current one.
- Stacks, the stack magic, task names, `elapsed_ticks`, `is_hook`, printing, and `all_tasks_finished`.
- Scheduler.Scheduler.Do: the first half of starting a task is its own method, Enrol, and not a case of it, because the memory is chosen inside.
- KernelPartition.EnrolParts: `task_start` from `allocate_tid` to the ready list is one step; waiting for the tid lock there, and in `release_tid` by a dead task, is not modelled, nor are other tasks' events while the caller has lost the processor there.
- Scheduler.Scheduler.Enrol: the same stretch is one method.
- RoundRobin.SharesFromAnyStart: the other way into `schedule`, `sig_handler` on SIGUSR1 (`timer.c` lines 308-313), which ends a used-up slice between two ticks, is not modelled; the shares hold while that signal does not come.
- KernelInvariant.ExecInv: stated for runs without late ticks, with which it is false; KernelLate gives the exact condition.
- IoQueue.FirstInFirstOut: one producer and one consumer; says nothing about progress, because a task that waits keeps the queue's lock, and the waiting and waking of the two sides is not modelled.
- LockProtocol.StepInv: tasks do not exit while they use the lock, and one lock is considered at a time.
- LockProtocol.RunInv: the repeat count is an unbounded number, where the program's has 32 bits.
- RoundRobin.WeightedRoundRobin: tasks that were unblocked in the middle of a slice begin with the ticks they had left, so the shares are stated for ready tasks with full slices; SharesFromAnyStart says that this is so within a round.
- Scheduler.Scheduler.CallBack: the callbacks of one `run_timer` run after its turns and not between them; they are independent of the wheel.
- The lists of the scheduler are sequences in its class; the linked list that implements them is proved separately in `IntrusiveList`, and offsets from a link to its task are not modelled.
- The wait lists of semaphores inside the scheduler are numbered queues; the values of the semaphores belong to the lock protocol.
- `Thread/`'s copies of `task.c`, `list.c` and `bitmap.c`, which have the same text, and its handler that is driven by another signal.
- Assembly, signal frames, `dlsym` hooks, sockets, consoles, eBPF and netlink code, ROS2 nodes, benchmarks, plots and notes.
