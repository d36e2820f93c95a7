# Coroutine scheduler, byte buffer and parameter parsing: a Dafny model

The project models the hard core of the IOCoroutineScheduler library and proves properties of it for
every input, every run and every reachable state.

**Scheduler.** `Runtime` is a step system: any number of workers inside `Scheduler::run` over one locked
task list, fibers going through INIT/EXEC/READY/HOLD/TERM/EXCEPT, and the places where a suspended fiber
can be parked (event contexts, semaphore waiter lists, timers, expired callbacks). Each step is one
critical section, or one access to a fiber's state or to the flag of a `do_io` call, so the window between
a yield and the later write of HOLD, the one between the decrement of the active count and the re-queueing
of a READY fiber, and the one between the test of a time-out flag and its write are all there.
`WakeTokens`, `Execution`, `Accounting`, `Landing`, `Deliveries`, `TableSteps` and `IoCalls` hold the parts
of the inductive invariant, `Safety`, `Timeouts` and `Progress` the theorems, `TimeoutRuns` two runs in which a
time-out goes astray. `TaskQueue`, `EventTable`/`IOManagers`, `Semaphores` and
`Timers`/`TimerManagers` model the components; the ones that update state are classes whose methods are
proved against functions on values (`IOManager` against `EventTable`, `TimerManager` against `Timers`,
`FiberSemaphore` against `Semaphores.Step`, `Scheduler.Scan` against `FirstEligible`). `EventRuns` and
`TimerRuns` quantify over all sequences of their operations.

**Byte buffer.** `ByteArrays` is the linked list of equal blocks with its cursor. Its abstract value is
the flat sequence `Data()`; `Blocks` relates a list of blocks to that sequence. `BufferRuns` states that
every run of the buffer is a run of a flat array with a cursor. `Bits` has machine words (wrap-around,
exclusive and inclusive or, ZigZag), `Codec` the encodings as functions, `TypedBuffer` the typed reads and
writes as methods on the buffer.

**Percent-encoding and parameters.** `Url` has the encoder and decoder with lazily created output,
`Params` the parameter loop, the map that ignores case, and the request that parses once.

## How the source is read

- Memory is sequentially consistent; a lock-protected section is one step. `addEvent`'s lookup-or-grow is
  one step. Failed assertions are results (`Aborted`, `AssertFailed`, `Abort`), never assumed away: the
  step system takes only steps that do not abort, and `EventRuns.OnlyFatalAborts` says exactly which abort.
- A fiber registers itself in one place and then yields (the `Own` location of `Runtime`), as `do_io`, the
  sleep functions, `FiberSemaphore::wait` and `switchTo` do. After `stop` only tasks schedule tasks.
- A scan of the queue sees all fiber states at one moment, although other workers write HOLD and TERM
  without the queue's lock: "earliest eligible" is with respect to that moment.
- A `do_io` call is known by a number, which stands for its `timer_info`, and its descriptor and event. It
  is entered and left by its own fiber, arms timers and registers only at its own event. The time-out
  callback takes hold of the flag (the two `lock()` calls count as one), reads it, writes it and cancels,
  in four steps; a flag lives while its call is in progress or a callback holds it.
- A fiber is known by number, a callback by what it does: resume a sleeper, time a `do_io` call out, or
  anything else. `willing` is false when the kernel refuses an `epoll_ctl` for reasons of its own.
- Fields that only record history (`ticket`, `reg`, `loc`, `runner`, `accepted`, `consumed`, `owners`,
  `woken`, `calls`, `timeouts`, `delivered`, `cancelled`, `reported`, `notified`) decide nothing in the modelled code.
- Shifts and masks by constants are divisions and remainders; `|` and `^` between computed words are
  bit-by-bit functions. Deadlines and the rollover test wrap around at 2^64, signed negation and doubling
  in ZigZag at their width, and so does the bound of the const `read`. Other sizes and positions of the
  buffer do not wrap.
- Clock readings and the address of `listExpiredCb`'s probe timer are parameters.

## Where code and documentation differ

- The comment above `UrlEncode` lists the characters it leaves alone without `=`, but the table
  `uri_chars` marks `=` (61) as unreserved. The model follows the table; the parameter loop still
  separates key and value because it cuts at the first `=`.
- `triggerEvent` asserts that the event is registered. A report of both events that is handled after
  one of them was cancelled fails that assertion (`EventRuns.StaleReportAborts`); the exact condition is
  in `EventTable.DispatchKeepsInv`.
- The time-out callback of `do_io` is to act once per call: it returns when the flag is gone or raised. But
  the flag is tested and written without a lock, and a retry arms a second timer with the same flag, so a call can be
  timed out twice (`TimeoutRuns.FlagCanBeRaisedTwice`; `Timeouts.RaiseRepeatsExactly` says exactly when).
  The cancellation names a descriptor and an event, not a registration, so it can wake a later call
  (`TimeoutRuns.TimeoutCanReachALaterCall`; the exact condition is in `Timeouts.TimeoutReachesTheParked`).
  No registration is woken twice in either case.
- The const `read` with a position starts in the block of the cursor, not in that of the position
  (`ByteArrays.ReadAtLooksElsewhere`); `toString`, its only caller, passes the cursor. `getReadBuffers` with a
  position bounds the length by what is left behind the cursor, not behind the position.
- Reading an empty string at the very end of the last block dereferences a null block;
  `Codec.TextRoundTripExactly` says exactly when strings come back.
- `refresh` and the re-arming of recurring timers skip the front test. That is harmless while time goes
  forward, but a deadline that wraps around 2^64, or a clock reading that a stalled thread brings so late
  that it is taken for a rollover, can become the earliest one unannounced (`TimerRuns.WrappedRefreshIsHidden`, `StaleExpiryIsHidden`).
- The rollover test subtracts an hour from an unsigned time, so a remembered time within the first hour
  of the epoch makes any step back a rollover (`Timers.RolloverExactly`).
- `m_params` and `m_cookies` are ordered by `strcasecmp`, so "first occurrence wins" is up to case and up
  to the first NUL of a key.

## Model

| member | source | states |
|---|---|---|
| Safety.NoFiberRunsTwice | IOCoroutineScheduler/scheduler.cc:204-250 | in every reachable state no two workers have the same fiber on their stack, and a fiber about to be switched in is not in EXEC, even if it was queued again before it had finished yielding |
| Safety.OneWakeToken | IOCoroutineScheduler/coroutine.cc:134-157 | in every reachable state a fiber is mentioned by at most one of event contexts, waiter lists, timers, queue entries, workers' hands and caches, and only once, also among expired callbacks |
| Safety.EveryFiberIsSomewhere | IOCoroutineScheduler/scheduler.cc:236-274 | no fiber gets lost: in every reachable state a known fiber is on a worker's stack, or mentioned by exactly one place, or done, or an orphan that registered nowhere or had its registration deleted; a fiber that is done has ended, and no place mentions it or an orphan |
| Safety.StackReuseIsSafe | IOCoroutineScheduler/scheduler.cc:252-262 | when a callback is started on the cached fiber, that fiber is in INIT and nothing but the cache refers to it |
| Safety.EndedFiberIsFree | IOCoroutineScheduler/scheduler.cc:263-274 | when the cached fiber has ended and is reset, nothing refers to it |
| Safety.TasksConserved | IOCoroutineScheduler/scheduler.cc:204-282 | every accepted task is in the queue once, or with exactly one worker, or consumed, with the work and thread it was accepted with; a bound task is only ever with its own thread; the active count is the number of workers between pick and decrement |
| Safety.ShutdownLeavesNothingUnpinned | IOCoroutineScheduler/scheduler.cc:284-320 | when all workers have left `run`, the scheduler was stopped and the queue holds no task without a thread binding |
| Safety.RegistrationsWakeOnce | IOCoroutineScheduler/hook.cc:136-194 | under all interleavings of dispatch, time-out callbacks and cancellations: no two accepted tasks answer the same registration, a registration is among the accepted tasks iff it was triggered, as the work it was made for, never while in force; and the flag of a `do_io` call is raised iff a time-out callback raised it |
| Safety.ReachableStepAccepts | IOCoroutineScheduler/scheduler.h:73-134 | in every reachable state every step puts at the back of the queue exactly the work, thread and registration that `Deliveries.Requests` lists for it |
| Timeouts.TimeoutReachesTheParked | IOCoroutineScheduler/hook.cc:154-160 | the cancellation after a time-out wakes whatever is registered at the event by then: it reaches a given fiber iff that fiber is parked there, and the registration it finds is one of the timed-out call iff that call is still in progress and parked; otherwise it is somebody else's, a later call of the same fiber included |
| Timeouts.RaiseRepeatsExactly | IOCoroutineScheduler/hook.cc:155-158 | from a test that found the flag not raised to the write, through every run in between: the write raises the flag a second time iff another worker raised it in between |
| Timeouts.TimedOutOnceWhileAlone | IOCoroutineScheduler/hook.cc:152-161 | along every run in which no two workers ever stand between test and write of the same flag, every call is timed out at most once, however many of its timers are left over |
| Timeouts.TwoAtRaiseRepeat | IOCoroutineScheduler/hook.cc:155-158 | in every state in which two workers stand there, both can go on, and then the flag is raised twice |
| Timeouts.StepRaises | IOCoroutineScheduler/hook.cc:158 | every step of the runtime leaves the record of raised flags alone, except the write of a time-out callback, which adds its call |
| Timeouts.CallbackGoesOnExactly | IOCoroutineScheduler/hook.cc:152-161 | a time-out callback goes on to the test iff a fiber is in its call or another callback is between taking hold of the flag and cancelling, and to the write iff it reads the flag as not raised; nothing else changes |
| Timeouts.FreedCallbackStops | IOCoroutineScheduler/hook.cc:155-157 | the callback of a call that is over stops: nothing is queued, no event and no flag is touched |
| Timeouts.OpenCallbackGoesOn | IOCoroutineScheduler/hook.cc:155-157 | the callback of a call in progress goes on to the test |
| Timeouts.OverStaysOver | IOCoroutineScheduler/hook.cc:128-161 | along every run from a state in which a call was entered and is over, its flag is not raised again and no callback comes to cancel for it |
| TimeoutRuns.FlagCanBeRaisedTwice | IOCoroutineScheduler/hook.cc:130-194 | for every call there is a run, with a retry between two expiries, to a state with two workers between test and write, and one on which its flag is raised twice |
| TimeoutRuns.TimeoutCanReachALaterCall | IOCoroutineScheduler/hook.cc:152-194 | for any two calls at the same event there is a run to a state in which the time-out of the first is about to cancel the registration of the second, whose flag is not raised |
| Safety.StepKeepsInv | IOCoroutineScheduler/scheduler.cc:196-297 | every step of every worker and every call keeps the whole invariant |
| Safety.ReachableInv | IOCoroutineScheduler/scheduler.cc:166-298 | the invariant holds after every run from every initial state with any number of workers |
| Progress.ScansExactly | IOCoroutineScheduler/scheduler.cc:204-230 | a scan finds nothing iff every entry is bound to another thread or a fiber still executing; else it takes the first entry that is neither, one bound to its own thread included, keeps the order of the rest and counts the worker |
| Progress.WorkerGoesOn | IOCoroutineScheduler/scheduler.cc:196-297 | no worker is ever stuck: in every reachable state each can go on, and how is decided by where it is, with the exact conditions for switching in, dropping and leaving for good |
| Progress.WorkerLeaves | IOCoroutineScheduler/scheduler.cc:284-297 | told to stop, with nothing queued and nobody active, an idle worker leaves in two steps |
| Progress.SwapsInExactly | IOCoroutineScheduler/scheduler.cc:236-240 | a picked fiber comes onto the stack in EXEC, mentioned nowhere, with its entry used up |
| Progress.StartsExactly | IOCoroutineScheduler/scheduler.cc:252-262 | a picked callback runs on the cached fiber or a new one, which is cached, in EXEC, and does what the callback says |
| Progress.LeavesExactly | IOCoroutineScheduler/coroutine.cc:194-208 | after a yield to HOLD the state is still EXEC, after one to READY it is READY, after the end TERM or EXCEPT |
| Progress.SettlesExactly | IOCoroutineScheduler/scheduler.cc:242-274 | READY goes to the back of the queue, an ended fiber stays ended or is reset and kept, any other is on HOLD; a callback fiber that lives on is let go |
| Progress.ReportQueues | IOCoroutineScheduler/iomanager.cc:415-464 | a report puts on the queue, reader first, exactly the work of the registered events that are reported, or of all that are registered when it is an error or a hang-up |
| Progress.CallsQueue | IOCoroutineScheduler/scheduler.h:73-134 | each call puts at the back of the queue the work and thread asked for |
| Progress.SemaphoreCallsExactly | IOCoroutineScheduler/mutex.cc:68-102 | the semaphore calls of fibers are the operations of the semaphore, and a fiber without a permit waits there |
| Progress.EventCallsExactly | IOCoroutineScheduler/iomanager.cc:144-305 | the event calls of fibers do to the table what its operations do |
| Progress.ExpiresExactly | IOCoroutineScheduler/timer.cc:206-220 | an expired timer stays armed iff it recurs; its callback joins those in hand, and the first of those goes to the queue |
| Progress.TimerCallsExactly | IOCoroutineScheduler/hook.cc:206-249 | timers are armed and disarmed as asked for, a sleeping fiber by a timer that resumes it |
| Progress.MayDoIo | IOCoroutineScheduler/hook.cc:144-166 | a running fiber inside a `do_io` call may arm the call's timers, register at its event where nothing is registered, and leave it |
| Progress.MayPark | IOCoroutineScheduler/mutex.cc:80-91 | a running fiber that has registered nowhere may wait, sleep, move to another thread, yield, enter a `do_io` call, and end outside one |
| Progress.MaySchedule | IOCoroutineScheduler/scheduler.h:73-134 | a running fiber always, and anybody else until stop, may schedule something new or a fiber that waits for nobody, notify, arm and disarm timers |
| Progress.MayUseEvents | IOCoroutineScheduler/iomanager.cc:144-305 | they may delete and cancel events, and register a callback where nothing is registered |
| Deliveries.StepAccepts | IOCoroutineScheduler/scheduler.h:73-134 | what each step adds to queue and record: spawned and switched work with its thread, the first waiter, a READY fiber, expired callbacks, a sleeper, and the registered work of triggered events, in order |
| Deliveries.StepKeepsRecord | IOCoroutineScheduler/scheduler.cc:206-230 | every entry in the queue or in a worker's hands stays the one accepted under its ticket |
| Deliveries.StepKeepsDelivered | IOCoroutineScheduler/iomanager.cc:92-104 | the registrations woken stay those among the accepted tasks, in the same order, each with the work it was made for |
| IoCalls.StepKeepsLinks | IOCoroutineScheduler/hook.cc:130-194 | every step keeps the links: a registration in force was made by the `do_io` call its fiber is in, at that call's descriptor and event, and by none if the fiber is in no call |
| Landing.StepLands | IOCoroutineScheduler/scheduler.cc:236-274 | no step leaves a token in transit |
| WakeTokens.PickKeepsTokens | IOCoroutineScheduler/scheduler.cc:206-230 | a pick moves the picked task's token from the queue into the worker's hands, moves no other, and keeps the token invariant |
| WakeTokens.WakeKeepsTokens | IOCoroutineScheduler/iomanager.cc:92-104 | triggering a registered event moves its token from the context to the back of the queue, moves no other, and keeps the token invariant |
| WakeTokens.AddFiberKeepsTokens | IOCoroutineScheduler/iomanager.cc:183-198 | registering the running fiber moves its token into the event context, or moves none when refused, and keeps the token invariant |
| WakeTokens.NotifyKeepsTokens | IOCoroutineScheduler/mutex.cc:93-102 | notifying moves the first waiter's token to the back of the queue, or none when nobody waits, and keeps the token invariant |
| WakeTokens.ResumeKeepsTokens | IOCoroutineScheduler/hook.cc:206-249 | the sleep callback moves the sleeper's token from the worker running it to the back of the queue and keeps the token invariant |
| WakeTokens.TimeoutKeepsTokens | IOCoroutineScheduler/hook.cc:152-161 | the time-out callback's accesses to the shared flag move no token and keep the token invariant |
| Execution.PickedIsIdle | IOCoroutineScheduler/scheduler.cc:218-228 | a picked fiber is not in EXEC, on no worker's stack, not cached, and picked by no other worker |
| Execution.LeaveKeeps | IOCoroutineScheduler/coroutine.cc:194-208 | a yield or an end, after which the token may already be elsewhere while the fiber is still on its stack, keeps tokens, states and stacks consistent |
| Execution.SettleKeeps | IOCoroutineScheduler/scheduler.cc:242-274 | re-queueing, holding or resetting after the switch keeps states and stacks consistent |
| Accounting.CallKeepsShutdown | IOCoroutineScheduler/scheduler.cc:309-320 | a call, by a running fiber or from outside before stop, keeps it so that nothing unbound is queued once all workers have left |
| TaskQueue.FirstEligible | IOCoroutineScheduler/scheduler.cc:208-228 | the position is of an entry for any thread or this one that is not executing, and every entry before it is bound to another thread or executing |
| TaskQueue.Scheduler.Scan | IOCoroutineScheduler/scheduler.cc:204-230 | takes the earliest entry that is for any thread or this one and not executing, keeps the order of the rest, counts the worker as active; asks for a tickle exactly when an entry of another thread was seen before or entries remain behind |
| TaskQueue.RemoveAtKeepsOrder | IOCoroutineScheduler/scheduler.cc:223-227 | what remains after a pick is in order of arrival and is everything but the picked entry |
| TaskQueue.Scheduler.ScheduleNoLock | IOCoroutineScheduler/scheduler.h:127-134 | non-empty work goes to the back with the thread asked for and the next ticket; the result is whether the list was empty |
| TaskQueue.Scheduler.ScheduleBatch | IOCoroutineScheduler/scheduler.h:90-103 | the non-empty slots of the batch go to the back in order, the caller's slots are emptied, and a tickle is due iff the batch is not empty and the list was |
| TaskQueue.EntriesSnoc | IOCoroutineScheduler/scheduler.h:90-103 | scheduling a batch is scheduling its parts one after the other, tickets included |
| Semaphores.PermitsConserved | IOCoroutineScheduler/mutex.cc:63-102 | over every run: initial permits plus notifies are grants plus current count; waiters only at count zero; the parked fibers are the scheduled ones followed by the waiting ones |
| Semaphores.GrantsExactly | IOCoroutineScheduler/mutex.cc:68-102 | at any moment of any run `tryWait` and `wait` grant a permit iff one is there; without one the first changes nothing and the second parks the caller last; a notification wakes the first waiter or leaves a permit |
| Semaphores.FiberSemaphore.TryAcquire | IOCoroutineScheduler/mutex.cc:68-78 | the step `TryWait` on the old value: one permit less iff there was one |
| Semaphores.FiberSemaphore.Acquire | IOCoroutineScheduler/mutex.cc:80-91 | the step `Wait`; the caller waits last and must yield exactly when there was no permit |
| Semaphores.FiberSemaphore.Release | IOCoroutineScheduler/mutex.cc:93-102 | the step `Notify`; at most one fiber is scheduled, the first waiter |
| EventTable.AddEventKeepsInv | IOCoroutineScheduler/iomanager.cc:144-200 | aborts exactly when the event is registered already, is refused exactly when the kernel is unwilling (ADD/MOD is always legal), otherwise registers it and keeps the invariant |
| EventTable.AddedIsWhatFires | IOCoroutineScheduler/iomanager.cc:183-198 | after a successful add a trigger would schedule exactly the registered fiber or callback; no other context changed |
| EventTable.DelEventKeepsInv | IOCoroutineScheduler/iomanager.cc:202-235 | succeeds exactly when registered and the kernel is willing, takes away that registration and no other, keeps the invariant, wakes nobody |
| EventTable.CancelEventKeepsInv | IOCoroutineScheduler/iomanager.cc:237-268 | succeeds exactly when registered and willing, wakes exactly that registration |
| EventTable.CancelAllKeepsInv | IOCoroutineScheduler/iomanager.cc:270-305 | leaves nothing registered at the descriptor and wakes exactly the registrations that were in force there, the reader's first |
| EventTable.CancelsOnly | IOCoroutineScheduler/iomanager.cc:237-305 | `cancelEvent` takes away the event, `cancelAll` all events of the descriptor, and every other registration stays what it was |
| EventTable.DispatchKeepsInv | IOCoroutineScheduler/iomanager.cc:415-464 | keeps the invariant; wakes exactly the registered events that are reported, or all of the descriptor on an error or hang-up; the assertion in `triggerEvent` fails exactly when a report names a registered and an unregistered event |
| EventTable.DispatchesOnly | IOCoroutineScheduler/iomanager.cc:415-464 | a handled report takes away what it stands for, and every other registration stays what it was |
| EventTable.ErrorWakesAll | IOCoroutineScheduler/iomanager.cc:419-464 | an error or hang-up without a stale event wakes everything registered at the descriptor and leaves nothing there; a plain report wakes exactly what it names |
| EventTable.RemovalIsLegal | IOCoroutineScheduler/iomanager.cc:214-228 | the chosen MOD/DEL is legal for the kernel's interest set |
| EventTable.CountBitsUpdate | IOCoroutineScheduler/iomanager.cc:183-184 | how the number of registered bits changes with one descriptor |
| EventRuns.KernelMirrorsTable | IOCoroutineScheduler/iomanager.cc:168-184 | after every run of add, del, cancel, cancelAll and dispatch the kernel mask of each descriptor is its registered events; pending = bits = adds - dels - triggers; a bit is set iff its context holds a scheduler and one of fiber and callback |
| EventRuns.OnlyFatalAborts | IOCoroutineScheduler/iomanager.cc:161-189 | after every run an operation aborts iff it adds a registered event or dispatches a registered with an unregistered one |
| EventRuns.StaleReportAborts | IOCoroutineScheduler/iomanager.cc:432-464 | after any run with both events registered, cancelling one and then dispatching a report of both aborts |
| EventRuns.BothCanBeRegistered | IOCoroutineScheduler/iomanager.cc:144-200 | for every descriptor there is a run after which both events are registered |
| IOManagers.FdObject.TriggerEvent | IOCoroutineScheduler/iomanager.cc:92-104 | the event bit and its context are cleared and what it held is returned for scheduling, callback before fiber |
| IOManagers.IOManager.AddEvent | IOCoroutineScheduler/iomanager.cc:144-200 | carries out `EventTable.AddEvent`; aborts exactly when the event is registered |
| IOManagers.IOManager.DelEvent | IOCoroutineScheduler/iomanager.cc:202-235 | carries out `EventTable.DelEvent` |
| IOManagers.IOManager.CancelEvent | IOCoroutineScheduler/iomanager.cc:237-268 | carries out `EventTable.CancelEvent` and schedules exactly what was registered |
| IOManagers.IOManager.CancelAll | IOCoroutineScheduler/iomanager.cc:270-305 | carries out `EventTable.CancelAll`; the reader is scheduled before the writer |
| IOManagers.IOManager.Dispatch | IOCoroutineScheduler/iomanager.cc:415-464 | carries out `EventTable.Dispatch`; aborts exactly when it does |
| IOManagers.IOManager.ContextResize | IOCoroutineScheduler/iomanager.cc:479-488 | contexts below the size stay, blank ones follow up to it |
| Timers.ComparatorIsStrictTotalOrder | IOCoroutineScheduler/timer.cc:18-38 | the comparator is the order by deadline and then address, null references first, and a strict total order |
| Timers.CancelKeepsInv | IOCoroutineScheduler/timer.cc:48-59 | never erases a missing element; succeeds exactly while armed; only this timer leaves the set |
| Timers.RefreshKeepsInv | IOCoroutineScheduler/timer.cc:61-79 | succeeds exactly while armed; the timer then stands in the set one period from now, and nothing else changed |
| Timers.ResetKeepsInv | IOCoroutineScheduler/timer.cc:101-129 | succeeds exactly while armed or when nothing is to change; the timer then stands in the set with the new period, counted from now or from its old start, and nothing else changed |
| Timers.ResetAnnouncesFront | IOCoroutineScheduler/timer.cc:101-129 | a reset announces the timer iff it comes to the front and nothing was announced since the last report; its deadline is the period from now or its old start, modulo 2^64 |
| Timers.AddTimerKeepsInv | IOCoroutineScheduler/timer.cc:135-142 | exactly the new timer is added, in the set under its deadline modulo 2^64; it is announced iff it comes to the front and nothing was announced since the last report |
| Timers.ExpiredAreTheDue | IOCoroutineScheduler/timer.cc:193-206 | without rollover exactly the timers with deadline <= now are taken whatever the probe's address; with rollover all are |
| Timers.ListExpiredExactly | IOCoroutineScheduler/timer.cc:177-221 | the callbacks come in comparator order; afterwards the set is the later timers and the recurring ones re-armed at now + period; all other timers are unchanged |
| Timers.FiresExactly | IOCoroutineScheduler/timer.cc:181-220 | a timer fires iff it is armed and its deadline has come or the clock was set back by more than an hour; a recurring one is then due a period from now, another has lost its callback |
| Timers.ExpiryRemembers | IOCoroutineScheduler/timer.cc:181-192 | the time of an expiry is remembered for the rollover test unless there are no timers |
| Timers.NextTimerIsLeast | IOCoroutineScheduler/timer.cc:161-175 | the result is the least distance to a deadline in the set, all ones without timers; the next front insertion may be announced again |
| Timers.RolloverExactly | IOCoroutineScheduler/timer.cc:241-249 | a step back of more than an hour, or any step back while the remembered time is within the first hour of the epoch |
| TimerRuns.RunKeepsInv | IOCoroutineScheduler/timer.cc:48-239 | after every run the set is sorted, keys have not changed since insertion, and a timer is in it iff its callback is set |
| TimerRuns.OneShotEndsOnce | IOCoroutineScheduler/timer.cc:206-220 | over every run a one-shot timer is delivered once or cancelled once, never both, and is in the set exactly before that |
| TimerRuns.CancelNeverErasesEnd | IOCoroutineScheduler/timer.cc:48-59 | in every reachable state `cancel` finds what it erases |
| TimerRuns.ForwardIsNoRollover | IOCoroutineScheduler/timer.cc:241-249 | a clock that does not go back is never taken for a rollover |
| TimerRuns.RefreshHidesExactly | IOCoroutineScheduler/timer.cc:61-79 | a refresh leaves an earlier deadline than the reported one unannounced iff the timer is armed, no announcement is pending and the new deadline is below the reported one |
| TimerRuns.ExpiryHidesExactly | IOCoroutineScheduler/timer.cc:193-220 | an expiry does so iff no announcement is pending and a recurring timer it takes is re-armed below the reported deadline, with or without rollover |
| TimerRuns.HidesExactly | IOCoroutineScheduler/timer.cc:48-239 | for every operation the condition under which it hides a deadline, to be checked before the call; `addTimer`, `cancel`, `reset` and `getNextTimer` never do |
| TimerRuns.AnnouncedExactly | IOCoroutineScheduler/timer.cc:48-239 | over every run, whatever the clock does, earlier deadlines are announced all along iff no operation hides one |
| TimerRuns.TickledIsNotified | IOCoroutineScheduler/timer.cc:223-239 | over every run `m_tickled` is set only with a front insertion announced since the last report |
| TimerRuns.RefreshHidesByWrapping | IOCoroutineScheduler/timer.cc:61-79 | with time going forward a refresh hides a deadline iff the timer is armed, none is pending and now + period wraps around 2^64 below the reported deadline |
| TimerRuns.ExpiryHidesByWrapping | IOCoroutineScheduler/timer.cc:193-220 | an expiry hides one iff a re-armed deadline wraps around below the reported one, or the reading of the clock was taken for a rollover and re-arms one below it |
| TimerRuns.EarlierDeadlineIsAnnounced | IOCoroutineScheduler/timer.cc:161-239 | with a clock that never goes back, over every run: whenever the earliest deadline is below the one last reported, `m_tickled` is set and a front insertion was announced since, iff no step wraps around or rolls over as above |
| TimerRuns.WrappedRefreshIsHidden | IOCoroutineScheduler/timer.cc:76-77 | a run with a forward clock whose refreshed deadline wraps around and stays unannounced |
| TimerRuns.StaleExpiryIsHidden | IOCoroutineScheduler/timer.cc:181-217 | a run with a forward clock in which a thread, stalled between reading the clock and taking the lock, re-arms a timer in the past, unannounced |
| TimerManagers.TimerManager.AddTimer | IOCoroutineScheduler/timer.cc:135-142 | carries out `Timers.AddTimer`; announces exactly when `m_tickled` becomes set |
| TimerManagers.TimerManager.Cancel | IOCoroutineScheduler/timer.cc:48-59 | carries out `Timers.Cancel`; true exactly when the timer was armed |
| TimerManagers.TimerManager.Refresh | IOCoroutineScheduler/timer.cc:61-79 | carries out `Timers.Refresh` |
| TimerManagers.TimerManager.Reset | IOCoroutineScheduler/timer.cc:101-129 | carries out `Timers.Reset`; announces exactly when `m_tickled` becomes set |
| TimerManagers.TimerManager.GetNextTimer | IOCoroutineScheduler/timer.cc:161-175 | carries out `Timers.NextTimer` |
| TimerManagers.TimerManager.ListExpiredCb | IOCoroutineScheduler/timer.cc:177-221 | carries out `Timers.ListExpired`: the same callbacks and the same set |
| TimerManagers.TimerManager.DetectClockRollover | IOCoroutineScheduler/timer.cc:241-249 | the rollover test with its wrap-around; the time is remembered |
| ByteArrays.ByteArray.constructor | IOCoroutineScheduler/bytearray.cc:36-44 | one block, empty data, position 0 |
| ByteArrays.ByteArray.CurIsBlockOfPosition | IOCoroutineScheduler/bytearray.cc:376-450 | the current block is number position / base size, and null exactly at the capacity |
| ByteArrays.ByteArray.AddCapacity | IOCoroutineScheduler/bytearray.cc:548-577 | room for the bytes asked for, no block more than needed, data and position unchanged |
| ByteArrays.ByteArray.Write | IOCoroutineScheduler/bytearray.cc:389-421 | the flat data is overwritten at the position and grows at its end; all other bytes of the memory stay; the position moves on |
| ByteArrays.ByteArray.Read | IOCoroutineScheduler/bytearray.cc:424-450 | refused exactly beyond the size; a look into a null block exactly for an empty read at the capacity; otherwise the next bytes of the flat data, which stays |
| ByteArrays.ByteArray.SetPosition | IOCoroutineScheduler/bytearray.cc:482-502 | refused exactly beyond the capacity; otherwise moves and lengthens the data by what the blocks hold |
| ByteArrays.ByteArray.Clear | IOCoroutineScheduler/bytearray.cc:376-387 | empty data, position 0, the first block only |
| ByteArrays.ByteArray.GetReadBuffers | IOCoroutineScheduler/bytearray.cc:603-631 | the regions appended to the list concatenate to the next bytes of the flat data |
| ByteArrays.ByteArray.GetReadBuffersAt | IOCoroutineScheduler/bytearray.cc:633-666 | the regions gather to the bytes of the memory from the given position on, as many as are left behind the cursor; bytes of the data if they end within the size, a look into a null block iff they end past the capacity |
| ByteArrays.ByteArray.ReadAt | IOCoroutineScheduler/bytearray.cc:454-480 | exactly when it is refused, in unsigned arithmetic, and when it looks into a null block; otherwise the bytes at the offset of the position in the block of the cursor, which are those at the position if both lie in one block |
| ByteArrays.ByteArray.StartsAtOwn | IOCoroutineScheduler/bytearray.cc:458-461 | the const `read` starts at its position iff that lies in the block of the cursor |
| ByteArrays.ReadAtLooksElsewhere | IOCoroutineScheduler/bytearray.cc:458-461 | a buffer of two blocks on which the const `read` at 1 returns the byte at 0 |
| ByteArrays.ByteArray.ToString | IOCoroutineScheduler/bytearray.cc:579-586 | all that is left to read, in every state, without moving the cursor |
| ByteArrays.ByteArray.GetWriteBuffers | IOCoroutineScheduler/bytearray.cc:668-696 | the regions for the bytes behind the position, after making room; data unchanged |
| ByteArrays.ByteArray.WriteRegions | IOCoroutineScheduler/bytearray.cc:668-696 | those regions are disjoint, within their blocks, and measure the length asked for |
| ByteArrays.ByteArray.Receive | IOCoroutineScheduler/streams/socket_stream.cc:28-43 | filling the first bytes of the write regions and moving the position is `write` of those bytes |
| ByteArrays.FillIsWriteInto | IOCoroutineScheduler/bytearray.cc:675-694 | filling the regions leaves in each block what writing block by block leaves |
| ByteArrays.GatherIsReadFrom | IOCoroutineScheduler/bytearray.cc:610-629 | gathering the regions is reading block by block |
| Blocks.ReadFromIsSlice | IOCoroutineScheduler/bytearray.cc:424-450 | reading block by block is taking a stretch of the flat sequence |
| Blocks.WriteIntoIsOverwrite | IOCoroutineScheduler/bytearray.cc:395-416 | writing block by block is overwriting the flat sequence |
| BufferRuns.Run | IOCoroutineScheduler/bytearray.cc:376-502 | every sequence of write, read, setPosition, receive and clear, for every block size, is a run of a flat memory with a size and a cursor, in which bytes past the size stay and can be seen again |
| BufferRuns.Perform | IOCoroutineScheduler/bytearray.cc:376-502 | one operation is one step of the flat memory, results and errors included |
| BufferRuns.StepOnData | IOCoroutineScheduler/bytearray.cc:376-502 | seen through the size: writes overwrite the data at the position, setPosition only lengthens it, reads leave it, clear empties it |
| Bits.ZigZagRoundTrip | IOCoroutineScheduler/bytearray.cc:63-92 | decoding undoes encoding for every signed value, the least one included |
| Bits.ZigZagOnto | IOCoroutineScheduler/bytearray.cc:63-92 | encoding undoes decoding for every word |
| Bits.EncodeZigZagValue | IOCoroutineScheduler/bytearray.cc:63-80 | the wrapped arithmetic computes 2s, or -2s - 1 for negative s |
| Bits.DecodeZigZagValue | IOCoroutineScheduler/bytearray.cc:83-92 | (v >> 1) ^ -(v & 1) is v/2, or -(v/2) - 1 for odd v |
| Codec.SwapIsOtherOrder | IOCoroutineScheduler/endian.h:31-49 | a byte-swapped word in one order has the memory image of the word in the other |
| Codec.FixedBytesIsOrder | IOCoroutineScheduler/bytearray.cc:112-161 | the bytes written depend on the array's byte order only, not on the host |
| Codec.FixedByteAt | IOCoroutineScheduler/bytearray.cc:112-161 | byte i of the written word is its i-th lowest (little) or highest (big) byte |
| Codec.WordBytes | IOCoroutineScheduler/bytearray.cc:104-161 | the bytes of words of 1, 2, 4 and 8 bytes in either order, listed |
| Codec.TypeRanges | IOCoroutineScheduler/bytearray.cc:104-199 | the values that each numeric operation takes, in numbers |
| Codec.NumberBytes | IOCoroutineScheduler/bytearray.cc:104-199 | fixed-width numbers are written in two's complement, varints as their groups, ZigZag ones as the groups of 2n or -2n - 1 |
| Codec.TextBytes | IOCoroutineScheduler/bytearray.cc:213-231 | strings are written as their length, cut to 2, 4 or 8 bytes in the array's order or at most 10 groups, and their bytes |
| Codec.FixedRoundTrip | IOCoroutineScheduler/bytearray.cc:239-282 | a word comes back for either byte order and any hosts of writer and reader |
| Codec.VarintIsMinimal | IOCoroutineScheduler/bytearray.cc:169-199 | a value takes at most k bytes iff it is below 2^(7k) |
| Codec.VarintByteAt | IOCoroutineScheduler/bytearray.cc:169-199 | byte i holds bits 7i to 7i+6 of the value, and all but the last have the top bit set |
| Codec.VarintFitsBuffer | IOCoroutineScheduler/bytearray.cc:171-197 | at most 5 (10) bytes: the temporary buffer is never overrun |
| Codec.VarintRoundTrip | IOCoroutineScheduler/bytearray.cc:292-326 | every word decodes to itself, consuming exactly its bytes |
| Codec.ReadVarintStops | IOCoroutineScheduler/bytearray.cc:292-326 | on any input the decoder reads at most 5 (10) bytes and returns a word of its width |
| Codec.ReadVarintExactly | IOCoroutineScheduler/bytearray.cc:292-326 | on any bytes the decoder reads up to the first below 0x80 or the fifth (tenth), returns the number that the groups spell modulo 2^32 (2^64), overlong encodings included, and is refused when the data ends before |
| Codec.NumberRoundTrip | IOCoroutineScheduler/bytearray.cc:112-199 | every number of every kind comes back |
| Codec.TextRoundTripExactly | IOCoroutineScheduler/bytearray.cc:213-231 | a string comes back iff it is shorter than 2^16, 2^32 or 2^64 bytes, as the length field has it, and non-empty or not read at the capacity |
| Codec.TextDecodesExactly | IOCoroutineScheduler/bytearray.cc:340-372 | behind any length, by whatever host: refused if so many bytes do not follow, a look into a null block for the empty string at the capacity, else those bytes |
| Codec.LengthCutShort | IOCoroutineScheduler/bytearray.cc:340-372 | a string whose length is cut short is refused where it begins |
| Codec.FixedCutShort | IOCoroutineScheduler/bytearray.cc:239-282 | a fixed-width number that is cut short is refused where it begins |
| Codec.ListRoundTrip | IOCoroutineScheduler/bytearray.cc:112-372 | a list of typed values is read back by the same kinds iff all its values return, and then reading ends where the writer ended |
| Codec.NonEmptyReturn | IOCoroutineScheduler/bytearray.cc:213-231 | lists whose strings are non-empty and within their length fields always return |
| TypedBuffer.VarintLoop | IOCoroutineScheduler/bytearray.cc:169-181 | the loop over the temporary buffer yields the varint bytes without overrunning it |
| TypedBuffer.ReadVarintLoop | IOCoroutineScheduler/bytearray.cc:292-306 | the loop returns what the decoder makes of the data, and the position is where it stopped |
| TypedBuffer.WriteValue | IOCoroutineScheduler/bytearray.cc:112-231 | every typed write overwrites the data with the encoding of its value |
| TypedBuffer.ReadValue | IOCoroutineScheduler/bytearray.cc:239-372 | every typed read returns what its decoder makes of the data, errors included |
| TypedBuffer.WriteThenRead | IOCoroutineScheduler/bytearray.cc:112-372 | writing any list, moving the position back and reading returns the list iff all its values return, and then ends at the writer's position |
| Url.UrlEncode | IOCoroutineScheduler/util.cc:680-709 | the lazily built output is the byte-by-byte encoding |
| Url.UrlDecode | IOCoroutineScheduler/util.cc:711-741 | the lazily built output is the escape-by-escape decoding |
| Url.EncodesExactly | IOCoroutineScheduler/util.cc:680-709 | letters, digits and - . = _ ~ stay, a space may become a plus sign, any other byte becomes a percent sign and its two digits among 0123456789ABCDEF |
| Url.EscapeDecodes | IOCoroutineScheduler/util.cc:720-733 | a percent sign and two hex digits, each in upper or lower case, decode to the byte they spell, whatever follows |
| Url.OthersDecode | IOCoroutineScheduler/util.cc:715-737 | every other byte stays, a percent sign without two hex digits included, but a plus sign may become a space |
| Url.RoundTripExactly | IOCoroutineScheduler/util.cc:680-741 | decoding undoes encoding iff the decoder expects plus signs, or none are written, or there is no space |
| Url.EncodedAlphabet | IOCoroutineScheduler/util.cc:684-699 | an encoding holds only unreserved characters, percent signs, and plus signs in plus mode |
| Params.ParseParam | IOCoroutineScheduler/http/http.cc:225-239 | the loop ends and inserts exactly the pairs `PairsFrom` cuts out |
| Params.CutsExactly | IOCoroutineScheduler/http/http.cc:225-239 | for any text: no equals sign, no pair; else the key ends at the first one, the value at the first separator after it or at the end, and the rest follows |
| Params.TrimsExactly | IOCoroutineScheduler/util.cc:743-751 | trimming takes away spaces, tabs, returns and newlines at both ends and nothing else |
| Params.FoldsExactly | IOCoroutineScheduler/http/http.cc:58-60 | keys are compared by their characters before the first NUL, letters in lower case |
| Params.ParsesJoined | IOCoroutineScheduler/http/http.cc:225-239 | joined key=UrlEncode(value) fields, keys free of '=' and the separator, are cut into those pairs |
| Params.FirstWins | IOCoroutineScheduler/http/http.cc:234-235 | what the map held before wins, then the first pair of each name, ignoring case |
| Params.HttpRequest.InitQueryParam | IOCoroutineScheduler/http/http.cc:220-243 | the query's pairs are inserted the first time and never again |
| Params.HttpRequest.InitBodyParam | IOCoroutineScheduler/http/http.cc:245-255 | a form body's pairs are inserted the first time and never again |
| Params.HttpRequest.InitCookies | IOCoroutineScheduler/http/http.cc:257-267 | the cookie pairs, keys trimmed, are inserted the first time and never again |
| Params.HttpRequest.Init | IOCoroutineScheduler/http/http.cc:214-218 | query, body and cookies are parsed in this order, each only once |
| Params.EncodedFieldsReturn | IOCoroutineScheduler/http/http.cc:220-255 | encoded query and body fields come back, a query field hiding a body field of its name |

## Left out

- IOManager::tickle and the 3000 ms wait: no claim that every wake-up reaches a waiting thread; only the announcement of earlier deadlines is proved.
- IOManager::stopping: its three separate reads are reduced to the base class's check of queue and active count; nothing is claimed about timers and pending events at shutdown.
- Two racing growths of the descriptor table, the second of which could cut it shorter: lookup-or-grow is one step.
- A second scheduler: work is always scheduled on the one modelled, so a context's scheduler is only "set" or "not set".
- switchTo to the own thread, `start`, thread creation and the root thread with `use_caller`: easy or system plumbing.
- ucontext switching, stacks, shared_ptr counts and pthread locks: step boundaries, references and atomic sections. Reuse of a freed timer's address is not modelled.
- FiberSemaphore's destructor assertion and the other mutex classes.
- hook.cc beyond the register/park/wake protocol of `do_io` and the sleep functions: connect, accept, fcntl, ioctl, FdManager.
- Safety.StepKeepsInv: the timers of the step system are a plain map that may expire at any time; their order and deadlines are in `Timers` and `TimerRuns`.
- ByteArrays.ByteArray.Read, ReadAt and GetReadBuffersAt: what happens after a null block is dereferenced is undefined and reported as `ReadNull` or `BuffersNull`.
- Files, hexadecimal dumps, float and double: file access, formatting or raw bit copies. The floating-point ceiling in `addCapacity` is an integer ceiling.
- std::string growth and allocation failure, also for a string length read from hostile data.
- Params.HttpRequest.Init: the test for the form content type is a parameter, and headers are not parsed.
- uri.rl.cc, http11_parser.rl.cc and the other generated parsers, sockets, SSL, addresses, servers, connection pools, logging, configuration and sessions.
