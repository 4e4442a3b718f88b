# Verified model of the OSAL's concurrent cores and time arithmetic

The repository is an operating-system abstraction layer: one API for tasks, queues, mutexes, timers and
clocks, with backends for FreeRTOS, POSIX and a deterministic mock.  What is hard in it is a handful of
small concurrent protocols and the exact arithmetic between wrapping tick counters and `Duration`.  This
project models those and proves what they are for, over every input, every interleaving and every run.

`dafny verify dfyconfig.toml` checks the whole project.

## How it is organised

| module | models |
|---|---|
| `QueueProtocol` | the FreeRTOS blocking queue as a transition system over any number of tasks: registration, semaphore takes outside the mutex, expiry, reconciliation, close and its broadcast |
| `QueueAnswers` | what each of those steps does to the queue and answers its task, and the end of a close |
| `QueueSections` | the same critical sections as methods of a class that updates counters and a byte ring in place |
| `ByteQueues` | the byte ring buffer, refining a sequence of messages |
| `TimerStates`, `TimeConvert` | one timer's deadline, and the merging of missed periods in constant time |
| `TimerRegistry` | the timer service's registry: scan, dispatch, restore and the API operations, on values and in a class |
| `TimerWorker` | the worker's sleeping and dispatching against concurrent API calls and callbacks |
| `Lifecycle` | the runtime's packed state word under load / compare-and-swap interleavings, with stale reads and spurious failures |
| `RuntimeComposition` | lifecycle, service slot, timer service, timer handles and calls together, over repeated initialise / shutdown cycles |
| `MockTime` | the mock clock's dispatch loop at frozen virtual time, with callbacks that own timer handles, and the reset of the clock |
| `TickTime`, `Durations`, `Bits` | tick and duration conversions with their `u64` and `u128` bounds and their saturation |
| `WaitLoop` | the absolute-deadline wait loop, the wait budget, the worker's wait and the chunked delay over a kernel that answers arbitrarily |
| `TaskJoin` | the POSIX join state machine with any number of joiners |
| `Allocator` | the over-aligning allocator with its back-pointer header, over byte memory |
| `Counting`, `Errors` | shared vocabulary |

A transition system has a `State`, an `Action` carrying what the environment chooses, `Enabled`, `Next` and
`Run(states, actions)`; a table of tasks is a sequence of program counters, so the number of tasks is
arbitrary.  `StepInv` shows that each step keeps the invariant, `RunInv` lifts it to every reachable state,
and the named theorems are stated about runs.
Beside them, lemmas such as `SendIsAnswered`, `StartArms` or `TransitionStepsAreExact` say in terms of the fields alone what
each step does, so that a theorem cannot hold because nothing ever happens.  A panic, a failed `expect` or a failed assertion is a
program counter of its own (`Panicked`, `Crashed`, `DropCrashed`), never a disabled step, so that its absence
is proved.  Code that updates fields in place is also a class whose methods are proved equal to the functions
the transition systems step with.

Assumptions about what lies outside: the native mutex is exclusive, so a critical section is one step; the
broadcast of `close`, which posts many tokens, is a step per post.  Atomics are sequentially consistent.  The
scheduler stays Running while a task is blocked.  At most `wakeMax` tasks use one queue at once.
`max_finite_delay_ticks` is at least 2.  A native wait of n ticks that times out moves the tick counter by at
least n, or by n - 1 if the tick in progress counts as a whole one (`early` covers both).  The native heap
hands out disjoint blocks.

## What the code does where it differs from what is said about it

- The deadline loop asks for the ceiling of the *nanoseconds* left.  Because the clock reading is itself
  rounded down, this can exceed the ticks left by up to the ticks of one nanosecond; `WaitDeadlineLoop` states the resulting
  bound, at most that excess and the guard tick beyond the deadline's own tick.
- The timer worker's unbounded wait asks for `max_finite + 1` ticks (crates/osal-backend-freertos/src/timer_service.rs, line 542), one more than
  every other native wait and equal to the kernel's "forever" sentinel.  It is harmless there, since the wait is
  repeated until the token arrives; `WaitForever` takes the length as a parameter.
- The mock's dispatch is meant to end whatever callbacks do, and it can hang.  `restore_callback` holds the registry
  lock while it drops a callback whose timer is gone; if that callback owns the last handle of some timer, the
  handle's release asks for the same lock, which is not reentrant.  `OrphanHangs` is such an input (timer A's
  callback owns B's only handle and releases A), and `LoopHangsIffOrphaned` says exactly when it happens.  The
  FreeRTOS service drops after unlocking (crates/osal-backend-freertos/src/timer_service.rs, lines 476-490).
- Dead code that the proofs identify: the `Uninitialized` arm of `begin_initialize`, the worker's `Rescan`, the
  live-timer `Busy` answer during an admitted shutdown, the arms of `do_pthread_join` for a thread already joined
  or removed, the `align_offset` failure arm, and every `Overflow` of the ceiling conversion.

## Model

| member | source | states |
|---|---|---|
| QueueProtocol.StepInv | crates/osal-backend-freertos/src/queue.rs:425-719 | every step of every task keeps the credit, waiter, supply and history invariant of both directions |
| QueueAnswers.SendIsAnswered | crates/osal-backend-freertos/src/queue.rs:442-473 | in every run a send on a closed queue gets `QueueClosed`; with room it is appended and wakes one uncredited receiver; on a full queue the budget decides between `QueueFull`, `Timeout`, the preflight's error and becoming one more blocked waiter |
| QueueAnswers.RecvIsAnswered | crates/osal-backend-freertos/src/queue.rs:574-604 | a receive gets the head message exactly when one is buffered and wakes one uncredited sender; an empty queue answers closed or by the budget |
| QueueAnswers.WaitIsSettled | crates/osal-backend-freertos/src/queue.rs:499-549 | after a wait, a taken token or one found after the timeout sends the task back to the queue with one waiter and one credit fewer; with none it unregisters with `Timeout`, or `QueueClosed` |
| QueueAnswers.UnlockedStepsAreLocal | crates/osal-backend-freertos/src/queue.rs:475-481 | calls, takes and expiries move their own task, and a take removes one token of its direction |
| QueueAnswers.ForeverIsPatient | crates/osal-backend-freertos/src/queue.rs:456-481 | a call that may wait forever never ends with a timeout, a full or an empty queue |
| QueueProtocol.TokensAreConserved | crates/osal-backend-freertos/src/queue.rs:341-409 | in every reachable state, broadcasts included, waiters are the registered tasks, credits plus posts not yet booked are tokens plus takes not yet confirmed and never exceed waiters, and no task has panicked: no checked subtraction fails and no give finds the semaphore full |
| QueueProtocol.NoStrandedWaiter | crates/osal-backend-freertos/src/queue.rs:442-549 | while a registered task has no credit, every buffered message (or, before close, every free slot) is claimed by a credit or by a task about to re-check |
| QueueProtocol.BlockedCanProgress | crates/osal-backend-freertos/src/queue.rs:485-541 | a blocked task whose request could be served, or whose queue is closed, can take a token, or an awake peer of its direction will look |
| QueueProtocol.TimeoutAbandonsNothing | crates/osal-backend-freertos/src/queue.rs:625-668 | a wait ends in `Timeout` only on an open queue, with no token available and all supply claimed by awake tasks |
| QueueProtocol.CloseIsStable | crates/osal-backend-freertos/src/queue.rs:688-719 | a committed close stays committed |
| QueueAnswers.CloseTakesEffect | crates/osal-backend-freertos/src/queue.rs:688-719 | close closes an open queue and starts its broadcast, and when the call returns the close is committed |
| QueueAnswers.BroadcastEnds | crates/osal-backend-freertos/src/queue.rs:390-408 | a running broadcast can always go on, comes one post closer to its end with each, is held up by nobody and ends committed |
| QueueProtocol.CloseIsDecisive | crates/osal-backend-freertos/src/queue.rs:688-719 | from the commit of close on, credits equal waiters in both directions, a waiter that already timed out still finds a token, nobody blocks, and calls end in `QueueClosed` or, for a receive, a message |
| QueueProtocol.ClosedTokensSuffice | crates/osal-backend-freertos/src/queue.rs:390-408 | from the commit of close on, each direction holds exactly one token per task that is blocked or timed out |
| QueueProtocol.ClosedTasksCanStep | crates/osal-backend-freertos/src/queue.rs:442-549 | after a committed close every unfinished task can itself take a step |
| QueueProtocol.ClosedTasksFinish | crates/osal-backend-freertos/src/queue.rs:574-668 | and at most three steps per task remain until all calls have returned, if no new ones start |
| QueueProtocol.HistoryIsTrue | crates/osal-backend-freertos/src/queue.rs:451-455 | the recorded histories are exactly the successful sends and receives of the run, in order |
| QueueProtocol.QueueIsFifo | crates/osal-backend-freertos/src/queue.rs:578-582 | over all tasks and interleavings, messages sent in commit order are messages received followed by those still buffered |
| QueueSections.FreeRtosQueue.constructor | crates/osal-backend-freertos/src/queue.rs:241-300 | a new queue starts with no waiters, credits or tokens |
| QueueSections.FreeRtosQueue.SignalOneReceiver | crates/osal-backend-freertos/src/queue.rs:341-361 | refines the protocol's signal of one uncredited receiver |
| QueueSections.FreeRtosQueue.SignalOneSender | crates/osal-backend-freertos/src/queue.rs:363-383 | refines the protocol's signal of one uncredited sender |
| QueueSections.FreeRtosQueue.SendHead | crates/osal-backend-freertos/src/queue.rs:442-473 | the send section over the byte ring answers closed, done with the message appended, by the budget, or blocks as one more waiter, panicking only on a full counter; and it is the protocol's section |
| QueueSections.FreeRtosQueue.RecvHead | crates/osal-backend-freertos/src/queue.rs:574-604 | the receive section answers with the head message byte for byte, closed, by the budget, or blocks as one more waiter; and it is the protocol's section |
| QueueSections.FreeRtosQueue.SettleSender | crates/osal-backend-freertos/src/queue.rs:499-547 | reconciliation of a sender after a take or a timeout refines the protocol's |
| QueueSections.FreeRtosQueue.SettleReceiver | crates/osal-backend-freertos/src/queue.rs:625-666 | the same for a receiver |
| QueueSections.FreeRtosQueue.BroadcastSenders | crates/osal-backend-freertos/src/queue.rs:390-408 | the give loop equals as many single posts of the protocol as there are uncredited senders |
| QueueSections.FreeRtosQueue.BroadcastReceivers | crates/osal-backend-freertos/src/queue.rs:390-408 | the same for receivers |
| QueueSections.FreeRtosQueue.Close | crates/osal-backend-freertos/src/queue.rs:676-719 | close equals marking the buffer closed and both broadcasts; a second close changes nothing |
| ByteQueues.NewByteQueue | crates/osal-portable/src/byte_queue.rs:35-57 | construction succeeds exactly for non-zero sizes whose product fits and can be reserved, and yields the empty queue |
| ByteQueues.AnswersAreExact | crates/osal-portable/src/byte_queue.rs:98-164 | when each operation succeeds, what it then does, and which error it gets otherwise, the message size first |
| ByteQueues.ByteQueue.TrySend | crates/osal-portable/src/byte_queue.rs:108-136 | sending appends the message to the represented sequence or, with the right error, changes nothing |
| ByteQueues.ByteQueue.TryRecv | crates/osal-portable/src/byte_queue.rs:141-164 | receiving removes the head into the buffer byte for byte or, with the right error, changes neither |
| ByteQueues.ByteQueue.Close | crates/osal-portable/src/byte_queue.rs:98-101 | closing keeps the content and only closes |
| ByteQueues.Replay | crates/osal-portable/src/byte_queue.rs:98-164 | for every sequence of operations the ring answers as the message sequence does |
| ByteQueues.FifoConserves | crates/osal-portable/src/byte_queue.rs:108-164 | over any operations, initial content plus accepted messages equals received messages plus final content |
| ByteQueues.ClosedAcceptsNothing | crates/osal-portable/src/byte_queue.rs:98-164 | once closed, no operation sequence adds a message, and what is received is a prefix of what was there |
| TimerWorker.StepInv | crates/osal-backend-freertos/src/timer_service.rs:381-490 | every scan, sleep, wake, callback, API call and worker creation keeps the worker's invariant |
| TimerWorker.NeverOversleeps | crates/osal-backend-freertos/src/timer_service.rs:385-467 | asleep with an empty wake semaphore, the worker has no stop request and no live deadline before the instant it sleeps until |
| TimerWorker.PendingWorkIsSeen | crates/osal-backend-freertos/src/timer_service.rs:323-329 | whenever a timer is due or a stop requested, the worker can move, has exited, or is not needed |
| TimerWorker.CallbacksAreConserved | crates/osal-backend-freertos/src/timer_service.rs:470-490 | each registered callback is in exactly one place: its entry, in flight, or dropped after deregistration |
| TimerWorker.ScanServesFirstDue | crates/osal-backend-freertos/src/timer_service.rs:395-437 | unless asked to stop, a scan dispatches the first live due timer by (deadline, id) if one exists, sleeps otherwise, and never rescans |
| TimerWorker.ScanSleepsUntilEarliest | crates/osal-backend-freertos/src/timer_service.rs:425-437 | a scan that sleeps does so until the deadline of a live timer, later than now, or forever exactly if none is armed; it quits exactly on a stop |
| TimerWorker.DispatchRearms | crates/osal-backend-freertos/src/timer_service.rs:412-423 | a dispatch takes the callback of its timer, stops a one-shot timer, arms a periodic one where adding its period again and again first passes now, and leaves the other live entries alone |
| TimerWorker.StepsTakeEffect | crates/osal-backend-freertos/src/timer_service.rs:439-490 | time passes as told, the worker is created or woken and scans again, a callback that has run is back in its live entry, and a stop is requested exactly if no timer is live |
| TimerWorker.StartTakesEffect | crates/osal-backend-freertos/src/timer_service.rs:827-866 | a start or reset arms a live timer one period after now |
| TimerWorker.ArmedUntilServed | crates/osal-backend-freertos/src/timer_service.rs:381-437 | an armed timer that nobody touches stays armed until dispatched, and from its deadline on awaits dispatch unless its callback is running |
| TimerWorker.StartedTimerFallsDue | crates/osal-backend-freertos/src/timer_service.rs:827-866 | a timer started at one step and left alone awaits its dispatch from one period later on, until it is dispatched |
| TimerWorker.NoEarlyFiring | crates/osal-backend-freertos/src/timer_service.rs:403-423 | no dispatch starts before its deadline |
| TimerWorker.NoDispatchAfterDeregister | crates/osal-backend-freertos/src/timer_service.rs:880-899 | once a deregistration commits, its timer is never dispatched again in the rest of the run |
| TimerWorker.DueTimerIsNotStarved | crates/osal-backend-freertos/src/timer_service.rs:403-411 | a due timer that nobody touches is overtaken by at most as many dispatches as live timers preceded it by (deadline, id), whatever is registered or restarted meanwhile |
| TimerWorker.FrontTimerIsNext | crates/osal-backend-freertos/src/timer_service.rs:413-423 | with none before it, the next scan dispatches it |
| TimerRegistry.TimerService.Section | crates/osal-backend-freertos/src/timer_service.rs:794-899 | each API operation equals its registry function, with the result, every error, the wake signal and the callback left for the caller to drop |
| TimerRegistry.StartArms | crates/osal-backend-freertos/src/timer_service.rs:827-866 | start and reset set the deadline to now + period and change nothing else, or overflow with nothing changed |
| TimerRegistry.StopDisarms | crates/osal-backend-freertos/src/timer_service.rs:842-852 | stop leaves no deadline and changes nothing else |
| TimerRegistry.ChangePeriodKeepsDeadline | crates/osal-backend-freertos/src/timer_service.rs:869-878 | a new period keeps the deadline; zero is refused with nothing changed |
| TimerRegistry.DeregisterDeletes | crates/osal-backend-freertos/src/timer_service.rs:880-899 | deregistration marks the entry deleted, disarms it and hands out its callback |
| TimerRegistry.RegisterAppends | crates/osal-backend-freertos/src/timer_service.rs:794-825 | registration appends one stopped timer with the next id and its callback, or is refused for its period, memory or ids with nothing changed |
| TimerRegistry.NotFoundIffUnknown | crates/osal-backend-freertos/src/timer_service.rs:827-899 | the other operations answer `NotFound`, changing nothing, exactly when no live entry has the id |
| TimerRegistry.TimerService.FirstExpired | crates/osal-backend-freertos/src/timer_service.rs:403-411 | the chosen entry is ready and no ready entry precedes it by (deadline, id) |
| TimerRegistry.TimerService.EarliestDeadline | crates/osal-backend-freertos/src/timer_service.rs:425-431 | the least deadline of the live entries, or none |
| TimerRegistry.TimerService.ScanSection | crates/osal-backend-freertos/src/timer_service.rs:394-437 | one locked scan equals the scan function the worker steps with |
| TimerRegistry.TimerService.RestoreSection | crates/osal-backend-freertos/src/timer_service.rs:470-490 | the callback goes back to its live entry, or is reported for dropping |
| TimerRegistry.TimerService.RequestStop | crates/osal-backend-freertos/src/timer_service.rs:610-667 | phase 1 of shutdown is refused exactly while a live timer exists, else it requests the stop and posts the wake token |
| TimerStates.NewTimerState | crates/osal-portable/src/timer_state.rs:28-37 | a zero period is refused; any other timer is created stopped |
| TimerStates.TimerState.AdvanceOnExpiry | crates/osal-portable/src/timer_state.rs:74-92 | reports expiry exactly when due and leaves the timer not due; a periodic one then stands where adding its period again and again first passes now, or is stopped if that is not representable |
| TimerStates.AdvancedIsNotExpired | crates/osal-portable/src/timer_state.rs:74-92 | an advanced timer is not due at the same instant |
| TimerStates.AdvanceStepsPast | crates/osal-portable/src/timer_state.rs:74-92 | an expiry stops a one-shot timer and moves a periodic one where adding its period again and again first passes now |
| TimerStates.StartedIsNotExpired | crates/osal-portable/src/timer_state.rs:40-54 | a timer just started is not due at the same instant |
| TimerStates.OneShotFiresOncePerStart | crates/osal-portable/src/timer_state.rs:40-92 | over any event sequence a one-shot timer fires at most once per successful start or reset |
| TimerStates.PeriodicKeepsTheGrid | crates/osal-portable/src/timer_state.rs:74-92 | left alone and polled at any instants, a periodic timer fires on the grid first + k * period, never before its deadline, each time at the first grid point after the previous firing's instant: no drift from late polls |
| TimerStates.RegularIncreases | crates/osal-portable/src/timer_state.rs:74-92 | deadlines and firing instants then interleave in strictly increasing order |
| TimerStates.PollAll | crates/osal-portable/src/timer_state.rs:74-92 | the in-place timer, polled at any instants, fires on that grid |
| TimerStates.PollFiresWhenDue | crates/osal-portable/src/timer_state.rs:74-92 | a poll fires if and only if the timer is due |
| TimeConvert.StepPastIsLeast | crates/osal-portable/src/time_convert.rs:34-76 | stepping period by period ends at previous + k * period for the least k strictly after now |
| TimeConvert.StepPastIsClosed | crates/osal-portable/src/time_convert.rs:34-76 | the stepping has a closed form |
| TimeConvert.MergeEqualsStepping | crates/osal-portable/src/time_convert.rs:34-76 | the constant-time merge equals the stepping for every input, and overflows exactly when that deadline exceeds the largest duration, with no intermediate overflow |
| Lifecycle.WordRoundTrip | crates/osal-shared/src/runtime.rs:37-54 | packing and unpacking state and count are inverse |
| Lifecycle.StepInv | crates/osal-shared/src/runtime.rs:97-318 | every load, swap (stale or spuriously failing), commit, rollback and lease drop keeps the invariant |
| Lifecycle.LifecycleIsSafe | crates/osal-shared/src/runtime.rs:97-318 | count equals live leases, a positive count implies Running, a guard exists exactly in the two transition states, and no assertion has failed |
| Lifecycle.GuardIsExclusive | crates/osal-shared/src/runtime.rs:200-284 | no two actors own transition guards at once |
| Lifecycle.UninitializedArmIsDead | crates/osal-shared/src/runtime.rs:97-121 | a failed swap of `begin_initialize` never reads Uninitialized |
| Lifecycle.RefinesAtomic | crates/osal-shared/src/runtime.rs:97-318 | each step of the swap loops is one atomic lifecycle operation, answered as that operation would, or changes nothing |
| Lifecycle.UndisturbedSwapsSucceed | crates/osal-shared/src/runtime.rs:97-192 | each call starts at its own first step, and a swap succeeds exactly unless it fails spuriously or the word changed since it was loaded |
| RuntimeComposition.StepInv | crates/osal-backend-freertos/src/runtime.rs:35-82 | every step of threads, handles, calls and worker keeps lifecycle, slot and registry consistent |
| RuntimeComposition.AdmissionIsExact | crates/osal-backend-freertos/src/runtime.rs:35-82 | initialise, shutdown and acquire are admitted exactly when the lifecycle is Uninitialized, Running without objects, or Running below the maximum, and a refusal changes nothing |
| RuntimeComposition.TransitionStepsAreExact | crates/osal-backend-freertos/src/timer_service.rs:592-723 | inside a transition a step fails exactly for no memory, a worker without a running scheduler, or a worker shutting itself down |
| RuntimeComposition.ShutdownSucceeds | crates/osal-backend-freertos/src/runtime.rs:59-71 | an admitted shutdown by another thread than the worker, under a running scheduler, ends with lifecycle and service stopped, whatever happens in between |
| RuntimeComposition.ShutdownIsNeverStuck | crates/osal-backend-freertos/src/timer_service.rs:610-723 | at every point of a shutdown its next step is enabled, phase 2 exactly once the worker has quit |
| RuntimeComposition.InitialiseSucceeds | crates/osal-backend-freertos/src/runtime.rs:35-52 | an admitted initialisation that finds memory ends with lifecycle and service running |
| RuntimeComposition.ObjectStepsAreExact | crates/osal-backend-freertos/src/timer.rs:28-69 | an object with a lease always finds the service; it registers, deregisters and gives its lease back in order |
| RuntimeComposition.CallStepsAreExact | crates/osal-backend-freertos/src/timer_service.rs:729-792 | a call creates the worker if it must, fails only for the scheduler or memory, and performs its operation on the running service |
| RuntimeComposition.TimersNeedLeases | crates/osal-backend-freertos/src/timer.rs:28-69 | live timers are those owned by handles and never more than the outstanding leases |
| RuntimeComposition.ShutdownMeetsNoTimer | crates/osal-backend-freertos/src/timer_service.rs:610-667 | a shutdown that the lifecycle admitted and that the worker does not run itself passes phase 1: the live-timer refusal is unreachable |
| RuntimeComposition.ShutdownIsAtomic | crates/osal-backend-freertos/src/runtime.rs:59-71 | a shutdown ends with lifecycle and service both stopped or both running |
| RuntimeComposition.InitialiseIsAtomic | crates/osal-backend-freertos/src/runtime.rs:35-52 | so does an initialisation, which always finds the slot empty |
| RuntimeComposition.NothingCrashes | crates/osal-backend-freertos/src/timer_service.rs:709-723 | the phase-3 panic, the deregistration panic in a handle's drop and every lifecycle assertion are unreachable |
| RuntimeComposition.CallsReachTheirTimer | crates/osal-backend-freertos/src/timer_service.rs:576-590 | a call that left the slot earlier still enters the running service and finds its timer |
| RuntimeComposition.ShutdownCanFinish | crates/osal-backend-freertos/src/timer_service.rs:677-707 | a shutdown waiting for the worker is never stuck |
| RuntimeComposition.ShutdownNeedsTwoMoves | crates/osal-backend-freertos/src/timer_service.rs:677-707 | while a shutdown waits, the worker makes at most two moves, and when none is left phase 2 ends |
| MockTime.PerformKeeps | crates/osal-backend-mock/src/time_runtime.rs:67-139 | no operation of a callback, cascading releases and clock resets included, makes a timer due, and each keeps keys, orders and callbacks consistent |
| MockTime.AlterationsAreExact | crates/osal-backend-mock/src/time_runtime.rs:106-131 | start and reset arm the timer one period from now unless that overflows, stop disarms it, a new period keeps the deadline, and nothing else changes |
| MockTime.RegistrationAppends | crates/osal-backend-mock/src/time_runtime.rs:82-104 | a registration appends one stopped timer with the next key of this epoch and its callback |
| MockTime.ReleaseIsExact | crates/osal-backend-mock/src/time_runtime.rs:226-234 | a release removes every timer whose handle it drops, adds none, and spares timers whose handle is neither dropped nor owned by a callback |
| MockTime.DropRemoves | crates/osal-backend-mock/src/timer.rs:26-32 | dropping a timer's last handle removes that timer |
| MockTime.CarryIsExact | crates/osal-backend-mock/src/timer.rs:38-70 | which last handles a running callback owns after each thing it does |
| MockTime.ResetRestarts | crates/osal-backend-mock/src/time_runtime.rs:67-75 | a reset restarts time and counters in an epoch that no earlier key belongs to, without timers |
| MockTime.StaleKeysReachNothing | crates/osal-backend-mock/src/time_runtime.rs:67-75 | once the clock was reset, nothing done with a key from before reaches a timer, whatever happens in between |
| MockTime.DispatchKeeps | crates/osal-backend-mock/src/clock.rs:12-18 | whatever the callback does, one turn leaves strictly fewer timers due; it hangs exactly if the callback ends without its own timer while it owns a timer's last handle |
| MockTime.LoopHangsIffOrphaned | crates/osal-backend-mock/src/time_runtime.rs:209-213 | the dispatch loop hangs if and only if some turn of the loop that unlocks before it drops orphans such a callback; otherwise both loops serve the same entries |
| MockTime.LoopIsComplete | crates/osal-backend-mock/src/clock.rs:10-19 | at most as many callbacks run as timers were due; without a hang none stays due and every callback is back in its entry |
| MockTime.EntangledIsReachable | crates/osal-backend-mock/src/time_runtime.rs:82-115 | ordinary registrations and a start lead to a timer whose callback owns another timer's only handle |
| MockTime.OrphanHangs | crates/osal-backend-mock/src/time_runtime.rs:178-184 | there, a callback that releases its own timer's last handle hangs the dispatch |
| MockTime.UnownedNeverHangs | crates/osal-backend-mock/src/clock.rs:10-19 | callbacks that capture no timer handle never hang the loop, whatever else they do |
| MockTime.QuietLoopServesInOrder | crates/osal-backend-mock/src/clock.rs:10-19 | callbacks that leave timers alone never hang it; the due timers fire once each in (deadline, creation order) and are stopped or armed at the first period after now; the others stay as they were |
| MockTime.MockTimeRuntime.Release | crates/osal-backend-mock/src/time_runtime.rs:226-234 | releasing last handles removes their timers and, in turn, those whose handles the dropped callbacks owned |
| MockTime.MockTimeRuntime.AdvanceTime | crates/osal-backend-mock/src/time_runtime.rs:77-79 | the clock moves by the duration, or to its end, and nothing else changes |
| MockTime.MockTimeRuntime.Operate | crates/osal-backend-mock/src/time_runtime.rs:67-139 | each registry operation equals its function on values |
| MockTime.MockTimeRuntime.TakeNextExpired | crates/osal-backend-mock/src/time_runtime.rs:147-175 | the loop picks the due entry that no due entry precedes by (deadline, creation order), advances it and takes its callback |
| MockTime.MockTimeRuntime.RestoreCallback | crates/osal-backend-mock/src/time_runtime.rs:178-213 | the callback returns to its vacant entry; without one it is dropped under the lock, and the call never returns if that releases a timer |
| MockTime.AdvanceAndDispatch | crates/osal-backend-mock/src/clock.rs:10-19 | for any callback behaviour: runs at most as many callbacks as timers were due; hangs exactly in the orphan case; otherwise ends with none due and all callbacks restored; unless reset, the clock moves by the duration or saturates; with quiet callbacks exactly the timers due by then fire, in order |
| Durations.PartsAreLossless | crates/osal-portable/src/tick_time.rs:150-168 | seconds with nanoseconds and bounded nanoseconds are in one-to-one, order-preserving correspondence |
| TickTime.CeilNeverOverflows | crates/osal-portable/src/tick_time.rs:88-107 | the `u128` ceiling conversion succeeds for every duration and every `u32` rate, and is zero only for zero |
| TickTime.ConversionsAreAdjoint | crates/osal-portable/src/tick_time.rs:88-168 | a tick count reaches a duration exactly when it is at least the duration's ceiling, saturation included |
| TickTime.TicksAreMonotone | crates/osal-portable/src/tick_time.rs:150-168 | more ticks are never less time |
| TickTime.CeilCovers | crates/osal-portable/src/tick_time.rs:88-168 | a duration's ceiling of ticks from any instant advances the clock by that duration or saturates it |
| TickTime.ExpansionIsExact | crates/osal-portable/src/tick_time.rs:145-147 | the shift-and-or expansion is the mixed-radix number, and a wrap is one tick more |
| TickTime.ExpansionFits | crates/osal-portable/src/tick_time.rs:145-147 | for every supported width the expansion fits `u128` |
| TickTime.SnapshotsAreMonotone | crates/osal-portable/src/tick_time.rs:72-77 | snapshot time is monotone in (overflow count, tick count), across wraps |
| WaitLoop.Kernel.Now | crates/osal-backend-freertos/src/clock.rs:35-56 | the clock read from a wrapping snapshot is that of the unbounded tick count |
| WaitLoop.RemainingTicks | crates/osal-backend-freertos/src/wait.rs:292-294 | the ceiling of the time left covers the ticks left, with an excess of at most one nanosecond's ticks |
| WaitLoop.NextChunk | crates/osal-backend-freertos/src/wait.rs:287-299 | cannot fail; none is left exactly when the deadline has passed; otherwise the request lies in [2, max_finite] and covers the ticks left or fills a whole native call |
| WaitLoop.WaitDeadlineLoop | crates/osal-backend-freertos/src/wait.rs:270-313 | never an error; `Unavailable` only at or after the deadline and after a last failed attempt; immediate attempts and timed waits within [2, max_finite] alternate; at most as many timed waits as chunks to the deadline; a granted take is never lost |
| WaitLoop.ChunksIsCeiling | crates/osal-backend-freertos/src/wait.rs:270-313 | the bound on timed waits is the ceiling of ticks left by chunk size |
| WaitLoop.WaitForever | crates/osal-backend-freertos/src/wait.rs:316-327 | an unbounded wait ends at the first granted take and only there |
| WaitLoop.WaitBudget.constructor | crates/osal-backend-freertos/src/wait.rs:101-117 | a zero timeout never blocks, and no deadline is computed yet |
| WaitLoop.WaitBudget.PrepareBlocking | crates/osal-backend-freertos/src/wait.rs:129-156 | fails exactly on the scheduler's or the deadline's obstacle with nothing changed, else fixes the deadline once |
| WaitLoop.WaitBudget.WaitOnce | crates/osal-backend-freertos/src/wait.rs:172-221 | a prepared budget cannot fail, gives up only at or after its one original deadline, and keeps it for the next attempt |
| WaitLoop.WaitUntilDeadline | crates/osal-backend-freertos/src/timer_service.rs:501-538 | the worker's wait ends with the wake token or, within the chunks to the deadline, after the deadline |
| WaitLoop.Delay | crates/osal-backend-freertos/src/clock.rs:58-108 | payloads sum to the ceiling tick count, each native call is within [2, max_finite], the number of calls is exact, and the clock advanced by at least the duration or saturated |
| TaskJoin.StepInv | crates/osal-backend-posix/src/task.rs:268-439 | every step of every joiner and of the task keeps the join invariant |
| TaskJoin.NativeJoinIsExclusive | crates/osal-backend-posix/src/task.rs:393-400 | at most one joiner is between its claim and its conclusion, so the thread handle used outside the mutex has one user |
| TaskJoin.NativeJoinHappensOnce | crates/osal-backend-posix/src/task.rs:393-437 | `pthread_join` succeeds at most once and is only called on a thread not yet joined |
| TaskJoin.ExitCodesAgree | crates/osal-backend-posix/src/task.rs:300-439 | all successful joins and polls report the one code that was published |
| TaskJoin.LooksAreAnswered | crates/osal-backend-posix/src/task.rs:311-383 | a poll answers the published code exactly once the task has finished, else a timeout; a blocking look returns exactly when the task was joined, claims exactly when it has finished unjoined, and else sleeps |
| TaskJoin.NativeJoinsAreAnswered | crates/osal-backend-posix/src/task.rs:402-438 | a successful native join answers the published code and caches it, a failed one answers an error and hands the task back; both wake every sleeper |
| TaskJoin.StepsTakeEffect | crates/osal-backend-posix/src/task.rs:268-400 | calls look unless refused, the native join reports what `pthread_join` answered, a sleeper that gives up reports its error, and the task publishes its code and then wakes everybody |
| TaskJoin.NoJoinerIsForgotten | crates/osal-backend-posix/src/task.rs:192-283 | a joiner sleeps unsignalled only while the task runs, its broadcast is pending, or someone is in the native join |
| TaskJoin.JoinersCanProgress | crates/osal-backend-posix/src/task.rs:300-439 | after the task exited, a joiner that has not returned always leaves some regular step enabled |
| TaskJoin.JoinersFinish | crates/osal-backend-posix/src/task.rs:300-439 | at most 4n + 1 regular steps fit in a row for n joiners, so all joins return once native joins succeed |
| Allocator.LoadStored | integration/freertos-qemu-mps2/rust/src/allocator.rs:60-63 | the header written as bytes reads back as the raw address |
| Allocator.UserIsPlaced | integration/freertos-qemu-mps2/rust/src/allocator.rs:51-65 | the aligned pointer leaves room for an aligned header below and the whole block above, inside the raw block |
| Allocator.AllocReturns | integration/freertos-qemu-mps2/rust/src/allocator.rs:24-66 | null exactly for an empty layout, a size beyond the address space or an exhausted heap, with nothing changed; else a new live pointer, the least one above the header that is aligned for layout and header |
| Allocator.DeallocReleases | integration/freertos-qemu-mps2/rust/src/allocator.rs:68-80 | exactly the pointer and its own raw block are released; null changes nothing |
| Allocator.StepInv | integration/freertos-qemu-mps2/rust/src/allocator.rs:24-80 | every allocation, release and permitted write keeps placement, disjointness and headers |
| Allocator.OwnBytesAreWritable | integration/freertos-qemu-mps2/rust/src/allocator.rs:24-66 | users may write all of their block without touching any header |
| Allocator.BlocksAreWellPlaced | integration/freertos-qemu-mps2/rust/src/allocator.rs:24-66 | in every run each pointer is aligned as asked, with an aligned header, both inside its own raw block |
| Allocator.BlocksAreDisjoint | integration/freertos-qemu-mps2/rust/src/allocator.rs:24-66 | headers and blocks of different live pointers never share a byte |
| Allocator.DeallocRecoversBase | integration/freertos-qemu-mps2/rust/src/allocator.rs:68-80 | after any allocs, deallocs and writes, `dealloc` hands back exactly the pointer's own raw base, which is outstanding |
| Allocator.NothingLeaks | integration/freertos-qemu-mps2/rust/src/allocator.rs:24-80 | outstanding raw blocks are those of live pointers, so releasing all pointers returns all blocks |
| Allocator.FreeRtosAllocator.Alloc | integration/freertos-qemu-mps2/rust/src/allocator.rs:24-66 | null for zero size, an overflowing total or an exhausted heap with nothing changed, else the state-machine step |
| Allocator.FreeRtosAllocator.Dealloc | integration/freertos-qemu-mps2/rust/src/allocator.rs:68-80 | null is ignored; otherwise what the header names is freed |

## Left out

- The POSIX timer service with its generations: its scan, dispatch and restore repeat those of the FreeRTOS service that is modelled here; the generation arithmetic would add easy members.
- The POSIX task startup handshake, thread-local identity and live count; in `TaskJoin` a self-join and a failed deadline conversion are the refusal that `Call` carries.
- `TaskJoin` lets the task publish any exit code, where the source always publishes success; the agreement of codes is then not trivial.
- Scheduler suspension while a queue waiter re-acquires its mutex (`lock_state` failing after a wait), and failure to create native handles.
- Memory orderings weaker than sequential consistency, unsafe aliasing, and `Send`/`Sync` reasoning.
- Fairness and real-time latency: progress is stated as an enabled step with a bound or a measure, not as an eventuality; `WaitForever` requires that some later take is granted.
- A registration that the FreeRTOS service refuses after entering the registry (no memory, identifiers exhausted) drops the callback under the registry mutex (crates/osal-backend-freertos/src/timer_service.rs, lines 799-823): the refusals are modelled, what a dropped callback may release is modelled for the mock only.
- `TaskJoin` models the completion state on values, one function per critical section; the update in place under the mutex has no separate class.
- WaitLoop.Kernel.Take: states a lower bound on the ticks that pass, because lateness is the scheduler's.
- MockTime.AdvanceAndDispatch: callbacks do not call `delay` themselves, which would nest dispatch loops; the `deleted` flag, which the mock never sets, has no counterpart.
- The wrap-around of the mock's epoch and the overflow of its identifier counters.
- Allocator: the native heap's own bookkeeping; it is the `raw` answer of `Alloc`, constrained only to be null or a fresh block.
- The capability cache and its initialisation order; a rate, width and `max_finite` are parameters of `Kernel`.
- Mutexes, semaphores and tasks of the FreeRTOS backend, the POSIX queue, and the mock's other objects: thin wrappers that would add one-branch members.
- The C shim, FFI bindings, board support, test fixtures and the timer service's flush counters.
