# NovaIO runtime model

A Dafny model of the core of NovaIO, a coroutine runtime with one scheduler per core, and proofs of
what its hardest parts promise. `dafny verify dfyconfig.toml` checks the whole project.

## What is modelled

| files | part of the runtime |
|---|---|
| `WheelSlots`, `WheelRefinement`, `WheelRuns` | the five-level time wheel on values, its placement invariant, and its refinement of a plain multiset of timers over every run |
| `WheelOverdue` | what becomes of timers that are overdue when they are added |
| `WheelAmortised`, `WheelCounter`, `WheelTimeout` | the cost of cascading, what `active_timers_` counts, and the answer of `next_timeout` |
| `Sleep`, `TimerLoop` | sleeping from end to end under the event loop |
| `TimeWheel` | the wheel in place: slot heads, intrusive doubly linked nodes, counters |
| `CoMutex` | the coroutine mutex, one transition per atomic operation |
| `Wakeup` | dispatch, inboxes, `msg_ring`, blocking waits and `stop`, for any number of schedulers and external threads |
| `Dispatching` | what a dispatch and a wait achieve |
| `StopVisits` | `stop` visits every scheduler |
| `StopHangs`, `StopRuns` | exactly when a scheduler that `stop` has visited can block for good, and runs in which it does |
| `Withholding` | messages that a busy scheduler has queued but not submitted |
| `SpscRing`, `RingMath` | the single-producer single-consumer ring with wrapping 64-bit counters |
| `LocalQueue`, `Batching` | the local ring with wrapping 32-bit counters, `runnext_` and the batches |
| `IoContext`, `Event`, `WhenAll` | ownership of an I/O context, the one-shot event, the `when_all` countdown |
| `Serializer` | the serializer and a decoder that inverts it |
| `Basics`, `Chains`, `Paths`, `Sums` | optional values and handles; singly linked lists of awaiters; runs put together step by step; sums for termination measures |

The time wheel, the local queue, the ready queue, the timing part of the event loop and the
serializer are classes or methods that update their state in place; each is tied to a function on
values, and the properties are proved about that function. The lock-free and multi-threaded parts
are transition systems: a state, one transition per atomic operation or per private step, and
theorems about every interleaving of every length. Their program counters name the points of the
source between two atomic operations, and a weak compare-and-swap may fail for no reason. Fields
described as history are written by the transitions and never read by them.

## What the proofs show about the code

* **The wheel is right, one tick after the expiry.** `tick(t)` schedules exactly the pending timers that
  expire before `t`, each once, in order of expiry. A slot for tick `e` is drained only when the
  current time is past `e`. Under the event loop the sleeps scheduled are exactly those whose time was
  up at the latest clock reading (`Sleep.SleepsWake`).
* **`add_timer` needs a timer that is not overdue.** The distance to the current tick is an unsigned
  64-bit difference, so an overdue timer is treated exactly as one that expires 2^64 ticks later. It
  is never fired and disturbs no other timer; `tick` keeps its promise for the timer just added if and
  only if `expires >= current_tick_` (`WheelOverdue.FiresIffNotOverdue`). Runs with any number of
  overdue additions are runs of the plain model in which those timers expire 2^64 ticks later
  (`AnyRunRefines`). The event loop never adds an overdue one (`Sleep.SleepEndToEnd`).
* **`active_timers_` does not count the pending timers.** A cascade counts a timer again and firing
  does not count it off, so over every run the counter drifts from the number of pending timers by
  exactly the firings and re-additions (`WheelCounter.RunSurplus`). It is right if and only if the run
  had none (`CountsPendingIff`); adding any timer and letting it fire makes it wrong
  (`OverstatesAfterFiring`), and then it stays wrong and never returns to 0 (`NeverUntimedAgain`). It is
  bounded by 1 + 4 + floor((expires - added) / 2^32) per added timer (`WheelAmortised.CounterFromNew`).
  Hence the event loop waits without a timeout only as long as its wheel has never fired or re-added a
  timer and none is pending (`UntimedIff`); later it wakes up at least every 255 ms.
* **`next_timeout` can overshoot.** It scans `tv1_` only. Where the scan stops at an offset below 256,
  the answer runs past no pending timer when the timer found expires no later than the next cascade
  or is already past; with `tv1_` empty, when the fixed 50 ms end no later than the next cascade. For
  every tick, scan offset and clock, every run that gets there is in time if and only if this holds
  (`WheelTimeout.TimeoutCondition`). The first cascade comes at tick 256.
* **The mutex is fair and does not retry in `unlock`.** Left alone, `lock` takes a free lock or queues in
  four steps, and `unlock` frees the lock or hands it to the longest waiting coroutine
  (`CoMutex.LockCompletes`, `UnlockCompletes`); a locker retries only by bad luck or because somebody
  else has changed the word (`CasOutcome`). Address reuse does no harm: a push that
  succeeds after the word has changed and changed back still links the right list, because the
  written link is the address that the word holds again (`CoMutex.Push`).
* **`stop` can hang.** When a full inbox refuses its push, `stop` sends that scheduler no wake-up. After
  `stop` has visited a scheduler, the scheduler can block for good, so that `stop` joins forever, if
  and only if it is past its last test of the flag and nothing is on its way to it that no scheduler
  can withhold (`StopHangs.HangsIffNotSaved`, with `Saved` as the condition). An accepted push always
  saves its target (`SentIsSaved`), and `stop` skips nobody: without a refused push it reaches all
  (`StopVisits.StopSkipsNobody`, `StopSucceeds`). Both kinds of failure exist for every inbox capacity: an inbox
  filled before the ring existed (`StopRuns.RefusedBeforeRing`), and an inbox filled by a scheduler
  that leaves its loop with the messages still on its own submission queue
  (`StopRuns.RefusedWhileBlocked`). In the second way a wake-up can be abandoned after `stop`, and only
  then (`Wakeup.NoStrandedInbox`). The blocking wait must be untimed, so a scheduler whose wheel has
  fired or re-added a timer does not hang like this (`WheelCounter.NeverUntimedAgain`).
* **A busy scheduler withholds the wake-ups it owes.** A scheduler submits its `msg_ring` messages only
  after an empty batch, or when its submission queue is full. A message leaves the queue if and only
  if such a step happens, and is posted by it (`Withholding.QueuedStep`, `Withheld`). For every number
  of batches there is a run in which a target stays blocked on a nonempty inbox while the scheduler
  that pushed the task runs that many batches (`BlockedThroughout`).
* **`LocalQueue::push` has no full test.** It appends if and only if every queued handle in the slot it
  writes is the same handle and fewer than 2^32 - 1 are queued; at capacity the oldest handle is lost
  and the new one occurs twice (`LocalQueues.PushAppends`, for every number of queued handles). A null
  handle that was queued ends a batch early. On a ring of any capacity an operation conserves the handles
  if and only if its push is lossless in this sense (`Batching.DoAtConserves`).
* **An I/O context leaks** in exactly one case: an awaiter that still holds it is destroyed after the
  completion was read (`IoContexts.ContextLifetime`, `ContextLeaks`). If its coroutine had suspended
  before the completion, the handle of the destroyed coroutine also stays in the ready queue, and the
  event loop asks it whether it is done and resumes it, without a way to know (`DanglingHandle`,
  `DanglingReached`; src/scheduler.cpp:119-125). A coroutine that suspends after its completion was read is never resumed
  (`ResumesIffSuspendedFirst`, `LateSuspensionReached`).

## Assumptions

* Memory is sequentially consistent, and `std::mutex` is a lock with one owner at a time.
* An inbox has one producer at a time. A submitted `msg_ring` message is delivered. Each operation
  that is not multishot gets exactly one completion entry.
* Ring capacities are powers of two: from 1 to 2^63 for the inbox ring and from 1 to 2^31 for the
  local ring.
* Callers of `lock` and of `sleep_for` run on a scheduler, and `stop` is called by an external thread.
* The clock is monotone, `clock + ms` and the timer counters do not exceed 64 bits, and nobody
  removes a node that has already fired.
* Every task of a `when_all` finishes normally, on a scheduler.

Shifts and masks by powers of two are written as division and remainder. Unsigned differences and
wrapping counters are written with an explicit remainder. Handles and awaiter addresses are numbers,
with 0 for the null handle. A slot number in 0..511 stands for a `TimerNode**`.

## Model

| member | source | states |
|---|---|---|
| WheelSlots.VisitIsDue | src/time_wheel.cpp:12-22 | below the top level, a timer in the slot visited at tick c, whose visit lies less than one revolution ahead, is due at exactly c |
| WheelSlots.TopVisit | src/time_wheel.cpp:20-22 | a timer in the visited tv5 slot is a whole number of 2^32-tick revolutions ahead of its due visit |
| WheelSlots.FreshPlacement | src/time_wheel.cpp:9-22 | the slot chosen for a 64-bit expiry that is not overdue is visited strictly later (levels 2 to 5), no later than the expiry, and within one revolution (levels 1 to 4) |
| WheelRefinement.KeysUpdate | src/time_wheel.cpp:24-28 | changing one slot changes the pending multiset by that slot's content and nothing else |
| WheelRefinement.InsertKeys | src/time_wheel.cpp:6-29 | adding a timer adds exactly its (handle, expiry) to the pending multiset |
| WheelRefinement.InsertKeepsInv | src/time_wheel.cpp:6-29 | add_timer keeps the placement invariant for a timer that is not overdue; an overdue one never meets it |
| WheelRefinement.MovedPlaced | src/time_wheel.cpp:48-77 | a re-added timer goes strictly lower, and below tv5 never into a slot that this tick's cascades drain, or back into the tv5 slot being drained exactly when at least 2^32 ticks remain; it is correctly placed and its cascade budget shrinks |
| WheelRefinement.CascadeKeys | src/time_wheel.cpp:48-56 | a cascade neither loses nor duplicates a timer |
| WheelRefinement.CascadePlaced | src/time_wheel.cpp:48-56 | cascading level l brings that level up to the next tick and keeps every timer correctly placed |
| WheelRefinement.NextTurn | src/time_wheel.cpp:63-72 | the index of a level is 0 exactly at the ticks at which the next level is due |
| WheelRefinement.CascadesPlaced | src/time_wheel.cpp:60-77 | the nested cascades bring all levels up to date |
| WheelRefinement.HeadOfTick | src/time_wheel.cpp:60-77 | after the cascades every level is up to date and nothing is lost |
| WheelRefinement.DrainPlaced | src/time_wheel.cpp:79-90 | the drained tv1 slot holds only timers that expire at this tick, and the invariant holds for the next tick |
| WheelRefinement.StepRefines | src/time_wheel.cpp:59-91 | one round of tick fires exactly the timers of that tick, within their cascade budget, and restores the invariant |
| WheelRefinement.TicksRefine | src/time_wheel.cpp:58-92 | tick(until) fires, in order of expiry and each once, exactly the timers that expire before until |
| WheelRefinement.InvBounds | src/time_wheel.cpp:48-56 | no pending timer is overdue, and each was re-added at most 4 + floor((expires - added) / 2^32) times |
| WheelRuns.NewIsGood | include/novaio/time_wheel.hpp:36-43 | a new wheel is empty at tick 0 and meets the invariant |
| WheelRuns.AddRefines | src/time_wheel.cpp:6-29 | add_timer is insertion into the plain multiset, and the counter stays an upper bound |
| WheelRuns.RemoveRefines | src/time_wheel.cpp:31-46 | remove_timer is removal of that one timer from the plain multiset |
| WheelRuns.TickRefines | src/time_wheel.cpp:58-92 | tick is the plain model's tick: all and only the due timers, in order, the others still pending |
| WheelRuns.DoRefines | src/time_wheel.cpp:6-92 | every operation is a step of the plain model and keeps the invariant |
| WheelRuns.RunRefines | src/time_wheel.cpp:6-92 | every sequence of additions, removals and ticks is a run of the plain model with the same visible events |
| WheelOverdue.SameSlot | src/time_wheel.cpp:9-22 | an expiry and the same expiry 2^64 ticks later get the same slot |
| WheelOverdue.ActsAsShifted | src/time_wheel.cpp:6-29 | adding an overdue timer is adding one that expires 2^64 ticks later, expiries read modulo 2^64 |
| WheelOverdue.TicksConserve | src/time_wheel.cpp:58-92 | no tick loses or duplicates a timer, however the timers are placed |
| WheelOverdue.OverdueNeverFires | src/time_wheel.cpp:9-22 | an overdue timer stays pending through every tick of a 64-bit clock, and exactly the other due timers fire, in order |
| WheelOverdue.FiresIffNotOverdue | src/time_wheel.cpp:6-92 | tick keeps the plain model's promise for a timer just added if and only if the timer was not overdue |
| WheelOverdue.AnyDo | src/time_wheel.cpp:6-92 | one operation, overdue additions included, is a step of the plain model in which overdue timers expire 2^64 ticks later |
| WheelOverdue.AnyRunRefines | src/time_wheel.cpp:6-92 | every run with any number of overdue additions is a run of that plain model: the overdue timers never fire and the others are served as usual |
| WheelOverdue.NewShadowed | include/novaio/time_wheel.hpp:36-43 | a new wheel is a start of such runs |
| WheelAmortised.ReAddSlack | src/time_wheel.cpp:51-55 | every re-addition uses up one unit of the remaining cascade budgets |
| WheelAmortised.StepSlack | src/time_wheel.cpp:59-91 | one round of tick uses up exactly as many units as it re-adds timers, besides what the fired timers still had |
| WheelAmortised.TicksSlack | src/time_wheel.cpp:58-92 | all re-additions of tick(until) together fit in the budgets of the pending timers |
| WheelAmortised.CounterBounds | src/time_wheel.cpp:7-77 | over every run from a good wheel the counter is at least the number of pending timers and at most its start value plus the unused cascade budgets and what the additions allow |
| WheelAmortised.CounterFromNew | src/time_wheel.cpp:7-77 | from a new wheel the counter is at most 5 + floor((expires - added) / 2^32) summed over the additions, and at least the number of pending timers |
| WheelCounter.OpSurplus | src/time_wheel.cpp:6-92 | an operation increases counter minus pending timers by exactly its firings and re-additions |
| WheelCounter.RunSurplus | src/time_wheel.cpp:6-92 | over every run, overdue additions included, counter minus pending timers grows by exactly the firings and re-additions |
| WheelCounter.CountsPendingIff | include/novaio/time_wheel.hpp:26 | from a new wheel the counter equals the number of pending timers if and only if the run fired and re-added none |
| WheelCounter.OverstatesAfterFiring | src/time_wheel.cpp:79-89 | for every wheel and timer, adding the timer and letting it fire makes the counter overstate |
| WheelCounter.NeverUntimedAgain | src/time_wheel.cpp:94-104 | once the counter overstates it does so for good, never returns to 0, and the answer of next_timeout stays at most 255 |
| WheelCounter.UntimedIff | src/scheduler.cpp:152-155 | the event loop waits without a timeout if and only if nothing is pending and nothing was ever fired or re-added |
| WheelTimeout.FirstLevelExpiry | src/time_wheel.cpp:97-103 | a timer found by the scan at offset i expires at current tick + i |
| WheelTimeout.PendingPlace | src/time_wheel.cpp:12-22 | a pending timer that expires before the next cascade is in tv1, at its own offset |
| WheelTimeout.TimeoutRange | src/time_wheel.cpp:94-105 | the answer is 2^64 - 1, infinite, exactly when the counter is 0, then nothing is pending, and otherwise it is at most 255 |
| WheelTimeout.TimeoutExact | src/time_wheel.cpp:97-103 | the answer is found - now when the first timer of tv1 expires at found > now, and 0 when it is past; it is the earliest pending timer when it expires no later than the next cascade |
| WheelTimeout.TimeoutBlind | src/time_wheel.cpp:104 | with tv1 empty the answer is 50 and every pending timer expires no earlier than the next cascade |
| WheelTimeout.TimeoutSharp | src/time_wheel.cpp:94-105 | for every tick and scan offset beyond the next cascade, a run from a new wheel makes the answer the time left to the timer found although an earlier one is pending |
| WheelTimeout.SafeInTime | src/time_wheel.cpp:94-105 | under the condition the answer runs past no pending timer |
| WheelTimeout.BlindSharp | src/time_wheel.cpp:104 | with tv1 empty and the next cascade less than 50 ms away, a run from a new wheel makes the answer 50 although a timer is due at the cascade |
| WheelTimeout.TimeoutCondition | src/time_wheel.cpp:94-105 | for every tick, scan offset and clock, all runs that get there are in time if and only if the condition holds |
| Sleep.TicksSplit | src/time_wheel.cpp:58-92 | tick(mid) followed by tick(until) equals tick(until) |
| Sleep.RoundsAreOneTick | src/scheduler.cpp:104-107 | ticking once per elapsed millisecond equals a single tick(now) |
| Sleep.StartInStep | src/scheduler.cpp:100 | at the start of run the wheel, the last tick time and the clock are in step |
| Sleep.TurnInStep | src/scheduler.cpp:103-107 | every iteration and every sleep keeps tick <= last tick time <= clock; each timer fires late rather than early, and none is lost |
| Sleep.SleepEndToEnd | src/time_wheel.cpp:107-114 | under any monotone clock no timer is added overdue; each nonzero sleep is still pending or was scheduled exactly once, not before its full time |
| Sleep.TurnPrompt | src/scheduler.cpp:103-107 | an iteration that sees the clock advance drives the wheel to the reading: what expires before it fires, and what stays pending is not due |
| Sleep.RunPrompt | src/scheduler.cpp:102-107 | over every run the wheel is driven to the latest reading an iteration has seen |
| Sleep.ExactlyDue | src/scheduler.cpp:102-107 | over every run the timers scheduled are exactly those that expire before the latest reading, each as often as it was added |
| Sleep.SleepsWake | src/time_wheel.cpp:107-114 | from the start of the event loop, the sleeps scheduled are exactly those with reading + ms before the latest reading, each once |
| TimeWheels.TimerNode.constructor | include/novaio/time_wheel.hpp:9-15 | a new node is in no list |
| TimeWheels.LinkFront | src/time_wheel.cpp:24-28 | linking puts the node in front and keeps next, prev and head_ptr consistent along the list |
| TimeWheels.Unlink | src/time_wheel.cpp:33-45 | unlinking removes exactly that node, keeps the order of the others and all links consistent, and clears the node |
| TimeWheels.SplicedForward | src/time_wheel.cpp:33-37 | joining the neighbours' next links leaves the list without exactly that node |
| TimeWheels.SplicedBack | src/time_wheel.cpp:39-41 | joining the neighbours' prev links keeps every back link consistent |
| TimeWheels.FireAll | src/time_wheel.cpp:81-89 | the handles of a detached list are scheduled in list order, or dropped without a scheduler |
| TimeWheels.TimeWheel.constructor | include/novaio/time_wheel.hpp:36-43 | a new wheel is well linked, empty, at tick 0 |
| TimeWheels.TimeWheel.AddTimer | src/time_wheel.cpp:6-29 | all 512 lists stay acyclic, disjoint and consistent, and the slots change as in the model on values |
| TimeWheels.TimeWheel.Link | src/time_wheel.cpp:24-28 | linking into one slot leaves the other 511 lists and all link invariants intact |
| TimeWheels.TimeWheel.RemoveTimer | src/time_wheel.cpp:31-46 | a linked node is removed from its own slot at its own place, which is the model's removal, counter included; an unlinked one changes nothing |
| TimeWheels.TimeWheel.Detach | src/time_wheel.cpp:49-50 | the slot's whole list is taken off, and its nodes keep their links |
| TimeWheels.TimeWheel.AddAllAgain | src/time_wheel.cpp:51-55 | the cascade loop terminates, re-adds every node of the detached list, and counts each again |
| TimeWheels.TimeWheel.Cascade | src/time_wheel.cpp:48-56 | the list surgery of a cascade is the cascade on values and keeps all links consistent, tv5 into itself included |
| TimeWheels.TimeWheel.CascadeLevels | src/time_wheel.cpp:60-77 | the nested cascades are those of the model on values |
| TimeWheels.TimeWheel.Drain | src/time_wheel.cpp:79-89 | the slot's handles are scheduled in list order and the slot is left empty |
| TimeWheels.TimeWheel.TickOnce | src/time_wheel.cpp:59-91 | one round of the loop is one step of the model on values |
| TimeWheels.TimeWheel.Tick | src/time_wheel.cpp:58-92 | the wheel afterwards, the handles scheduled and the counter are those of the model on values |
| TimeWheels.TimeWheel.NextTimeout | src/time_wheel.cpp:94-105 | the scan over the slot heads answers as the model on values |
| TimerLoops.TimerLoop.constructor | src/scheduler.cpp:100 | the loop starts with a new wheel and the first clock reading |
| TimerLoops.TimerLoop.Iterate | src/scheduler.cpp:103-107 | the loop head in place is an iteration of the model of whole runs: same wheel, same time, same handles in the same order |
| TimerLoops.TimerLoop.Suspend | src/time_wheel.cpp:107-114 | a suspended sleeper is added with expiry clock + ms, which is a sleep of the model of whole runs |
| CoMutex.PreparePush | src/comutex.cpp:21 | writing the link of an awaiter that is not yet published disturbs no list |
| CoMutex.Acquire | src/comutex.cpp:12-18 | the lock is taken from the unlocked word only when nobody waits |
| CoMutex.Push | src/comutex.cpp:21-27 | a successful push appends exactly the pusher to the queue, and the new word heads the whole old stack, address reuse included |
| CoMutex.Take | src/comutex.cpp:35-51 | an exchange that finds waiters takes the whole stack; the private list was empty and is now that stack |
| CoMutex.Release | src/comutex.cpp:37-44 | the word is set back to unlocked only when nobody waits |
| CoMutex.Turn | src/comutex.cpp:52-57 | each round of the reversal leaves one more private waiter, in push order, on the reversed list and one less on the other |
| CoMutex.HandOff | src/comutex.cpp:64-75 | the lock passes to the longest waiting awaiter and to no other |
| CoMutex.StepInv | src/comutex.cpp:5-76 | every atomic operation and every private step of any coroutine keeps the invariant |
| CoMutex.MutualExclusion | src/comutex.cpp:5-76 | in every interleaving at most one coroutine holds the lock or is inside unlock, no bad address is followed, and every awaiter that is followed is still suspended |
| CoMutex.FirstComeFirstServed | src/comutex.cpp:19-76 | grants are an initial part of the pushes, the rest are exactly the suspended coroutines, each once; the word is unlocked only without waiters, and waiters have someone in charge |
| CoMutex.StepServes | src/comutex.cpp:11-76 | a step appends the pusher, serves the head of the queue, or neither; nobody gets the lock past a waiter |
| CoMutex.UnlockProgress | src/comutex.cpp:32-76 | unlock advances with each of its own steps and nobody else's step sets it back |
| CoMutex.FollowedIsWaiting | src/comutex.cpp:50-75 | the awaiter whose link or coroutine the next step of unlock reads is still waiting |
| CoMutex.LockCompletes | src/comutex.cpp:5-30 | undisturbed, lock takes a free lock, and otherwise queues the caller as the last waiter |
| CoMutex.CasOutcome | src/comutex.cpp:12-28 | a locker's compare-and-swap succeeds exactly when it is lucky and the word is the one read; otherwise only that locker moves, having read the word again |
| CoMutex.UnlockCompletes | src/comutex.cpp:32-76 | undisturbed, unlock ends with the lock free if nobody waits, and otherwise held by the longest waiting coroutine |
| CoMutex.FinishUnlock | src/comutex.cpp:32-76 | the same from every point inside unlock |
| Wakeup.LocalStep | src/scheduler.cpp:102-128 | a scheduler's private steps keep every wake-up due |
| Wakeup.SubmitAllInv | src/scheduler.cpp:113-116 | submitting before the wait posts every message the scheduler still owed, and loses no wake-up |
| Wakeup.SchedNotifyInv | src/io_engine.cpp:138-146 | queueing a message, also on a full submission queue, keeps every wake-up due |
| Wakeup.ExtReadInv | src/runtime.cpp:34-37 | a dispatcher that sees no ring descriptor may give up, since the target has yet to look at its inbox; otherwise it still owes the message |
| Wakeup.ExtSubmitInv | src/runtime.cpp:58-68 | an external thread's message is posted by its submission, and no wake-up is lost |
| Wakeup.TakeCqeInv | src/io_engine.cpp:85-113 | after reading an inbox completion the scheduler looks at its inbox and tests the flag before it can block; reading another one goes on with the next and leaves its wake-up posted |
| Wakeup.StepInv | src/runtime.cpp:30-74 | every transition of every scheduler, dispatcher and stopping thread keeps the invariant |
| Wakeup.NoStrandedInbox | src/scheduler.cpp:150-168 | in every reachable state a blocked scheduler with a nonempty inbox has a wake-up outstanding, owed by nobody who is blocked; after stop, and only then, by nobody or by a scheduler that has left with the message unsubmitted |
| Wakeup.BlockedMeansDrained | src/scheduler.cpp:102-117 | if all schedulers are blocked with nothing to read and no dispatch is under way, every inbox is empty |
| Wakeup.StopReaches | src/runtime.cpp:42-51 | once stop's push to a scheduler has succeeded, that scheduler never blocks without stop's own wake-up outstanding |
| Wakeup.StaysOnTheWayOut | src/scheduler.cpp:102-117 | after stop, a scheduler on the way to its flag test stays on it, and the test ends its loop |
| Wakeup.NeverBlocksAgain | src/scheduler.cpp:102-128 | having consumed a wake-up after stop, a scheduler never blocks again |
| Dispatching.InboxCounts | src/runtime.cpp:30-33 | an inbox changes by exactly the pushes that find room and the target's own pops |
| Dispatching.PushOwes | src/runtime.cpp:33-38 | an accepted push leaves a wake-up due, a refused one changes nothing but the place of stop |
| Dispatching.WaitEnds | src/scheduler.cpp:150-168 | an untimed wait ends by a completion only, a timed one also by itself, either by a signal; every completion ends it |
| Dispatching.SchedulerAdvances | src/scheduler.cpp:102-128 | a scheduler that has not left and is not blocked without a completion always has a step of its own |
| Dispatching.DispatchRuns | src/runtime.cpp:30-40 | an external dispatch to a blocked scheduler with room wakes it, and it is then about to take the task out |
| StopVisits.StopSkipsNobody | src/runtime.cpp:42-47 | over every run, each scheduler stop is past has stop's task or had a full inbox when stop pushed |
| StopVisits.StopSucceeds | src/runtime.cpp:42-51 | when stop has visited all schedulers and no push was refused, none of them can block for good |
| StopVisits.StopAdvances | src/runtime.cpp:42-47 | stop is never stuck before it has visited all schedulers, and each of its steps brings it nearer to the end |
| StopVisits.OthersLeaveStop | src/runtime.cpp:42-51 | nobody else's step sets stop back |
| StopVisits.StopEnds | src/runtime.cpp:42-47 | from every reachable state stop, undisturbed, visits all schedulers |
| StopHangs.SavedNeverStrands | src/scheduler.cpp:102-129 | a scheduler that is saved after stop never blocks for good, whatever anybody does |
| StopHangs.StrandedForGood | src/scheduler.cpp:150-163 | a stranded scheduler stays blocked over every continuation without a new push, completion or signal for it |
| StopHangs.Strand | src/scheduler.cpp:102-129 | from every state that stop leaves unsaved, for any number of schedulers, some continuation strands the scheduler |
| StopHangs.HangsIffNotSaved | src/runtime.cpp:42-51 | a scheduler that stop has visited can block for good if and only if it is not saved |
| StopHangs.SentIsSaved | src/runtime.cpp:42-51 | an accepted push saves its target |
| StopHangs.RefusedPush | src/runtime.cpp:30-40 | a refused push finds its target at the drain, before its flag test, or with a wake-up due, and the target can hang if and only if it is not saved |
| StopRuns.RefusedBeforeRing | src/runtime.cpp:30-51 | for every inbox capacity a run fills the inbox before the ring exists and leaves stop's target able to hang |
| StopRuns.RefusedWhileBlocked | src/io_engine.cpp:138-146 | for every inbox capacity a run leaves a blocked target with a full inbox whose messages another scheduler never submits |
| Withholding.QueuedStep | src/io_engine.cpp:138-146 | a queued message stays queued unless the step submits that queue, and then it is posted |
| Withholding.Withheld | src/scheduler.cpp:110-127 | over every run in which a scheduler never submits, its messages stay on its queue |
| Withholding.BlockedThroughout | src/scheduler.cpp:102-128 | for every k and capacity a run keeps a target blocked on a nonempty inbox while the pushing scheduler takes k batches |
| SpscRing.FullTest | include/novaio/concurrent_queues.hpp:66-70 | the full test holds exactly when the ring has capacity items, across counter wrap-around |
| SpscRing.EmptyTest | include/novaio/concurrent_queues.hpp:77-80 | the empty test holds exactly when the ring has no items |
| SpscRing.PushRefusedIffFull | include/novaio/concurrent_queues.hpp:65-70 | the step after the load of the head refuses the push exactly when the queue is full then, and changes nothing else |
| SpscRing.PopRefusedIffEmpty | include/novaio/concurrent_queues.hpp:76-80 | the step after the load of the tail refuses the pop exactly when the queue is empty then |
| SpscRing.PushCompletes | include/novaio/concurrent_queues.hpp:65-74 | a push from beginning to end appends its item, or leaves a full ring as it was |
| SpscRing.PopCompletes | include/novaio/concurrent_queues.hpp:76-85 | a pop from beginning to end hands out and removes the oldest item, or leaves an empty ring as it was |
| SpscRing.BuildInv | include/novaio/concurrent_queues.hpp:71 | constructing an item never overwrites a live cell |
| SpscRing.TakeInv | include/novaio/concurrent_queues.hpp:81 | the item moved out is the oldest one, from a constructed cell |
| SpscRing.DestroyInv | include/novaio/concurrent_queues.hpp:82 | exactly the cell that was moved from is destroyed |
| SpscRing.StepInv | include/novaio/concurrent_queues.hpp:65-85 | every step of either side keeps the invariant |
| SpscRing.StepRefines | include/novaio/concurrent_queues.hpp:65-85 | the two stores are the append and the removal of a bounded queue, and every other step leaves the queue alone |
| SpscRing.FirstInFirstOut | include/novaio/concurrent_queues.hpp:65-85 | in every interleaving no live cell is overwritten, no raw one read, and the items come out in the order pushed, each once |
| SpscRing.Destruct | include/novaio/concurrent_queues.hpp:56-63 | the destructor's loop ends and destroys exactly the queued items, each once |
| LocalQueues.PushAppends | include/novaio/concurrent_queues.hpp:28-30 | for every number of queued handles, a push appends if and only if nothing queued is lost; below capacity it always does, at capacity the oldest is replaced |
| LocalQueues.PushIs | include/novaio/concurrent_queues.hpp:28-30 | the slot written is that of exactly the queued handles whose place agrees with the length modulo the capacity, across 32-bit wrap-around |
| LocalQueues.PopTakesFirst | include/novaio/concurrent_queues.hpp:32-35 | a pop returns the oldest handle and leaves the rest, across 32-bit wrap-around |
| LocalQueues.LocalQueue.constructor | include/novaio/concurrent_queues.hpp:19-23 | a new queue is empty |
| LocalQueues.LocalQueue.Push | include/novaio/concurrent_queues.hpp:28-30 | in place: the contents become what a push makes of them, full ring and counter wrap included |
| LocalQueues.LocalQueue.Pop | include/novaio/concurrent_queues.hpp:32-35 | in place: the oldest handle, or null from an empty queue |
| Batching.RunConserves | src/scheduler.cpp:131-148 | over every run on a queue without bound each scheduled non-null handle is returned exactly once or still held |
| Batching.BatchShape | src/scheduler.cpp:139-148 | without null handles a batch is runnext followed by the front of the queue, cut short only by the batch size |
| Batching.BatchTakes | src/scheduler.cpp:139-148 | any batch is at most 16 handles: runnext and then the queue up to the first null, which is dropped |
| Batching.ScheduleOrder | src/scheduler.cpp:131-137 | a scheduled handle goes behind all others, except before them all when runnext is free |
| Batching.BoundedWaiting | src/scheduler.cpp:131-148 | a handle with p ahead of it is returned within floor(p / 15) + 1 batches, overtaken by at most one handle per batch, whatever is scheduled meanwhile |
| Batching.PushKeeps | include/novaio/concurrent_queues.hpp:28-30 | a push on the ring keeps all non-null handles if and only if it overwrites only its own handle |
| Batching.DoAtConserves | src/scheduler.cpp:131-148 | an operation on a ring of any capacity, full or not, conserves the non-null handles if and only if its push is lossless |
| Batching.RoomyIsUnbounded | src/scheduler.cpp:131-148 | a run in which no push meets a full ring is the run on the queue without bound, counter wrap included |
| Batching.RingConserves | src/scheduler.cpp:131-148 | over every run in which no push meets a full ring each scheduled non-null handle is returned exactly once or still held |
| Batching.RingBoundedWaiting | src/scheduler.cpp:139-148 | bounded waiting on such a ring |
| Batching.ReadyQueue.constructor | include/novaio/scheduler.hpp:92-96 | a new ready queue holds nothing |
| Batching.ReadyQueue.Schedule | src/scheduler.cpp:131-137 | in place: the free runnext slot first, otherwise a push into the local ring, which is an append below capacity |
| Batching.ReadyQueue.TryDequeueBatch | src/scheduler.cpp:139-148 | in place: the front of the output array and the new state are those of the batch on values |
| IoContexts.MoveInv | include/novaio/io_context.hpp:38 | moving an awaiter hands over the one claim on the context |
| IoContexts.StepInv | include/novaio/io_context.hpp:33-47 | every move, suspension, completion, resumption and destruction keeps the ownership invariant |
| IoContexts.ContextLifetime | src/io_engine.cpp:92-101 | a context is never used after its deletion nor deleted twice, and once unclaimed it is deleted if and only if no awaiter that still held it was destroyed after the completion; the resumption returns the result that the completion of the run carried |
| IoContexts.ContextLeaks | include/novaio/io_context.hpp:33-35 | the leak is reached by destroying an awaiter after its completion without awaiting it |
| IoContexts.ResumesIffSuspendedFirst | include/novaio/io_context.hpp:40-47 | a coroutine suspended on a live awaiter after the completion can be resumed, now or ever, if and only if it suspended before the completion |
| IoContexts.LateSuspensionReached | src/io_engine.cpp:97-99 | a run in which the suspension comes after the completion and nothing ever resumes the coroutine |
| IoContexts.DanglingHandle | src/io_engine.cpp:97-99 | the handle of a destroyed coroutine is left scheduled if and only if the coroutine suspended before the completion and was destroyed after it |
| IoContexts.DanglingReached | src/io_engine.cpp:97-99 | such a run exists |
| IoContexts.CompletionSchedules | src/io_engine.cpp:94-100 | a completion schedules exactly a coroutine suspended on an awaiter still alive |
| IoContexts.OrdinaryCourse | include/novaio/io_context.hpp:40-47 | from every reachable state with a suspended coroutine the completion and the resumption follow, return the result and delete the context |
| IoContexts.CancelledCourse | src/io_engine.cpp:94-96 | after the awaiter was destroyed first the completion deletes the context and schedules nothing |
| Events.LinkInv | include/novaio/event.hpp:30-37 | a waiter links itself only before the drain, and then heads the list it found |
| Events.TakeListInv | include/novaio/event.hpp:50-53 | the winning setter takes the list of all pending waiters, each once, and leaves the list empty |
| Events.ResumeInv | include/novaio/event.hpp:55-59 | each round of the drain resumes the first taken waiter, which is suspended, for the first time, and goes on with the rest |
| Events.StepInv | include/novaio/event.hpp:22-60 | every step of every waiter and setter keeps the invariant |
| Events.AtMostOnce | include/novaio/event.hpp:22-60 | no waiter is resumed twice, nor both resumed and let through, and none before the signal |
| Events.ListStaysEmpty | include/novaio/event.hpp:30-38 | once drained, the list stays empty forever |
| Events.Broadcast | include/novaio/event.hpp:43-60 | once the winning setter has finished, every waiter was resumed exactly once or continues without suspending |
| Events.EveryStepWorks | include/novaio/event.hpp:22-60 | every step that changes anything uses up a finite amount of work, so every interleaving comes to rest |
| Events.Settles | include/novaio/event.hpp:22-60 | at rest every waiter has gone on, resumed exactly once or not suspended, if anybody set the event, and otherwise all wait |
| Events.FirstLook | include/novaio/event.hpp:22-24 | a waiter that comes after the signal goes on at once without the lock |
| WhenAll.OutstandingUpdate | include/novaio/when_all.hpp:19-20 | the number of tasks that have yet to decrement changes only by the task that moves |
| WhenAll.StepInv | include/novaio/when_all.hpp:19-79 | every step, in any order and also during start-up, keeps the counter equal to the tasks that have yet to decrement |
| WhenAll.ScheduledMeansDone | include/novaio/when_all.hpp:66-79 | once the continuation is scheduled all tasks are started and finished |
| WhenAll.ContinuesOnce | include/novaio/when_all.hpp:19-79 | the continuation is scheduled at most once, exactly when all tasks have finished, with all results written, and nobody touches the shared state after it may have run |
| WhenAll.ResultKept | include/novaio/when_all.hpp:41-50 | a written result slot is never changed |
| WhenAll.ResultIsOwn | include/novaio/when_all.hpp:41-50 | over every run a slot holds a value if and only if its own task returned it |
| WhenAll.EveryStepWorks | include/novaio/when_all.hpp:19-79 | every step uses up a finite amount of work |
| WhenAll.Completes | include/novaio/when_all.hpp:19-79 | a run that cannot be continued has scheduled and run the continuation, with all tasks finished and all results written |
| Serializer.BytesRoundTrip | include/novaio/serializer.hpp:11-15 | the object bytes of a number determine it |
| Serializer.BytesKeep | include/novaio/serializer.hpp:11-15 | n bytes keep a number modulo 256^n |
| Serializer.ByteAt | include/novaio/serializer.hpp:11-15 | byte i of a number is its i-th digit to the base 256 |
| Serializer.Layout | include/novaio/serializer.hpp:25-40 | a string is 8 bytes that spell its length and then its characters, a struct its fields in order, with nothing in between |
| Serializer.RoundTrip | include/novaio/serializer.hpp:25-40 | a decoder driven by the shape recovers the value and the untouched remainder, for every nested shape |
| Serializer.RoundTripAll | include/novaio/serializer.hpp:20-23 | the same for the fields of a tied struct |
| Serializer.PrefixFree | include/novaio/serializer.hpp:25-40 | no encoding is a proper prefix of another of the same shape, and equal encodings come from equal values |
| Serializer.Buffer.constructor | include/novaio/serializer.hpp:18 | a buffer starts empty |
| Serializer.Buffer.AppendBytes | include/novaio/serializer.hpp:11-15 | in place: size bytes are added behind what was there, and a value that fits can be read back from them |
| Serializer.Buffer.Serialize | include/novaio/serializer.hpp:25-40 | in place: exactly the encoding is appended and nothing before it changes |

## Left out

- Ring setup and feature fallback, socket calls, submission entries other than `msg_ring`, and direct descriptors: foreign calls into liburing and the kernel.
- Provided-buffer conservation (`return_buffer`): it rests on how liburing indexes the buffer ring, and the call passes `br_->tail` as the offset.
- Removal of a node that has already fired: its links are stale, and no caller in the runtime does it.
- Tasks dropped by a dispatch to a full inbox: the model drops them as the code does; what follows is proved for the task of `stop` only.
- Several producers pushing to one inbox at the same time: the queue is designed for one.
- Weak-memory effects, including the plain read of `initialized_` behind `ring_fd`.
- Coroutine frames, symmetric transfer in `Task`, mimalloc heaps, NUMA and affinity: compiler or library behaviour.
- Metrics, example servers and benchmarks: they would only add easy members.
- Multishot operations, whose contexts are not deleted by `poll`.
- `CoMutex.HandOff`: how the granted coroutine's handle travels to its scheduler (the local queue or a `msg_ring` message) is not modelled; a waiter without a scheduler, which the code would forget, is excluded by the assumptions.
- `Events.ResumeInv`: a resumption counts when it is issued; its way through `schedule` or `dispatch_on` is not modelled there.
- `CoMutex`, `Wakeup`, `StopHangs`, `SpscRing`, `IoContexts`, `Events` and `WhenAll` work on values: update in place of the atomics and aliasing of the C++ objects are not captured, only the order of the operations.
- `Wakeup.StepInv`: inbox and ready-queue contents are abstracted to counts and free choices, so which task runs is not tracked there; a timed wait may end at any moment.
- `Wakeup.StopReaches`: that a scheduler given processor time reaches its next flag test is stated step by step (`StaysOnTheWayOut`, `NeverBlocksAgain`), without a fairness assumption on threads.
- `StopHangs.HangsIffNotSaved`: says what some continuation can do, so a scheduler that is not saved may still get away, for example when another scheduler happens to submit before it leaves.
- `TimeWheels.TimeWheel.AddTimer`: the five slot arrays are one array of 512 heads.
- `Serializer.RoundTrip`: arithmetic values are the numbers their bytes spell, so sign, floating-point meaning and the host's byte order are not interpreted.
- Exceptions thrown by the tasks of a `when_all`: the helper coroutine terminates the process.
