# Virtual time, hand-overs and bookkeeping of the SIL Kit

SIL Kit couples simulation participants over links that keep the order of messages. Participants can
agree on a common virtual time: each broadcasts when it wants to run its next simulation step and
begins the step only when nobody else wants to step earlier. This project models that distributed
time algorithm and proves what it guarantees in every run, and it models the protocols and checkers
that the integration tests put on top of it and proves that their assertions hold for all parameters
and interleavings, or exactly when they do.

How it is built up:

- `Basics`: an optional value and the 32-bit range, shared by the others.
- `TimeModel`, `TimeConfiguration`: one participant's record of time, as a class, and the rules its
  methods are proved against.
- `TimeSync`: any number of participants, each with such a record and a log of everything it has sent;
  starting, beginning, resizing, publishing, completing and delivering interleave freely. The
  invariant of the algorithm is proved here.
- `TimeSafety`, `TimeAlign`, `TimePoints`, `TimeProgress`, `TimeUnion`, `TimeJoin`, `TimePause`: what
  follows for every run. Messages arrive within a window, nothing from the past is outstanding, nothing
  deadlocks and time passes; dynamic steps stop wherever anyone stops, and exactly where, also while
  step sizes change; which coordinated starts can abort; what pausing changes.
- `Messages`, `PublishSubscribe`, `PubSubRuns`, `PubSubProgress`: publishers and a subscriber with
  arbitrary periods on the algorithm, and every assertion of their tests.
- `LinDeferred`: a LIN master and a slave that responds a number of ticks later, on the algorithm.
- `AsyncLockstep`, `CompletionThread`, `SimTask`, `PackedCounter`, `Barrier`: threads with shared
  memory, mutexes and condition variables, one atomic access per step, with spurious wakeups.
- `LinSchedule`: the re-entrant one-shot timer and the schedule that re-arms it.
- `Matching`, `Rpc`, `ReceivedIds`, `NetworkSimulation`: message bookkeeping.
- `DynStepSizes`, `DynStepRuns`: what the step-size tests record, and the checks made on it.

Some properties one would expect are false of the code. For each of them a run or an input that breaks
it is given, and the condition under which the code does meet it:

- A coordinated start can abort although all participants start together: a peer that shrinks its step
  size in its first step announces a time beyond its duration and is taken for a running simulation.
  It takes three participants, since a participant begins as soon as it has heard from its only peer,
  or two of which one pauses. The documentation names no such case; the model follows the code.
- A participant that pauses and continues inside an asynchronous step announces its next step before it
  has completed this one, and virtual time is no longer common.
- The stop condition of the publish/subscribe tests is met too early when messages times publishers
  exceeds 2^32, and never when there is nothing to receive.
- The completer of the step-handler test can miss the last notification, since `running` is cleared
  without the mutex.
- The check of the completion threads fails when the simulation stops inside a step. Their time stamps
  would get out of order if the participant were signalled twice in one step.
- The barrier waits for equality, so a waiter can throw at a full barrier once more threads enter than
  were expected.
- A schedule with one task never repeats it if cycling is switched on after construction.
- A participant with several publishers stops publishing when the first of them is done.
- With zero configured calls one call is made all the same, so the final counters differ.
- More than 256 participants never hear of all others, because two of them share an id.

Assumptions about what is not modelled: links are reliable and keep the order; a request for the next step
and the look for it that the code posts right behind it are not separated by an arriving announcement (only
`TimeJoin.PairNeverAborts` and what uses it rest on this); condition variables may
wake up spuriously; accesses to atomics are sequentially consistent; the handler of an asynchronous
step is not invoked again before the step is completed (the guard for this is part of `TimeSync`, and assumed in
`AsyncLockstep` and `CompletionThread`); the handler for "all other steps are completed" is invoked at
most once per step. For arriving announcements the last is `TimeSafety.InvokedOncePerStep`; that the
participant's own deferred processing does not invoke it again is assumed in
`CompletionThread.StepsNeverOverlap`, and `CompletionThread.OverlapsExactly` shows that it is needed.

## Model

| member | source | states |
|---|---|---|
| `TimeConfiguration.TimeConfiguration.constructor` | sil-kit/SilKit/source/services/orchestration/TimeConfiguration.cpp:13-21 | no step has run, the first is wanted at time zero with one millisecond, nobody else is known |
| `TimeConfiguration.TimeConfiguration.Initialize` | sil-kit/SilKit/source/services/orchestration/TimeConfiguration.cpp:212-219 | back to the start, keeping the step size and what is known of the others |
| `TimeConfiguration.TimeConfiguration.SetDynamicStepSizeEnabled` | sil-kit/SilKit/source/services/orchestration/TimeConfiguration.cpp:23-27 | switches dynamic stepping and nothing else |
| `TimeConfiguration.TimeConfiguration.AddSynchronizedParticipant` | sil-kit/SilKit/source/services/orchestration/TimeConfiguration.cpp:40-52 | a new participant is recorded as not having announced anything; a known one is left alone |
| `TimeConfiguration.TimeConfiguration.RemoveSynchronizedParticipant` | sil-kit/SilKit/source/services/orchestration/TimeConfiguration.cpp:55-65 | forgets the participant and says whether it was known |
| `TimeConfiguration.TimeConfiguration.OnReceiveNextSimStep` | sil-kit/SilKit/source/services/orchestration/TimeConfiguration.cpp:77-105 | an announcement of a known participant is recorded, also when it goes back in time, which is reported; one of an unknown participant changes nothing |
| `TimeConfiguration.TimeConfiguration.SetStepDuration` | sil-kit/SilKit/source/services/orchestration/TimeConfiguration.cpp:108-118 | zero is refused and changes nothing; anything else is the size of the next step only |
| `TimeConfiguration.TimeConfiguration.OtherParticipantHasLowerTimepoint` | sil-kit/SilKit/source/services/orchestration/TimeConfiguration.cpp:194-210 | true exactly when some other participant wants to step before us |
| `TimeConfiguration.TimeConfiguration.GetMinimalAlignedDuration` | sil-kit/SilKit/source/services/orchestration/TimeConfiguration.cpp:120-159 | the distance to the earliest point after now at which a step of another participant begins or ends, and it is attained; never negative, so the chronology error is unreachable |
| `TimeConfiguration.TimeConfiguration.AdvanceTimeStep` | sil-kit/SilKit/source/services/orchestration/TimeConfiguration.cpp:161-180 | the step wanted becomes current, with the length the rule for dynamic stepping fixes, and the next one starts where it ends |
| `TimeConfiguration.TimeConfiguration.IsHopOn` | sil-kit/SilKit/source/services/orchestration/TimeConfiguration.cpp:231-260 | before the first step: true exactly when some peer has announced a time beyond its own duration, and then the start is the earliest such time |
| `TimeModel.StepLengthUnique` | sil-kit/SilKit/source/services/orchestration/TimeConfiguration.cpp:161-180 | what is known determines the length of a step |
| `TimeModel.StepLengthExists` | sil-kit/SilKit/source/services/orchestration/TimeConfiguration.cpp:161-180 | a positive step size always leads to a positive step |
| `TimeSync.RequestedOk` | sil-kit/SilKit/source/services/orchestration/TimeSyncService.cpp:95-111 | announcing the next step keeps the order of announcements, also when it is requested again |
| `TimeSync.BegunOk` | sil-kit/SilKit/source/services/orchestration/TimeSyncService.cpp:251-281 | beginning a step keeps the record of announcements and data consistent |
| `TimeSync.DeliverKeepsInv` | sil-kit/SilKit/source/services/orchestration/TimeSyncService.cpp:113-118 | a packet that arrives leaves the receiver knowing exactly the last announcement that has reached it |
| `TimeSync.StepKeepsInv` | sil-kit/SilKit/source/services/orchestration/TimeSyncService.cpp:84-281 | every action of every participant keeps the invariant of the distributed algorithm |
| `TimeSync.RunInv` | sil-kit/SilKit/source/services/orchestration/TimeSyncService.cpp:84-281 | the invariant holds in every state of every run, for any number of participants, step sizes, resizing and interleaving |
| `TimeSafety.KnownAnnounced` | sil-kit/docs/simulation/simulation.rst:430-447 | a participant never steps beyond what it knows of another, which never lies beyond what that one wants next |
| `TimeSafety.MessageWindow` | sil-kit/docs/simulation/simulation.rst:348-351 | a message that arrives between the steps at T and T + duration carries a time stamp within [T, T + duration] |
| `TimeSafety.PastIsDelivered` | sil-kit/docs/simulation/simulation.rst:347-347 | when the step at T may begin or runs, nothing sent before T is still under way |
| `TimeSafety.CommonTime` | sil-kit/docs/simulation/simulation.rst:341-341 | participants inside their steps at the same moment are at the same virtual time |
| `TimeSafety.OthersCompletedMeansIdle` | sil-kit/SilKit/source/services/orchestration/TimeSyncService.cpp:230-243 | when the handler for "all other steps are completed" is invoked, no other participant is inside a step or can enter one before we complete ours |
| `TimeSafety.OthersCompletedOutsideSteps` | sil-kit/SilKit/IntegrationTests/ITest_AsyncSimTask.cpp:257-266 | in every run those moments lie outside every step of the others |
| `TimeSafety.NoFurtherAnnouncement` | sil-kit/SilKit/source/services/orchestration/TimeSyncService.cpp:230-243 | at that moment nothing but data is under way to us |
| `TimeSafety.InvokedOncePerStep` | sil-kit/SilKit/source/services/orchestration/TimeSyncService.cpp:230-243 | arriving announcements invoke that handler at most once between two completions of our step |
| `TimeSafety.RepeatedCompletion` | sil-kit/SilKit/IntegrationTests/ITest_AsyncSimTask.cpp:225-227 | completing a step again changes nothing |
| `TimeSafety.NoDeadlock` | sil-kit/docs/simulation/simulation.rst:430-447 | in every reachable state that has not been aborted some participant can make progress |
| `TimeProgress.EnabledByUpdate` | sil-kit/SilKit/source/services/orchestration/TimeSyncService.cpp:95-133 | a step becomes possible only by the two events after which the participant looks for it: its own request and an announcement that arrives |
| `TimeProgress.MayUntilBegun` | sil-kit/SilKit/source/services/orchestration/TimeSyncService.cpp:95-133 | and it stays possible until it begins |
| `TimeProgress.ProgressIsLess` | sil-kit/docs/simulation/simulation.rst:430-447 | every start, completion, arrival and begin before T leaves less to do before T, so only finitely many of them fit in |
| `TimeProgress.TimePasses` | sil-kit/docs/simulation/simulation.rst:430-447 | after any run the participants can go on promptly until all of them want a step at T or later, for every T, unless one aborts |
| `TimeAlign.NeverJumps` | sil-kit/docs/configuration/experimental-configuration.rst:40-44 | a dynamic step about to begin passes no point at which another participant begins, or ends, its own step |
| `TimeAlign.HasReason` | sil-kit/docs/configuration/experimental-configuration.rst:40-44 | it ends where some participant has a step to begin or its own step size ends, and not earlier |
| `TimeAlign.RunAligns` | sil-kit/SilKit/source/services/orchestration/TimeConfiguration.cpp:161-180 | both hold for every dynamic participant in every state of every run |
| `TimePoints.DynamicMissesNothing` | sil-kit/docs/configuration/experimental-configuration.rst:40-44 | every time point of anyone is one of a dynamic participant, in every run, with steps resized at will |
| `TimePoints.OwnSteps` | sil-kit/docs/configuration/experimental-configuration.rst:58-60 | the k-th step of a participant that opts out is at k times its step size |
| `TimePoints.FollowersStepOnGrid` | sil-kit/SilKit/IntegrationTests/ITest_DynStepSizes.cpp:278-296 | a driver whose step size divides the others makes every dynamic participant step at exactly its multiples |
| `TimeUnion.DynamicStepTogether` | sil-kit/SilKit/IntegrationTests/ITest_DynStepSizes.cpp:338-356 | any two dynamic participants have the same time points up to where both have come, with steps resized at will |
| `TimeUnion.DynamicSameLength` | sil-kit/SilKit/IntegrationTests/ITest_DynStepSizes.cpp:338-356 | and their steps at the same point have the same length |
| `TimeUnion.CommonStepIsLeast` | sil-kit/SilKit/IntegrationTests/ITest_DynStepSizes.cpp:338-356 | if all are dynamic, each common step lasts for the least of the step sizes announced for it, with steps resized at will |
| `TimeUnion.DynamicFollowsOwn` | sil-kit/SilKit/IntegrationTests/ITest_DynStepSizes.cpp:317-336 | with step sizes changing during the run, a dynamic participant that stays coarser than somebody who opts out steps exactly where somebody with an own step size does |
| `TimeUnion.DynamicContainsUnion` | sil-kit/SilKit/IntegrationTests/ITest_DynStepSizes.cpp:246-276 | with constant sizes the time points of a dynamic participant contain all multiples of all own step sizes |
| `TimeUnion.DynamicIsUnion` | sil-kit/SilKit/IntegrationTests/ITest_DynStepSizes.cpp:246-276 | they are exactly that union when no dynamic step size is finer than all own ones |
| `TimeJoin.HopOnExactly` | sil-kit/SilKit/source/services/orchestration/TimeConfiguration.cpp:231-260 | with everyone starting at zero, a participant about to begin takes the simulation for already running exactly when a peer has shrunk its step size in its first step and that announcement has arrived |
| `TimeJoin.GentleStartNeverAborts` | sil-kit/SilKit/source/services/orchestration/TimeSyncService.cpp:256-265 | a coordinated start never aborts if no handler shrinks the step size in its first step |
| `TimeJoin.AbortNeedsShrinking` | sil-kit/SilKit/source/services/orchestration/TimeSyncService.cpp:256-265 | behind every abort there is a handler that took a smaller step size than its first step was long |
| `TimeJoin.GentleTimePasses` | sil-kit/docs/simulation/simulation.rst:430-447 | with such a start every point in time can be reached |
| `TimeJoin.PairNeverAborts` | sil-kit/SilKit/source/services/orchestration/TimeSyncService.cpp:113-133 | two participants that look for their next step whenever the code does never abort, whatever their handlers do |
| `TimeJoin.ShrinkingCanAbort` | sil-kit/SilKit/source/services/orchestration/TimeSyncService.cpp:256-265 | with three or more participants, for every one of them and every step size that shrinks its first step there is such a run in which any other participant aborts |
| `TimeJoin.AbortsExactly` | sil-kit/SilKit/source/services/orchestration/TimeSyncService.cpp:256-265 | a setup has a prompt run that aborts exactly when it has three participants and one of them can shrink its first step |
| `TimePause.PausingIsInvisible` | sil-kit/SilKit/source/services/orchestration/TimeSyncService.cpp:95-110 | what runs with pauses lead to, runs without pauses lead to as well, if nobody continues inside a step |
| `TimePause.CarefulIsSafe` | sil-kit/SilKit/source/services/orchestration/LifecycleService.cpp:208-238 | so the invariants and the common time hold with pauses |
| `TimePause.AbortsExactlyPaused` | sil-kit/SilKit/source/services/orchestration/TimeSyncService.cpp:256-265 | with pauses a setup has a run that aborts exactly when it has two participants and one of them can shrink its first step |
| `TimePause.ContinueInsideFails` | sil-kit/SilKit/source/services/orchestration/LifecycleService.cpp:223-238 | a participant that continues inside a step announces the next one early, and another one begins a later step meanwhile |
| `TimePause.SameTimeExactly` | sil-kit/SilKit/source/services/orchestration/LifecycleService.cpp:223-238 | time is common in all runs exactly when nobody continues inside a step |
| `Messages.NextInOrder` | sil-kit/docs/simulation/simulation.rst:339-339 | the data packet that arrives next on a link is the next one sent |
| `PublishSubscribe.Publisher.SimulationStep` | sil-kit/SilKit/IntegrationTests/ITest_DifferentPeriods.cpp:72-79 | publishes the time and the running index until the number of messages is reached; a time off the period fails |
| `PublishSubscribe.Subscriber.SimulationStep` | sil-kit/SilKit/IntegrationTests/ITest_DifferentPeriods.cpp:159-162 | notes the time and checks it against the period |
| `PublishSubscribe.Subscriber.SumOfIndexes` | sil-kit/SilKit/IntegrationTests/ITest_DifferentPeriods.cpp:219-219 | the sum of all counts in unsigned 32-bit arithmetic |
| `PublishSubscribe.Subscriber.ReceiveMessage` | sil-kit/SilKit/IntegrationTests/ITest_DifferentPeriods.cpp:183-224 | judges a message by window and period; only an accepted one is counted, and the stop condition is checked after counting |
| `PublishSubscribe.StopsWhenComplete` | sil-kit/SilKit/IntegrationTests/ITest_DeterministicSimVAsio.cpp:195-199 | while the total fits 32 bits the sum reaches it exactly when every message has been received |
| `PublishSubscribe.StopConditionExactly` | sil-kit/SilKit/IntegrationTests/ITest_DeterministicSimVAsio.cpp:195-199 | it means completeness exactly when the total fits 32 bits |
| `PubSubRuns.NoAssertionFails` | sil-kit/SilKit/IntegrationTests/ITest_DifferentPeriods.cpp:205-217 | in every run, for all periods, counts and interleavings, no assertion of the test fails |
| `PubSubRuns.EveryMessageInWindow` | sil-kit/SilKit/IntegrationTests/ITest_DifferentPeriods.cpp:208-215 | every message arrives in order with now <= sent <= now + period, and message c of a publisher is sent at c times its period |
| `PubSubRuns.EqualPeriodsSameTick` | sil-kit/SilKit/IntegrationTests/ITest_DeterministicSimVAsio.cpp:181-191 | with equal periods it was sent in this tick or the next |
| `PubSubRuns.StopsByTotal` | sil-kit/SilKit/IntegrationTests/ITest_DeterministicSimVAsio.cpp:193-199 | whatever the numbers, Stop has been called once for each number of received messages so far that equals the goal modulo 2^32 |
| `PubSubRuns.StopsOnceWhenComplete` | sil-kit/SilKit/IntegrationTests/ITest_DeterministicSimVAsio.cpp:193-199 | with a goal from 1 to 2^32 Stop is called at most once, and exactly when everything sent by everyone has been received |
| `PubSubRuns.StopsWrongly` | sil-kit/SilKit/IntegrationTests/ITest_DeterministicSimVAsio.cpp:193-199 | with a goal of zero it is never called, and with one beyond 2^32 in every state with as many messages as the first hit it has been called although not everything has been received |
| `PubSubProgress.ReceivesAnyTotal` | sil-kit/SilKit/IntegrationTests/ITest_DeterministicSimVAsio.cpp:145-199 | every run can go on promptly until any number of messages up to the goal has been received |
| `PubSubProgress.StopsExactly` | sil-kit/SilKit/IntegrationTests/ITest_DeterministicSimVAsio.cpp:193-199 | some run stops before everything is received exactly when the goal exceeds 2^32, and some run stops at all exactly when there is a goal |
| `LinDeferred.EveryActionMoves` | sil-kit/SilKit/IntegrationTests/ITest_LinDynamicResponse.cpp:688-744 | whatever the network does is one of seven moves of the exchange between master and slave |
| `LinDeferred.NoSpuriousResponse` | sil-kit/SilKit/IntegrationTests/ITest_LinDynamicResponse.cpp:723-737 | the note that is reset to zero never makes the slave respond |
| `LinDeferred.MovesKeepInv` | sil-kit/SilKit/IntegrationTests/ITest_LinDynamicResponse.cpp:688-744 | headers and responses alternate, on time, whichever move comes next |
| `LinDeferred.ResponsesFollowHeaders` | sil-kit/SilKit/IntegrationTests/ITest_LinDynamicResponse.cpp:688-744 | in every run, for any tick and any positive number of ticks as delay, response k is sent that much after header k, at most one header is open, and the next header follows in the tick of the response or the one after |
| `LinDeferred.MasterWaitsForOneResponse` | sil-kit/SilKit/IntegrationTests/ITest_LinDynamicResponse.cpp:688-704 | the master waits exactly while one header more was sent than responses have arrived, and no header stays unanswered past its time |
| `AsyncLockstep.StepKeepsInv` | sil-kit/SilKit/IntegrationTests/ITest_AsyncSimTask.cpp:55-110 | each atomic step of handler and completer keeps the lockstep invariant |
| `AsyncLockstep.OneStepActive` | sil-kit/SilKit/IntegrationTests/ITest_AsyncSimTask.cpp:91-103 | when the completer looks exactly one step is active, the number stays in {0, 1}, and the counter is hand-overs plus turns given back |
| `AsyncLockstep.HandlerNeverWaits` | sil-kit/SilKit/IntegrationTests/ITest_AsyncSimTask.cpp:63-73 | the handler always finds the counter even and the test running, so the two never wait both |
| `AsyncLockstep.NoLostWakeup` | sil-kit/SilKit/IntegrationTests/ITest_AsyncSimTask.cpp:55-110 | until the test has ended as intended some thread can move without a spurious wakeup |
| `AsyncLockstep.RunsAreBounded` | sil-kit/SilKit/IntegrationTests/ITest_AsyncSimTask.cpp:55-110 | apart from spurious wakeups every run is finite, with an explicit bound: the test always ends |
| `CompletionThread.ParticipantData.AssertValid` | sil-kit/SilKit/IntegrationTests/ITest_AsyncSimTask.cpp:242-255 | accepts exactly when stopped, nothing is pending and neighbouring time stamps are in order |
| `CompletionThread.ParticipantData.AssertTimestampsAlwaysOutsideStep` | sil-kit/SilKit/IntegrationTests/ITest_AsyncSimTask.cpp:257-266 | accepts exactly when no time stamp lies strictly inside a step |
| `CompletionThread.OrderedThroughout` | sil-kit/SilKit/IntegrationTests/ITest_AsyncSimTask.cpp:247-254 | order of neighbours means order of all steps |
| `CompletionThread.StepsNeverOverlap` | sil-kit/SilKit/IntegrationTests/ITest_AsyncSimTask.cpp:269-301 | started[i] < completed[i] < started[j] for all i < j, with spurious and timed-out wakeups, and completions lag by at most one, for a participant signalled at most once in a step |
| `CompletionThread.OverlapsExactly` | sil-kit/SilKit/IntegrationTests/ITest_AsyncSimTask.cpp:269-301 | time stamps can get out of order exactly when it may be signalled again in the same step |
| `CompletionThread.NoTimeoutNeeded` | sil-kit/SilKit/IntegrationTests/ITest_AsyncSimTask.cpp:284-301 | a signalled step is completed without help of the timeout |
| `CompletionThread.PassesWhenCompleted` | sil-kit/SilKit/IntegrationTests/ITest_AsyncSimTask.cpp:242-255 | at the end the check passes exactly when the last step was completed or never became due |
| `CompletionThread.StopDuringStepFails` | sil-kit/SilKit/IntegrationTests/ITest_AsyncSimTask.cpp:284-301 | a run that stops inside a step and fails the check |
| `SimTask.PublishedInOrder` | sil-kit/SilKit/IntegrationTests/ITest_SimTask.cpp:159-218 | in every interleaving the values are (1,1), (1,2), (1,3), (2,1), ... with the major number modulo 2^32, and all are out when `running` is cleared |
| `SimTask.OneOwner` | sil-kit/SilKit/IntegrationTests/ITest_SimTask.cpp:174-213 | the threads never use the counter together, so no value mixes two updates |
| `SimTask.NoDeadlock` | sil-kit/SilKit/IntegrationTests/ITest_SimTask.cpp:179-217 | inside a step one of the threads can always move |
| `SimTask.CompleterEndsExactly` | sil-kit/SilKit/IntegrationTests/ITest_SimTask.cpp:166-210 | after the final notification, without spurious wakeups, the completer ends exactly if it was not about to sleep at that moment, and then within four steps of its own |
| `SimTask.NotificationCanBeMissed` | sil-kit/SilKit/IntegrationTests/ITest_SimTask.cpp:166-172 | for every limit a run in which the notification is missed after all steps |
| `SimTask.CheckReceived` | sil-kit/SilKit/IntegrationTests/ITest_SimTask.cpp:264-275 | accepts exactly when value j is (j / 3 + 1, j mod 3 + 1) |
| `SimTask.AcceptedUntilWrap` | sil-kit/SilKit/IntegrationTests/ITest_SimTask.cpp:264-275 | what is published passes exactly while the major number has not wrapped |
| `PackedCounter.Counter.IncrementMajor` | sil-kit/SilKit/IntegrationTests/ITest_SimTask.cpp:29-33 | raises the major number modulo 2^32 and resets the minor one |
| `PackedCounter.Counter.PublishValue` | sil-kit/SilKit/IntegrationTests/ITest_SimTask.cpp:55-66 | the eight bytes of the value, the least significant first |
| `PackedCounter.Counter.ExtractValue` | sil-kit/SilKit/IntegrationTests/ITest_SimTask.cpp:68-78 | the value with these eight bytes |
| `PackedCounter.ExtractInvertsPublish` | sil-kit/SilKit/IntegrationTests/ITest_SimTask.cpp:55-78 | extracting what was published gives the value back |
| `PackedCounter.PackingIsInvertible` | sil-kit/SilKit/IntegrationTests/ITest_SimTask.cpp:40-88 | packing and taking apart are inverse both ways |
| `PackedCounter.PackingOrders` | sil-kit/SilKit/IntegrationTests/ITest_SimTask.cpp:40-43 | packed values compare by major number, then by minor number |
| `Barrier.NobodyPassesEarly` | sil-kit/SilKit/IntegrationTests/IntegrationTestUtils.hpp:59-80 | nobody returns before the expected number has entered, and the count is the number that have |
| `Barrier.FullBarrierEmpties` | sil-kit/SilKit/IntegrationTests/IntegrationTestUtils.hpp:59-80 | with the expected number of threads nobody throws once it is full, every action brings it closer to empty, and until then somebody can move |
| `Barrier.ThrowsLateExactly` | sil-kit/SilKit/IntegrationTests/IntegrationTestUtils.hpp:63-78 | a throw at a full barrier is possible exactly with more entrants than expected, if anybody waits at all |
| `LinSchedule.Timer.Set` | sil-kit/SilKit/IntegrationTests/ITest_Lin.cpp:31-36 | arms the timer, replacing what was armed |
| `LinSchedule.Timer.ExecuteAction` | sil-kit/SilKit/IntegrationTests/ITest_Lin.cpp:43-51 | returns the action that runs, if any, with the timer already cleared |
| `LinSchedule.FiresExactly` | sil-kit/SilKit/IntegrationTests/ITest_Lin.cpp:31-51 | over any trace a tick runs an action exactly when it was set, not replaced, is due and was not due before |
| `LinSchedule.FiresOnce` | sil-kit/SilKit/IntegrationTests/ITest_Lin.cpp:31-51 | an action that is not replaced runs once, at the first tick at or after its time |
| `LinSchedule.Schedule.constructor` | sil-kit/SilKit/IntegrationTests/ITest_Lin.cpp:63-71 | takes the tasks and arms the first |
| `LinSchedule.Schedule.Reset` | sil-kit/SilKit/IntegrationTests/ITest_Lin.cpp:73-77 | starts over |
| `LinSchedule.Schedule.SetCyclic` | sil-kit/SilKit/IntegrationTests/ITest_Lin.cpp:79-82 | switches cycling and nothing else |
| `LinSchedule.Schedule.ScheduleNextTask` | sil-kit/SilKit/IntegrationTests/ITest_Lin.cpp:84-96 | arms the next task relative to the last tick, or nothing at the end |
| `LinSchedule.Schedule.ExecuteTask` | sil-kit/SilKit/IntegrationTests/ITest_Lin.cpp:98-102 | notes the time and runs what is due |
| `LinSchedule.ResetCycles` | sil-kit/SilKit/IntegrationTests/ITest_Lin.cpp:73-96 | reset with cycling on, the k-th task armed is k modulo n |
| `LinSchedule.CreatedCyclesExactly` | sil-kit/SilKit/IntegrationTests/ITest_Lin.cpp:63-96 | with cycling switched on after construction this holds exactly for two tasks or more |
| `LinSchedule.NonCyclicArmsOnce` | sil-kit/SilKit/IntegrationTests/ITest_Lin.cpp:84-96 | without cycling tasks 0 to n - 1 are armed once and then nothing |
| `LinSchedule.RefinesDemo` | sil-kit/SilKit/IntegrationTests/ITest_LinDemo.cpp:84-93 | under any operations it behaves like the schedule that always cycles |
| `LinSchedule.NothingIsLost` | sil-kit/SilKit/IntegrationTests/ITest_Lin.cpp:251-256 | scheduling after each run, every armed task runs |
| `LinSchedule.TasksRunInOrder` | sil-kit/SilKit/IntegrationTests/ITest_Lin.cpp:251-256 | so a cyclic schedule runs its tasks in order, over and over |
| `Matching.FindAndErase` | sil-kit/SilKit/IntegrationTests/ITest_Internals_Rpc.hpp:128-137 | finds exactly what is there and removes one occurrence |
| `Matching.MatchesAsMultisets` | sil-kit/SilKit/IntegrationTests/ITest_Internals_DataPubSub.hpp:133-144 | what remains and what was not found are the two multiset differences |
| `Matching.AllAcceptedExactly` | sil-kit/SilKit/IntegrationTests/ITest_Internals_DataPubSub.hpp:133-144 | all messages are found exactly when they are a sub-multiset of the list |
| `Matching.OrderIrrelevant` | sil-kit/SilKit/IntegrationTests/ITest_Internals_DataPubSub.hpp:133-144 | the order of arrival does not matter |
| `Matching.CounterEnds` | sil-kit/SilKit/IntegrationTests/ITest_Internals_DataPubSub.hpp:125-151 | the counter ends at the number of messages or at max(1, limit) |
| `Matching.UnorderedAcceptsExactly` | sil-kit/SilKit/IntegrationTests/ITest_Internals_DataPubSub.hpp:123-152 | no check fails exactly when the messages before the limit are a sub-multiset of the list |
| `Matching.IncreasingAcceptsExactly` | sil-kit/SilKit/IntegrationTests/ITest_Internals_DataPubSub.hpp:127-132 | no check fails exactly when message k before the limit is k modulo 256 |
| `Matching.DataPublisherInfo.Publish` | sil-kit/SilKit/IntegrationTests/ITest_Internals_DataPubSub.hpp:59-71 | puts the counter's byte on the link until all is sent |
| `Matching.DataSubscriberInfo.OnDataReception` | sil-kit/SilKit/IntegrationTests/ITest_Internals_DataPubSub.hpp:123-152 | one message is compared and counted, or ignored after the limit |
| `Matching.PublishSteps` | sil-kit/SilKit/IntegrationTests/ITest_Internals_DataPubSub.hpp:359-366 | after n calls the link carries exactly the first n messages, or all there are |
| `Matching.PublishTask` | sil-kit/SilKit/IntegrationTests/ITest_Internals_DataPubSub.hpp:346-351 | every publisher publishes once, on its own link |
| `Matching.PublishUntilOneIsDone` | sil-kit/SilKit/IntegrationTests/ITest_Internals_DataPubSub.hpp:374-382 | the loop ends when the first publisher is done; each has then put exactly the first messages on its link, as many as the smallest number |
| `Matching.SecondIsCutOff` | sil-kit/SilKit/IntegrationTests/ITest_Internals_DataPubSub.hpp:374-382 | with one and two messages to send the second publisher never sends its last |
| `Matching.AllSentExactly` | sil-kit/SilKit/IntegrationTests/ITest_Internals_DataPubSub.hpp:374-382 | so everything is sent exactly when all numbers are the same |
| `Matching.PublishedIsAccepted` | sil-kit/SilKit/IntegrationTests/ITest_Internals_DataPubSub.hpp:59-71 | whatever part of a publisher's link has arrived passes the increasing check, also after the byte wraps |
| `Rpc.RpcClientState.Call` | sil-kit/SilKit/IntegrationTests/ITest_Internals_Rpc.hpp:97-118 | sends the counter's byte until the number of calls is reached, at least once |
| `Rpc.RpcClientState.OnCallReturned` | sil-kit/SilKit/IntegrationTests/ITest_Internals_Rpc.hpp:120-145 | compares and counts a result |
| `Rpc.RpcClientState.OnCallTimeout` | sil-kit/SilKit/IntegrationTests/ITest_Internals_Rpc.hpp:147-155 | counts a timeout |
| `Rpc.Reply` | sil-kit/SilKit/IntegrationTests/ITest_Internals_Rpc.hpp:433-438 | raises every byte by 100 modulo 256 |
| `Rpc.RunInv` | sil-kit/SilKit/IntegrationTests/ITest_Internals_Rpc.hpp:402-447 | the invariant of client, server and both links in every run |
| `Rpc.NothingLost` | sil-kit/SilKit/IntegrationTests/ITest_Internals_Rpc.hpp:402-447 | calls are queued or served, replies queued or returned, and no data check ever fails |
| `Rpc.FinalCounters` | sil-kit/SilKit/IntegrationTests/ITest_Internals_Rpc.hpp:503-512 | the counters at the end for every configuration |
| `Rpc.AsConfiguredExactly` | sil-kit/SilKit/IntegrationTests/ITest_Internals_Rpc.hpp:503-512 | they are the configured ones exactly under a condition on the configuration |
| `Rpc.CanBecomeQuiet` | sil-kit/SilKit/IntegrationTests/ITest_Internals_Rpc.hpp:478-501 | every run of every configuration can be continued to its end |
| `Rpc.ZeroCallsFail` | sil-kit/SilKit/IntegrationTests/ITest_Internals_Rpc.hpp:503-512 | with zero configured calls there is a run that ends with one call made |
| `ReceivedIds.TestParticipant.OnMessage` | sil-kit/SilKit/IntegrationTests/ITest_MultiThreadedParticipants.hpp:454-469 | collects ids of others until there are enough |
| `ReceivedIds.TestParticipant.ResetReception` | sil-kit/SilKit/IntegrationTests/ITest_MultiThreadedParticipants.hpp:152-157 | forgets what was heard |
| `ReceivedIds.OtherIdsCount` | sil-kit/SilKit/IntegrationTests/ITest_MultiThreadedParticipants.hpp:77-77 | bytes tell at most 256 participants apart |
| `ReceivedIds.FiresWhenAllHeard` | sil-kit/SilKit/IntegrationTests/ITest_MultiThreadedParticipants.hpp:454-469 | when it fires exactly the ids of all others have been received, and it fires once per reset |
| `ReceivedIds.FiresExactly` | sil-kit/SilKit/IntegrationTests/ITest_MultiThreadedParticipants.hpp:454-469 | it fires exactly when everybody else was heard, for 2 to 256 participants |
| `ReceivedIds.CanFireExactly` | sil-kit/SilKit/IntegrationTests/ITest_MultiThreadedParticipants.hpp:71-80 | and it can fire only for those numbers |
| `NetworkSimulation.SimulatedLinNetwork.ProvideSimulatedController` | sil-kit/SilKit/IntegrationTests/ITest_NetSimLin.cpp:184-202 | registers a controller |
| `NetworkSimulation.SimulatedLinNetwork.OnFrameRequest` | sil-kit/SilKit/IntegrationTests/ITest_NetSimLin.cpp:206-220 | a frame status for all registered controllers, except for the go-to-sleep frame |
| `NetworkSimulation.SimulatedLinNetwork.OnFrameResponseUpdate` | sil-kit/SilKit/IntegrationTests/ITest_NetSimLin.cpp:248-267 | a frame status for all, in dynamic mode only |
| `NetworkSimulation.SimulatedLinNetwork.OnControllerStatusUpdate` | sil-kit/SilKit/IntegrationTests/ITest_NetSimLin.cpp:269-284 | the go-to-sleep frame for all when sleep is pending |
| `NetworkSimulation.EachControllerHears` | sil-kit/SilKit/IntegrationTests/ITest_NetSimLin.cpp:184-284 | a controller gets as many frame status events as there are triggers after its registration |
| `NetworkSimulation.DeliveriesByTrigger` | sil-kit/SilKit/IntegrationTests/ITest_NetSimLin.cpp:184-284 | summed the other way, every trigger counts the controllers registered by then |
| `NetworkSimulation.RegisteredFirst` | sil-kit/SilKit/IntegrationTests/ITest_NetSimLin.cpp:413-415 | with all registered first the deliveries are triggers times controllers |
| `NetworkSimulation.SleepFramesExactly` | sil-kit/SilKit/IntegrationTests/ITest_NetSimLin.cpp:206-284 | go-to-sleep frames are produced for pending updates only |
| `NetworkSimulation.GoToSleepOnce` | sil-kit/SilKit/IntegrationTests/ITest_NetSimLin.cpp:206-284 | one call of GoToSleep is broadcast exactly once |
| `NetworkSimulation.SimulatedCanNetwork.OnSetControllerMode` | sil-kit/SilKit/IntegrationTests/ITest_NetSimCan.cpp:109-123 | two state events for the controller itself |
| `NetworkSimulation.SimulatedCanNetwork.OnFrameRequest` | sil-kit/SilKit/IntegrationTests/ITest_NetSimCan.cpp:130-154 | an acknowledgement for the requester, then the frame for all registered controllers |
| `NetworkSimulation.EachCanControllerSees` | sil-kit/SilKit/IntegrationTests/ITest_NetSimCan.cpp:109-154 | over any trace a controller sees its own acknowledgements and state events and everybody's frames since it registered, in order |
| `DynStepSizes.RunSingle` | sil-kit/SilKit/IntegrationTests/ITest_DynStepSizes.cpp:99-131 | the handler of a single participant, run on the time configuration, records the steps of the specification |
| `DynStepSizes.StepsTile` | sil-kit/SilKit/IntegrationTests/ITest_DynStepSizes.cpp:99-131 | the steps tile time up to the limit and a change takes effect in the step after it |
| `DynStepSizes.CoveredOnce` | sil-kit/docs/simulation/simulation.rst:343-343 | every point of time lies in exactly one step |
| `DynStepSizes.AssertAscendingStepsWithReferenceDuration` | sil-kit/SilKit/IntegrationTests/ITest_DynStepSizes.cpp:157-182 | accepts exactly when every list is non-empty and ascends by the reference |
| `DynStepSizes.AssertAllStepsEqual` | sil-kit/SilKit/IntegrationTests/ITest_DynStepSizes.cpp:137-155 | accepts exactly when all lists are the same |
| `DynStepSizes.AscendingIsProgression` | sil-kit/SilKit/IntegrationTests/ITest_DynStepSizes.cpp:157-182 | which means an arithmetic progression |
| `DynStepSizes.AscendingExactly` | sil-kit/SilKit/IntegrationTests/ITest_DynStepSizes.cpp:204-218 | a run passes exactly when it has a step and none but its last changes the size |
| `DynStepRuns.StepsAsRecorded` | sil-kit/SilKit/IntegrationTests/ITest_DynStepSizes.cpp:299-336 | in every run with any other participants, one that opts out and changes its step size by the map takes exactly the recorded steps |
| `DynStepRuns.FollowersAsRecorded` | sil-kit/SilKit/IntegrationTests/ITest_DynStepSizes.cpp:317-336 | those that follow it step exactly at the recorded points |
| `DynStepRuns.FollowersLastAsRecorded` | sil-kit/SilKit/IntegrationTests/ITest_DynStepSizes.cpp:317-336 | and their steps have the recorded lengths |

## Left out

- Wall-clock coupling and the animation factor: physical time is not modelled, and timed waits are nondeterministic wakeups.
- Stopping, aborting and shutting down: runs go on past a call of Stop, which covers everything that can happen before it takes effect.
- Joining a running simulation, which autonomous participants may do: all participants of a run start at time zero. Of the hop-on rule the decision and the resulting time are modelled, not the run after it.
- Service discovery: who requests dynamic stepping is known from the start, and nobody is discovered or lost during a run.
- Overflow of 64-bit nanoseconds: the methods that add times require that no sum leaves the range; TimeSync counts in unbounded integers.
- Negative step sizes, which the code accepts: a step that would not advance never begins in the model.
- Messages sent outside of a simulation step, for which the documentation gives no guarantee.
- Threads of AsyncLockstep, CompletionThread, SimTask and Barrier are step systems on values, not classes: what matters in them is the interleaving, which a sequential method cannot show. The same holds for TimeSync and the LIN master and slave.
- Registering a step size outside of a step, which the code allows at any time (TimeSyncService.cpp:471-484): in TimeSync only handlers do it. A size registered after a step was announced would make that step differ from its announcement.
- TimeSync.StepKeepsInv: the actions do not include stopping, joining late and registering a step size outside of a step. Pausing is added in TimePause.
- TimeSync.RunInv: the same actions are missing from the runs; with pauses it is TimePause.CarefulIsSafe.
- TimePause.PausingIsInvisible: does not cover continuing inside a step, for which TimePause.SameTimeExactly shows that it would be false. Only an asynchronous step can be continued in, since the call takes effect after a synchronous handler has returned.
- PubSubRuns.StopsOnceWhenComplete: needs a goal from 1 to 2^32; what happens for the other goals is PubSubRuns.StopsWrongly and PubSubProgress.StopsExactly. The other results on these runs hold for all numbers.
- CompletionThread.StepsNeverOverlap: for the participant that signals itself it needs that this happens once per step, which the code does not enforce.
- PubSubRuns.NoAssertionFails: the text format of messages and the check of its constant part are not modelled.
- LinDeferred.ResponsesFollowHeaders: the slave stops the simulation after ten responses; the model lets it go on. Which frame a response carries is not modelled.
- Rpc.NothingLost: one client and one server; a call times out only if the server does not reply at all, so late replies are not modelled. The timeout of a call that was answered in time looks up a record already erased and reads it before testing that it exists (RpcClient.cpp:119-122), which has no defined meaning to model. Function names and labels are not matched.
- Rpc.RunInv: the same, for the runs it speaks about.
- ReceivedIds.FiresExactly: the check for chronology errors in the same handler is not repeated; it follows from TimeSafety.MessageWindow.
- NetworkSimulation.EachControllerHears: the counters of callback invocations are not modelled; a removed controller stays registered, as in the code.
- LinSchedule.Schedule.constructor: assigning one schedule to another keeps iterators valid in the source; the model has no copies.
- Barrier.FullBarrierEmpties: the destructor, which wakes threads still waiting, is not modelled.
- The dynamic slave that answers each identifier once and then drops its response: one lookup and erase, easier than the matching that is modelled.
- FlexRay and Ethernet network simulation, which repeat the LIN and CAN fan-out; Ethernet frames, pipes, logging, configuration files and the C interface.
