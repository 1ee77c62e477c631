# Services of the Nothing Phone (2) device tree

This project models the stateful services of the device tree and proves what they keep over every run:

- **the sensor multi-HAL proxy**: events of many sub-HALs go to the framework through a bounded message
  queue, with an overflow queue drained by a second thread, while a reference-counted wake lock keeps the
  device awake for wake-up events (`SensorTypes`, `EventQueue`, `EventLog`, `Wakelock`, `HalProxySystem`,
  `HalProxyRuns`, `HalProxyFindings`, `HalProxy`, `HalProxyCallback`); its handles, sensor list, dynamic
  sensors and operation modes (`Handles`, `SensorInfos`, `SensorList`, `DynamicSensors`, `OperationModes`);
- **the fingerprint session**: lockout after failed matches (`Lockout`, `FingerprintSession`) and the
  handshake with the display (`Udfps`);
- **the thermal limiter** (`Thermal`, `ThermalLimiter`);
- **the one-shot sensors** (`OneShot`) and **the feature bits** (`Features`).

`Common` and `Bits` hold what several of these use.

A service is described twice. A step function on values says what one critical section, message or call
does; the lemmas are about all sequences of steps, and some say, on the members and in numbers, what a
single step leads to in any state a run can reach. A class holds the source's members and its methods
update them; each method ends in the state the step function gives. A thread that lets go of its lock in
the middle of a turn takes several steps, and any steps of others fit in between. Fields described as
books are not in the source: they record what happened, so that it can be talked about.

## What the code does not keep

Each of these comes with a concrete run, or with a lemma that says exactly when it happens, or both.

- A failed blocking write gives back the wake-up count of the whole original batch, even if part of it was
  written long ago: the wake lock can be released with an unread wake-up event in the queue
  (`HalProxyFindings.FailedWriteOfSplitBatch`; exactly when: `HalProxySystem.LedgerExactly`).
- After a timeout, a late acknowledgement pays for an event posted since
  (`HalProxyFindings.LateAcknowledgement`; same condition).
- A batch that is filtered down to nothing, posted under a wake lock after a timeout, acquires the platform
  lock and counts nothing that would release it (`HalProxyFindings.HeldForNothing`; exactly when:
  `HalProxyRuns.HeldExactlyStep`). postEvents asserts that a locked batch has a wake-up event, so this is a
  run of builds in which that assertion is compiled out.
- Stopping the threads throws away what the framework has not read (`HalProxyFindings.StoppedUnread`;
  exactly when a run loses nothing: `HalProxyRuns.NoDropsMeansAll`).
- A sub-HAL that posts a handle whose top byte is not clear speaks for another one: sub-HAL 1's event under
  0x02000007 arrives as sub-HAL 3's, and may be counted as a wake-up event (`HalProxyCallback.ForeignEvent`;
  exactly when: `HalProxyCallback.SpeaksForItselfIff`, `Handles.ExtractingGivesBackIff`). The sensor list
  and the dynamic sensors check the top byte, events are not checked.
- Sensors of the 129th to 256th sub-HAL get handles that are refused; those of the 257th to 384th get handles
  that are accepted and belong to the sub-HAL whose index is smaller by 256, whose sensors they replace, and so on
  (`SensorList.TakesAnothersPlace`; exactly when: `SensorList.TooManySubHals`,
  `Handles.UntaggingUndoesTagging`).
- Two calls of one sub-HAL whose notifications overtake each other leave the framework with a dynamic sensor
  that is not there (`DynamicSensors.AnnouncedOutOfOrder`; exactly when: `DynamicSensors.AgreesIff`).
- A timer that comes due while the 20th failed match is being processed ends the permanent lockout
  (`Lockout.UnlockedAfterTwenty`; exactly when: `Lockout.PermanentIff`, `Lockout.OnlyATimerInBetween`).
- A timed lockout may be left without a timer (`Lockout.TimedWithoutTimer`; exactly when:
  `Lockout.TimedHasTimerIff`).
- A finger that matches during a lockout, even a permanent one, is accepted and ends it, and the framework,
  last told that the lockout is permanent, is not told otherwise (`Lockout.MatchedInLockout`; exactly when the
  framework is wrong about a lockout: `Lockout.FrameworkKnows`).
- A one-shot sensor that was switched off still posts the touch its thread had already seen
  (`OneShot.EventAfterOff`; exactly when: `OneShot.TouchIsPostedWhateverIsCalled`), and that touch also
  switches off a sensor that was switched on again in the meantime (`OneShot.ActivationLost`; exactly when:
  `OneShot.ActivationLostIff`).
- A CPU whose maximum lies below its WARM cap is not throttled when it gets warm: the cap written for it rises
  above its maximum (exactly when: `Thermal.CapsAreAntitoneIff`).
- Shifting a negative feature number never reaches zero, so the loops do not end before their index
  overflows (exactly when: `Features.LoopsEndIff`).

## Model

| member | source | states |
|---|---|---|
| HalProxyRuns.DeliveredInOrder | sensors/HalProxy.cpp:575-693 | in every interleaving of posts, the writer's critical sections, reads, stops and restarts, the posted events that were not dropped are, in posting order and once each, those taken from the message queue, those in it, and those still to be written; the framework has read the first of these, in order, without those a stop or a restart took |
| HalProxyRuns.NothingElseIsLost | sensors/HalProxy.cpp:536-692 | conservation, event for event and each as often as it was posted: what was posted and is neither read, nor in the message queue, nor still to be written was lost by an overflow, a failed blocking write, a stop or a re-initialisation, and those are the events without a mark |
| HalProxyRuns.NoDropsMeansAll | sensors/HalProxy.cpp:536-693 | a run loses nothing if and only if the posted events are, in order, those the framework has read, those in the message queue and those still to be written |
| HalProxyRuns.CounterIsExact | sensors/HalProxy.cpp:683-692 | the size counter is the number of pending events, within its limit and the recorded high-water mark, and no pending batch is empty |
| HalProxyRuns.TurnsAddUp | sensors/HalProxy.cpp:579-614 | in every interleaving, the turns the writer has taken and those still needed add up to those needed at first and those added by posts |
| HalProxyRuns.DrainsInTurns | sensors/HalProxy.cpp:579-612 | while the threads run and the framework reads, a backlog is written in just the turns it needs, ceil(n / capacity) for a batch of n events |
| EventQueue.TurnsIsCeiling | sensors/HalProxy.cpp:585-612 | a batch of n events needs n divided by the queue's capacity turns, rounded up |
| EventQueue.CommitBacklog | sensors/HalProxy.cpp:603-612 | each turn shortens the backlog by exactly one turn and strictly shrinks the queue |
| EventQueue.PostValid | sensors/HalProxy.cpp:671-692 | posting keeps the queue's shape and appends exactly the events that were neither written nor dropped |
| EventQueue.PostKeepsIff | sensors/HalProxy.cpp:671-692 | in terms of the queue's members: the events that fit go to the message queue if nothing is pending and the write works; of the rest nothing is dropped if and only if it stays within the limit, and then it is one new last batch with the posted wake-up count; otherwise exactly the rest is dropped |
| EventQueue.TurnOnFront | sensors/HalProxy.cpp:582-612 | a whole turn of the writer: as many events of the front batch as the message queue can hold are stored, or given up, and leave the batch; the rest stays in front with the whole batch's wake-up count |
| EventQueue.FinishUnsent | sensors/HalProxy.cpp:586-602 | whatever a blocking write's outcome, exactly its chunk stops being unsent |
| EventLog.PostInOrder | sensors/HalProxy.cpp:671-692 | a post never overtakes pending events and unmarks nothing but the tail it drops (which, if any: `EventQueue.PostKeepsIff`) |
| EventLog.FinishInOrder | sensors/HalProxy.cpp:587-602 | a write made without the lock, or given up, keeps delivery in order |
| HalProxySystem.LedgerExactly | sensors/HalProxy.cpp:575-725 | from a truthful reference count, each kind of step leads to a truthful one if and only if a condition on the state before it holds, for posts, failed writes, timeouts and acknowledgements |
| HalProxyRuns.AwakeWhileNeeded | sensors/HalProxy.cpp:621-725 | in every run of harmless steps the platform wake lock is held while a wake-up event is pending, unread or unacknowledged, or a fresh scoped wake lock is alive |
| HalProxyRuns.CountIsExact | sensors/HalProxy.cpp:664-725 | in every run of harmless steps (wake-up events are posted under a wake lock, no failed write of a batch already split, no late acknowledgement, no timeout while something is owed), while the threads run and no wake-up event overflows, the count is exactly the wake-up events pending, unread or unacknowledged plus the scoped wake locks taken since the last reset |
| HalProxyRuns.HeldExactlyStep | sensors/HalProxy.cpp:695-725 | a step keeps "held exactly while the count is positive" if and only if it is not a locked post without wake-up events at count zero |
| HalProxyRuns.HeldExactly | sensors/HalProxy.cpp:208-725 | without such a post the wake lock is held exactly while the count is positive, through timeouts, over-acknowledgements, failed writes and re-initialisation |
| HalProxyRuns.AwakeExactly | sensors/HalProxy.cpp:621-725 | in every such run of harmless steps the wake lock is held if and only if something must keep the device awake or a reference was left behind; without references left behind, if and only if something must |
| Wakelock.IncrementExactIff | sensors/HalProxy.cpp:695-709 | taking a reference keeps the lock exact if and only if the threads are stopped, the reference is positive or the count was |
| HalProxyRuns.ReleaseCountsIffFresh | sensors/HalProxy.cpp:711-725 | giving back a scoped wake lock lowers a positive count if and only if it is not older than the last reset |
| HalProxyRuns.StaleForever | sensors/HalProxy.cpp:658-725 | a scoped wake lock taken before a timeout's reset never lowers the count in any continuation |
| HalProxyRuns.CountIsHolders | sensors/HalProxy.cpp:621-725 | in runs of scoped wake locks, timeout checks, failed blocking reads and resets only, with a timeout that is not negative or under a clock that moves on, the count is the number of live ones taken since the last reset |
| HalProxyFindings.FailedWriteOfSplitBatch | sensors/HalProxy.cpp:588-602 | a run in which a failed write releases the wake lock with a wake-up event unread |
| HalProxyFindings.LateAcknowledgement | sensors/HalProxy.cpp:627-638 | a run in which an acknowledgement from before a timeout releases the wake lock of a later event |
| HalProxyFindings.HeldForNothing | sensors/HalProxy.cpp:668-704 | a run that leaves the wake lock held with a count of zero |
| HalProxyFindings.StoppedUnread | sensors/HalProxy.cpp:536-543 | a run in which the framework never gets to read an event that was stored for it |
| HalProxyRuns.StopAndRestart | sensors/HalProxy.cpp:208-270 | whatever happens between a stop and the end of the re-initialisation, the count and the wake lock stay what they were; then the threads run on an empty queue of the new capacity, and a post of up to that many events goes straight to the message queue |
| HalProxyRuns.StopLeadsTo | sensors/HalProxy.cpp:536-543 | stopping empties the message queue and leaves the pending events, the count and the lock alone |
| HalProxyRuns.RestartLeadsTo | sensors/HalProxy.cpp:208-256 | once both service threads are done, re-initialising starts over with an empty queue of the new capacity, the high-water mark kept |
| HalProxyRuns.ThreadEnds | sensors/HalProxy.cpp:643 | the wake lock thread that ends restarts the reset time and leaves the count as it is |
| HalProxyRuns.StoppedChangesNothing | sensors/HalProxy.cpp:695-725 | while the threads are stopped, no step changes the count, the lock or the start of the timeout |
| HalProxyRuns.ResetsIff | sensors/HalProxy.cpp:624-631 | a look at the clock resets the lock if and only if more than the timeout has passed since a reference was last taken, and else starts a blocking read |
| HalProxyRuns.AcknowledgeLeadsTo | sensors/HalProxy.cpp:632-639 | the end of the read takes what was acknowledged off the count as far as it goes, and nothing if it failed or the threads are stopped |
| HalProxyRuns.HeldAndGivenBack | sensors/HalProxy.cpp:695-725 | a scoped wake lock taken and given back leaves the count as it was |
| HalProxyRuns.WriterFinishes | sensors/HalProxy.cpp:579-612 | the writer starts on a batch only while the threads run, and ends a write it has started whether or not they do |
| HalProxy.HalProxy.IncrementRefCountAndMaybeAcquireWakelock | sensors/HalProxy.cpp:695-709 | new count, start time and platform lock, and the start time handed out |
| HalProxy.HalProxy.DecrementRefCountAndMaybeReleaseWakelock | sensors/HalProxy.cpp:711-725 | nothing while stopped, at zero or for a stale holder; otherwise the count, clamped, and the release at zero |
| HalProxy.HalProxy.ResetSharedWakelock | sensors/HalProxy.cpp:658-662 | gives everything back, if the threads run, and restarts the reset time |
| HalProxy.HalProxy.SharedWakelockDidTimeout | sensors/HalProxy.cpp:646-656 | a timeout if and only if the time is past the start plus the timeout, and else the time left until then |
| HalProxy.HalProxy.CountNumWakeupEvents | sensors/HalProxy.cpp:750-759 | counts the wake-up events among the first n |
| HalProxy.HalProxy.PostEventsToMessageQueue | sensors/HalProxy.cpp:664-693 | refines the post step |
| HalProxy.HalProxy.HandlePendingWritesTake | sensors/HalProxy.cpp:580-587 | picks a non-empty prefix of what is to be sent |
| HalProxy.HalProxy.HandlePendingWritesFinish | sensors/HalProxy.cpp:588-602 | refines the step between the locks, including what a failure gives back |
| HalProxy.HalProxy.HandlePendingWritesCommit | sensors/HalProxy.cpp:603-612 | refines the removal of the finished chunk |
| HalProxy.HalProxy.HandleWakelocksCheck | sensors/HalProxy.cpp:624-631 | refines the timeout check at the top of the wake lock thread's loop |
| HalProxy.HalProxy.HandleWakelocksAcknowledge | sensors/HalProxy.cpp:632-639 | refines the end of its blocking read |
| HalProxy.HalProxy.StopThreads | sensors/HalProxy.cpp:536-557 | refines stopping, which empties the message queue |
| HalProxy.HalProxy.InitializeCommon | sensors/HalProxy.cpp:208-270 | refines re-initialisation: pending events forgotten, the count left alone |
| HalProxyCallback.HalProxyCallback.ProcessEvents | sensors/HalProxyCallback.cpp:65-84 | tags and filters the events and counts exactly the wake-up events it lets through |
| HalProxyCallback.HalProxyCallback.PostEvents | sensors/HalProxyCallback.cpp:41-58 | nothing for an empty batch or stopped threads; otherwise a post whose wake-up count is right |
| HalProxyCallback.ComesThroughIff | sensors/HalProxyCallback.cpp:65-84 | whatever the handles, an event comes through if and only if it is one of those given, tagged, and is no pick-up gesture that reports anything but 1 |
| HalProxyCallback.EventByEvent | sensors/HalProxyCallback.cpp:69-82 | each further event adds itself, with the index in its handle and its payload as it is, unless it then names a pick-up sensor and does not report 1, in which case it adds nothing |
| HalProxyCallback.CountedEvents | sensors/HalProxyCallback.cpp:78-80 | the wake-up count is the number of events whose sensor is known and has the wake-up flag |
| HalProxyCallback.OwnEventsComeThroughIff | sensors/HalProxyCallback.cpp:69-82 | when all handles are clear, an event comes through if and only if it is not ignored, carries its sub-HAL's index, and is one of those given once the index is cleared |
| HalProxyCallback.SpeaksForItselfIff | sensors/HalProxyCallback.cpp:69-82 | everything a sub-HAL posts carries its own index if and only if no handle that gets through has a bit in its top byte that the index lacks, and the index is one that can be read back |
| HalProxyCallback.ForeignEvent | sensors/HalProxyCallback.cpp:70-80 | a batch of sub-HAL 1 that arrives as an event of sub-HAL 3 and counts as its wake-up event |
| HalProxyCallback.AllIgnored | sensors/HalProxyCallback.cpp:73-76 | a batch of unconfirmed pick-up gestures becomes an empty one |
| Handles.ExtractingGivesBackIff | sensors/HalProxy.cpp:57-70 | for every handle, clear or not, and every 64-bit index, extracting gives the index back if and only if it survives the cut to a signed byte and has every bit already in the top byte |
| Handles.UntaggingUndoesTagging | sensors/HalProxy.cpp:57-70 | for clear handles, clearing undoes tagging; extracting gives back exactly the indices that survive the cut to a signed byte |
| Handles.TaggingIsInjective | sensors/HalProxy.cpp:57-59 | clear handles and indices below 128 are determined by the tagged handle |
| Handles.ValidIffTagged | sensors/HalProxy.cpp:742-767 | with at most 128 sub-HALs, a 32-bit handle passes the validity check if and only if it is a clear handle tagged with an existing index |
| SensorList.RegistryIsExact | sensors/HalProxy.cpp:484-511 | the list holds, per handle, the last claim as published under the final choice of direct-channel sub-HAL, which is the first to offer direct channels |
| SensorList.ListedAs | sensors/HalProxy.cpp:484-511 | member by member: a handle is listed if and only if some clear sensor becomes it, with the last such sensor's members, wrist tilt as pick-up, and without the direct-channel flags unless its sub-HAL is the chosen one |
| SensorList.DirectIsFirst | sensors/HalProxy.cpp:727-740 | the chosen sub-HAL is that of the first clear sensor with one of the flags 7 to 11, and none is chosen if there is no such sensor |
| SensorList.KeysAndFlags | sensors/HalProxy.cpp:727-748 | every key is its sensor's handle and names an existing sub-HAL; a sensor that still offers direct channels belongs to the chosen one |
| SensorList.TooManySubHals | sensors/HalProxy.cpp:746-748 | exactly which sub-HALs get handles that pass the validity check, whose they are then taken for, and that only the first 128 get their own |
| SensorList.TakesAnothersPlace | sensors/HalProxy.cpp:484-503 | a list in which the sensor of sub-HAL 256 is all that is left, under the handle of the one of sub-HAL 0 that it replaces |
| SensorList.HalProxySensors.InitializeSensorList | sensors/HalProxy.cpp:484-511 | the nested loops build that list |
| SensorList.HalProxySensors.SetDirectChannelFlags | sensors/HalProxy.cpp:727-740 | the first sub-HAL with direct channels is chosen, all others lose those flags and no others |
| DynamicSensors.ReplayIsTable | sensors/HalProxy.cpp:391-431 | with the notification made after the lock is released, in every run of at most 128 sub-HALs in which each one's calls are announced in turn and nothing is on its way at an initialisation, and however those of different sub-HALs overtake each other, replaying the notifications since the last initialisation gives exactly the handles on record, but for a sub-HAL in the middle of a call |
| DynamicSensors.AgreesIff | sensors/HalProxy.cpp:221-431 | step by step, the framework is going to know the table if and only if no announcement reverses what is said last about a handle, and no initialisation leaves a connection to be announced |
| DynamicSensors.AnnouncedOutOfOrder | sensors/HalProxy.cpp:407-429 | a run after which the framework believes in a sensor that was withdrawn |
| DynamicSensors.WithdrawnIff | sensors/HalProxy.cpp:417-428 | a disconnect announces exactly the recorded handles it names, each once, in the order they are named |
| DynamicSensors.AnnouncedAre | sensors/HalProxy.cpp:396-405 | a connect announces exactly the clear sensors of its list, in order, each under its tagged handle and else as it is |
| DynamicSensors.RecordedAre | sensors/HalProxy.cpp:402-403 | and under each of their handles the last of them is on record |
| DynamicSensors.OthersStay | sensors/HalProxy.cpp:391-431 | one sub-HAL's calls leave every other sub-HAL's sensors as they are |
| DynamicSensors.DynamicSensorTable.OnDynamicSensorsConnected | sensors/HalProxy.cpp:391-406 | refines the connect step and leaves what it added to be announced |
| DynamicSensors.DynamicSensorTable.OnDynamicSensorsDisconnected | sensors/HalProxy.cpp:411-428 | refines the disconnect step and leaves what it removed to be announced |
| DynamicSensors.DynamicSensorTable.NotifyFramework | sensors/HalProxy.cpp:407-429 | refines the announcement of one of the calls on their way |
| OperationModes.AllOrNothingIff | sensors/HalProxy.cpp:133-154 | from agreement, a call leads to agreement if and only if nobody refused, all rollbacks worked, or there was nothing to switch |
| OperationModes.EverySubHal | sensors/HalProxy.cpp:133-154 | from any modes: who ends up in which mode and what is put on record, by who refuses to switch and to switch back |
| OperationModes.AlwaysAgree | sensors/HalProxy.cpp:133-154 | while rollbacks work, all sub-HALs agree with the record after any number of calls, and the record is the last mode nobody refused |
| OperationModes.ModeSwitch.SetOperationMode | sensors/HalProxy.cpp:133-154 | every sub-HAL's mode after the two loops, and the first refusal as the result |
| Lockout.PermanentIff | fingerprint/Session.cpp:319-422 | over every run, with the two halves of a failed match apart, the lockout is permanent if and only if 20 failures were counted since the last match or reset and no unaborted timer expired since the last of them; at most one timer sleeps, and during a permanent lockout only an aborted one, or while a failure is being processed |
| Lockout.PermanentIffUndisturbed | fingerprint/Session.cpp:319-422 | if no timer expires between the halves of a failed match, the lockout is permanent exactly from the 20th failure on: no timer lifts it |
| Lockout.OnlyATimerInBetween | fingerprint/Session.cpp:360-421 | step by step, permanence is lost if and only if an unaborted timer expires with 20 failures counted, which needs a failed match half processed |
| Lockout.NextFailureRepairs | fingerprint/LockoutTracker.cpp:25-34 | the next failed match makes the lockout permanent again |
| Lockout.TimedHasTimerIff | fingerprint/Session.cpp:332-366 | a timed lockout loses its timer if and only if an aborted timer expires during it |
| Lockout.FrameworkKnows | fingerprint/Session.cpp:319-422 | over every run, between two messages, the lockout is what the framework was last told, unless since then a finger matched or a timed lockout turned out to be over, in which case there is none; so a permanent or timed lockout is never unknown to the framework |
| Lockout.VerdictsAreTold | fingerprint/Session.cpp:319-422 | over every run the framework is told of a success exactly for each match and of a failure exactly for each failed match, in their order, and the reader is turned off exactly after each match and each failure that finds a lockout in force |
| Lockout.ModeOnFailure | fingerprint/LockoutTracker.cpp:25-34 | over every run: the first four failures lock nothing, the 5th to 19th for a time that starts then, the 20th and later for good |
| Lockout.TimerStartsAndEnds | fingerprint/Session.cpp:332-366 | a failure found to lock for a time leaves one timer asleep; when it comes due there is none, and unless it was aborted no lockout, with the failures still counted |
| Lockout.MatchedInLockout | fingerprint/Session.cpp:408-416 | a run in which a match ends a permanent lockout and the framework goes on believing in it |
| Lockout.TimeTold | fingerprint/Session.cpp:332-336 | at a failure that leads to a timed lockout the framework is told at most 30 s, exactly that if told at once, and something positive exactly until the lockout's time is over |
| Lockout.UnlockedAfterTwenty | fingerprint/Session.cpp:360-420 | a run that ends unlocked with 20 failures counted |
| Lockout.TimedWithoutTimer | fingerprint/Session.cpp:336-366 | a run that ends in a timed lockout without a timer |
| FingerprintSession.LockoutTracker.Reset | fingerprint/LockoutTracker.cpp:18-23 | refines the reset |
| FingerprintSession.LockoutTracker.AddFailedAttempt | fingerprint/LockoutTracker.cpp:25-34 | refines the counting of a failure |
| FingerprintSession.LockoutTracker.GetMode | fingerprint/LockoutTracker.cpp:36-45 | the mode, after a timed lockout that has elapsed is ended |
| FingerprintSession.LockoutTracker.GetLockoutTimeLeft | fingerprint/LockoutTracker.cpp:47-57 | zero when no lockout is timed; otherwise 30 s less the whole milliseconds between the lockout's start and now, bracketed in nanoseconds on both sides of the start |
| Lockout.TimeLeftCountsDown | fingerprint/LockoutTracker.cpp:47-57 | that time is 30 s at the moment of the failure, never more after it, never rises, falls by at least one with each millisecond, and is positive exactly until 30 s have passed |
| FingerprintSession.FingerprintSession.NotifyAuthenticated | fingerprint/Session.cpp:405-422 | refines a match or a failed match, tells the framework first which of the two it was, and tells the reader the finger is up after a match and in every lockout |
| FingerprintSession.FingerprintSession.CheckSensorLockout | fingerprint/Session.cpp:319-341 | refines the consequences of a failure; while locked, the reader is off |
| FingerprintSession.FingerprintSession.LockoutTimerExpired | fingerprint/Session.cpp:360-366 | refines the expiry of a timer |
| FingerprintSession.FingerprintSession.OnResetLockout | fingerprint/Session.cpp:151-158 | refines resetLockout |
| Udfps.NoDownWithoutReady | fingerprint/UdfpsHandler.cpp:31-86 | however the worker is scheduled, a finger-down command after an onFingerUp is preceded by an onUiReady since |
| Udfps.DownsAlternate | fingerprint/UdfpsHandler.cpp:31-86 | two finger-down commands are separated by a finger-up |
| Udfps.SettlesItsOwnRequest | fingerprint/UdfpsHandler.cpp:54-85 | the worker settles only the current request, under a deadline at least 500 ms after it was made; it sends finger-down if and only if the display is ready |
| Udfps.ReadyLeadsTo | fingerprint/UdfpsHandler.cpp:31-43 | over every run, with a finger on the reader onUiReady is ignored; otherwise it sends finger-down at once if it need not wait, and else sends nothing and leaves its request pending |
| Udfps.ReleaseLeadsTo | fingerprint/UdfpsHandler.cpp:45-52 | onFingerUp always sends finger-up and leaves nothing pending |
| Udfps.PickUpLeadsTo | fingerprint/UdfpsHandler.cpp:54-60 | a pending request gets exactly 500 ms from when the worker picks it up |
| Udfps.PicksUpIff | fingerprint/UdfpsHandler.cpp:54-61 | the worker picks up a request if and only if one is pending and the handler is not shut down |
| Udfps.TurnLeadsTo | fingerprint/UdfpsHandler.cpp:60-84 | a turn for the request waited for sends finger-down as soon as the display reports 1, gives up if and only if it cannot be read or the deadline has come, and else waits on; any other turn only ends the loop |
| Udfps.DownIsSentIff | fingerprint/UdfpsHandler.cpp:31-86 | over every run a finger-down is sent if and only if a call need not wait or a turn reads 1 for the request waited for |
| Udfps.UdfpsHandler.RunPoll | fingerprint/UdfpsHandler.cpp:60-84 | left alone under a clock that moves on, the inner loop ends within the patience divided by the clock's tick |
| Udfps.UdfpsHandler.OnUiReady | fingerprint/UdfpsHandler.cpp:31-43 | refines the request |
| Udfps.UdfpsHandler.OnFingerUp | fingerprint/UdfpsHandler.cpp:45-52 | refines the release |
| Udfps.UdfpsHandler.RunTurn | fingerprint/UdfpsHandler.cpp:62-83 | refines one turn of the inner loop |
| Thermal.OneMonitorQueued | DeviceExtras/src/org/neoteric/device/DeviceExtras/ThermalLimiter.java:139-283 | in every state between two messages at most one monitor is queued, exactly one while monitoring with the display on, none when not monitoring |
| Thermal.ThrottlesWithReason | DeviceExtras/src/org/neoteric/device/DeviceExtras/ThermalLimiter.java:166-218 | a state above NORMAL implies monitoring, display on and a throttled package |
| Thermal.CapsInForceAfterTick | DeviceExtras/src/org/neoteric/device/DeviceExtras/ThermalLimiter.java:190-491 | after every run of the monitor that leaves the limiter throttling, every writable cap is in force, whatever others wrote, for the selected app in front and at the state the temperature calls for |
| Thermal.ThrottlesIff | DeviceExtras/src/org/neoteric/device/DeviceExtras/ThermalLimiter.java:190-472 | after any run of the monitor in any reachable state the limiter is in the state the temperature calls for by the thresholds if it monitors, the display is on and a selected app is in front, and else in none; with the temperature given by the battery's raw reading |
| Thermal.FilesAfterTick | DeviceExtras/src/org/neoteric/device/DeviceExtras/ThermalLimiter.java:393-491 | what that run leaves in each file: the cap of a new state, or of the same state above NORMAL unless the file is within it; everything else is left alone |
| Thermal.OverruledAtNextTick | DeviceExtras/src/org/neoteric/device/DeviceExtras/ThermalLimiter.java:408-428 | what somebody else writes stays until the next run, and then exactly if it is within the cap |
| Thermal.FlagsFollowSteps | DeviceExtras/src/org/neoteric/device/DeviceExtras/ThermalLimiter.java:139-184 | over every run, whether the limiter monitors and takes the display to be on is what its starts, stops and the broadcasts since say |
| Thermal.CeilingsOfLastStart | DeviceExtras/src/org/neoteric/device/DeviceExtras/ThermalLimiter.java:334-363 | the ceilings are the clusters' maxima read at the last start, or the built-in ones where nothing positive was read |
| Thermal.IdleWhileOff | DeviceExtras/src/org/neoteric/device/DeviceExtras/ThermalLimiter.java:139-537 | nothing is throttled from a start with the display off, or from when it goes off, until it goes on |
| Thermal.StopRestores | DeviceExtras/src/org/neoteric/device/DeviceExtras/ThermalLimiter.java:166-184 | stopping puts every writable file back to its ceiling |
| Thermal.LookLeadsTo | DeviceExtras/src/org/neoteric/device/DeviceExtras/ThermalLimiter.java:272-283 | a request to look at once restarts the one monitor if monitoring with the display on, and else does nothing; other requests stay queued |
| Thermal.RequestLeadsTo | DeviceExtras/src/org/neoteric/device/DeviceExtras/ThermalLimiter.java:272-276 | a request is queued if and only if the limiter was ever started |
| Thermal.EventsLeadTo | DeviceExtras/src/org/neoteric/device/DeviceExtras/ThermalLimiter.java:139-535 | what a start, the display going off and the display going on leave of state, app, files and queue |
| Thermal.MonitorRunsOn | DeviceExtras/src/org/neoteric/device/DeviceExtras/ThermalLimiter.java:151-157 | a run of the monitor posts itself again |
| Thermal.CeilingsRestored | DeviceExtras/src/org/neoteric/device/DeviceExtras/ThermalLimiter.java:209-507 | whenever throttling ends, every writable file is back at its ceiling |
| Thermal.CapsAreAntitoneIff | DeviceExtras/src/org/neoteric/device/DeviceExtras/ThermalLimiter.java:430-461 | caps never rise with the temperature if and only if no cluster's ceiling lies below its WARM cap |
| Thermal.StateIsMonotone | DeviceExtras/src/org/neoteric/device/DeviceExtras/ThermalLimiter.java:385-461 | for any stored thresholds the state rises and the interval falls with the temperature, in step |
| Thermal.StateAndInterval | DeviceExtras/src/org/neoteric/device/DeviceExtras/ThermalLimiter.java:385-461 | state and interval by the thresholds reached |
| Thermal.CapTable | DeviceExtras/src/org/neoteric/device/DeviceExtras/ThermalLimiter.java:430-472 | the caps of all CPUs and the GPU in each state |
| Thermal.ThresholdsAreOrdered | DeviceExtras/src/org/neoteric/device/DeviceExtras/ThermalLimiter.java:316-332 | the thresholds are strictly ordered and in range, and which stored values are taken as they are |
| Thermal.ThresholdsAreNearest | DeviceExtras/src/org/neoteric/device/DeviceExtras/ThermalLimiter.java:316-332 | stored values outside order or range are moved to their nearest place in it |
| Thermal.CapsFileByFile | DeviceExtras/src/org/neoteric/device/DeviceExtras/ThermalLimiter.java:393-428 | writing sets each file's own cap; enforcing leaves alone exactly what is known to be within it |
| ThermalLimiter.ThermalLimiter.AdjustFrequencies | DeviceExtras/src/org/neoteric/device/DeviceExtras/ThermalLimiter.java:430-491 | refines the change or enforcement of caps |
| ThermalLimiter.ThermalLimiter.EnforceFrequencyCeiling | DeviceExtras/src/org/neoteric/device/DeviceExtras/ThermalLimiter.java:415-428 | writes the one file unless it is known to be within the cap |
| ThermalLimiter.ThermalLimiter.DoTick | DeviceExtras/src/org/neoteric/device/DeviceExtras/ThermalLimiter.java:190-207 | refines a look, and the interval until the next |
| ThermalLimiter.ThermalLimiter.DispatchMessage | DeviceExtras/src/org/neoteric/device/DeviceExtras/ThermalLimiter.java:151-283 | refines running a message |
| ThermalLimiter.ThermalLimiter.StartMonitoring | DeviceExtras/src/org/neoteric/device/DeviceExtras/ThermalLimiter.java:139-164 | refines the start |
| ThermalLimiter.ThermalLimiter.ReadClusterCeiling | DeviceExtras/src/org/neoteric/device/DeviceExtras/ThermalLimiter.java:340-363 | a cluster's own maximum if it is a positive number, and the fallback otherwise |
| ThermalLimiter.ThermalLimiter.DoStopMonitoring | DeviceExtras/src/org/neoteric/device/DeviceExtras/ThermalLimiter.java:166-184 | refines the stop |
| ThermalLimiter.ThermalLimiter.OnScreenOff | DeviceExtras/src/org/neoteric/device/DeviceExtras/ThermalLimiter.java:519-529 | refines the display going off |
| OneShot.NoMoreEventsThanActivations | sensors/Sensor.cpp:290-335 | the thread never posts more events than the sensor was switched on |
| OneShot.NeverStuckInPoll | sensors/Sensor.cpp:290-335 | a thread polling for a sensor that must not sample has a byte to read, or a mode change is about to write one |
| OneShot.OffReachesWait | sensors/Sensor.cpp:403-448 | once switched off, three steps take the thread to where it waits |
| OneShot.TouchIsPostedWhateverIsCalled | sensors/Sensor.cpp:419-445 | a confirmed touch is posted whatever calls arrive before the thread has its lock, and for a switched-off sensor exactly if the last of them says so |
| OneShot.EventAfterOff | sensors/Sensor.cpp:316-328 | a run in which a switched-off sensor posts an event |
| OneShot.ActivationLostIff | sensors/Sensor.cpp:316-328 | a touch ends an activation made after it if and only if the last call before the thread has its lock switches the sensor on and it was off at some time since poll began |
| OneShot.ActivationLost | sensors/Sensor.cpp:290-328 | a run with two activations, one event, and a sensor that is off |
| OneShot.ActivationsAddUp | sensors/Sensor.cpp:290-335 | over every run each activation is in force or was ended by one call or one event, and the other events came for a sensor that was off |
| OneShot.FlagsFollowSteps | sensors/Sensor.cpp:290-335 | over every run the sensor is on if it was switched on last with no event since, injects by the last mode set, and its thread is told to stop once a poll has failed |
| OneShot.TopLeadsTo | sensors/Sensor.cpp:306-315 | the thread polls exactly for a sensor that is on and not injecting, ends if a poll has failed, and else waits |
| OneShot.WaitEndsIff | sensors/Sensor.cpp:309-312 | the wait ends if and only if the sensor is on and not injecting, or the thread is to stop |
| OneShot.PollReturnsIff | sensors/Sensor.cpp:316-318 | poll returns if and only if it fails, the controller reports or a byte is there, and what it reports is what the thread sees |
| OneShot.ResultLeadsTo | sensors/Sensor.cpp:320-332 | what becomes of poll's result: the end after a failure, an event for a confirmed touch, and else one byte read if poll saw one |
| OneShot.BytesAddUp | sensors/Sensor.cpp:290-354 | over every run each switch of the sensor and each mode set is one byte, in the pipe, about to be written, or read |
| OneShot.OneShotSensor.DoActivate | sensors/Sensor.cpp:290-299 | refines activate |
| OneShot.OneShotSensor.RunProcess | sensors/Sensor.cpp:320-332 | refines what the thread does with poll's result |
| Features.BitSetOfXor | nothing-fwk/src/com/nothing/NtFeaturesUtils.java:50-59 | the bits of an exclusive or are the symmetric difference of the bits |
| Features.DifferencesCommuteAndCancel | nothing-fwk/src/com/nothing/NtFeaturesUtils.java:22-24 | the two differences commute and each undoes itself |
| Features.LoopsEndIff | nothing-fwk/src/com/nothing/NtFeaturesUtils.java:39-59 | the shifting reaches zero if and only if the number is not negative |
| Features.BitAfterShifts | nothing-fwk/src/com/nothing/NtFeaturesUtils.java:39-59 | bit i of a number is the one tested after i shifts |
| Features.NtFeatures.constructor | nothing-fwk/src/com/nothing/NtFeaturesUtils.java:13-25 | the features are the bits of base, product and device numbers combined by exclusive or |
| Features.NtFeatures.Base | nothing-fwk/src/com/nothing/NtFeaturesUtils.java:39-48 | the loop adds the number's bits |
| Features.NtFeatures.Change | nothing-fwk/src/com/nothing/NtFeaturesUtils.java:50-59 | the loop flips the number's bits |
| Features.NtFeatures.IsSupport | nothing-fwk/src/com/nothing/NtFeaturesUtils.java:27-37 | true if and only if every queried index is non-negative and its bit is set |

## Left out

- The message queue, its flags and the platform wake lock are state, not code: a write stores all its events or none, and a failed one stores none. HalProxy.h and ScopedWakelock are not part of this model; a scoped wake lock is a reference of one that records its start time and is given back with it.
- Posting and re-initialising at the same time, before or without the threads being joined: initializeCommon clears the pending queue without its lock; nor do dynamic sensors come or go between its clearing the table and its switching callbacks.
- countNumWakeupEvents and getSensorInfo insert an empty description for an unknown handle: it has no flags, so no count changes.
- Dynamic sensors never count as wake-up sensors: the proxy looks flags up among the static ones only, as the code does.
- setOperationMode: a sub-HAL that refuses keeps its own mode.
- Counters are unbounded: failed attempts (32 bits), request ids (64 bits) and the reference count (size_t) do not wrap around.
- hasElapsed and the system clock: the first is a free choice at each call, the second an argument.
- A timer thread that ends before startLockoutTimer has set its flag, and data races on the session's flags finer than a step.
- The tracker's start time and mode, which its header leaves uninitialised, begin as zero and NONE.
- Lockout across sessions, enrollment, enumeration, error filters and tokens.
- The thermal limiter's file contents take effect as written; toasts, tiles and preferences are not modelled, and messages may run in any order.
- replace and maxLength, the parsing of the three properties.
- Sensor construction and destruction, the base class's sampling loop, coordinates, and reading the state files.
- Wrappers that pass calls on to a sub-HAL, library loading, debug dumps, services, charging, vibrator and build files: they hold no state of their own.
