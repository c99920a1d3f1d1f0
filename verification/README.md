# Location HAL protocols

A model, in Dafny, of the stateful parts of the location HAL under `gps/`: message handlers that run
one at a time and talk to a modem and to the Android framework, whose answers come later or not at all.
Each handler is one atomic step. What the modem or the framework decides is a parameter of a step or a
later step of its own. Objects whose methods update fields are classes here; each method is proved
against a step function or step relation, and what the source promises is proved about that function
over all inputs and over all runs.

| Part | Files |
|---|---|
| AGPS data-call protocol and the native handler that answers it | `AgpsModel`, `AgpsLedger`, `AgpsEndings`, `AgpsNative`, `AgpsMachine` |
| Many tracking sessions on one engine session | `TrackingModel`, `TrackingLists`, `TrackingEngine`, `TrackingMultiplexer` |
| GPS lock in the Q and P regimes | `GpsLock` |
| Blacklisted satellites as masks and as lists | `Bits`, `SvBlacklist` |
| Data-item subscriptions: two converse maps | `SetMap`, `ObserverModel`, `SubscriptionIndex`, `SubscriptionHistory`, `SystemStatusOsObserver` |
| Adapter array of the location API | `AdapterArray` |
| Elapsed-realtime estimator and GPS time to boot time | `ElapsedRealtime` |
| Network handle table and report history | `NetworkTable`, `NetworkReports` |
| Geofence maps and breach delivery | `GeofenceIndex`, `GeofenceAnswers`, `GeofenceAdapter` |
| Trip distance ledger and batch parameters | `TripLedger`, `TripSessions`, `BatchingAdapter` |
| Commands held back until the engine is up; session ids | `DeferredMessages` |

A module that ends in a class has the class last; the modules it imports hold the step functions, the
invariants and the theorems.

## Where the code does not do what it says

Each of these is proved: an input at which the promise fails, and the condition on the state before the
call, or on the run, under which it holds.

- `gps/utils/LocUnorderedSetMap.h:188-201` says that `update` returns the values taken out of the
  entry; it returns the values that the old and the new set have in common (line 198). So
  `updateSubscription` keeps the two subscription maps in agreement if and only if the client had no
  item before (`UpdateAgreesExactlyForNewcomers`), and a client that updates to the items it has is told
  nothing any more (`UpdateToSameItemsSilences`). The loop behind it
  (`gps/utils/LocUnorderedSetMap.h:66-79`) also steps an iterator it has erased, which C++ leaves
  undefined: exactly when the two sets have a value in common (`RemoveAndReturnInterset`).
- An item first asked for through `requestData` is never subscribed with the framework while somebody
  wants it: the framework was told to subscribe to all items of the map if and only if no entry was made
  that way (`SubscribedExactly`, `AskedButNotSubscribed`, `LaterSubscriptionMakesNoCall`).
- SBAS ids 208 to 246 pass the range check and shift a 64-bit one by 64 or more, which is undefined
  (`UndefinedExactlyForHighSbas`).
- The internet AGPS machine accepts requests of types other than WWAN_ANY, which the native handler never
  answers. The machine is never left waiting without an answer if and only if no action strands it: no
  request of another type in RELEASED, and no release or reopening while the machine has another type
  (`NeverStuckExactly`, `ActWaitsExactly`; `OnlyWwanIsAnswered` and `LaterTypeStrandsReleasing` end in
  PENDING and in RELEASING).
- A subscriber that has been granted the connection and asks again while it is held is granted it twice;
  the ledger of notices is broken by exactly that (`StepKeepsLedgerExactly`, `AskingAgainIsGrantedTwice`).
- A time-based session that asks for a distance when the engine has no distance tracking is stopped, and
  then listed as tracking again. Every session is covered afterwards, in whatever order the sessions are
  looked at, if and only if it was the only session, or N-Hz is needed, or another session asks for as
  short an interval, or the stop does not call the engine and the engine runs fast enough already
  (`UnsupportedSwitchExactly`, `UnsupportedSwitchUncovers`). The order matters only while some session has
  the invalid power mode (gps/gnss/GnssAdapter.cpp:3585-3588). The only session is listed as tracking with
  the engine stopped (`UnsupportedSwitchStopsEngine`).
- A session can be listed both by time and by distance (`SessionListedTwice`). Every session is listed once
  throughout a run if and only if no start, answered switch to time or answered restart saves one that is
  in the other list then (`ListedOnceOverRuns`, `StepListsOnceExactly`).
- The engine can keep running without a time-based session (`EngineLeftRunning`). It has one whenever it
  runs, throughout a run, if and only if no update to time and no answer to a stop or a failed start takes
  the only time-based session out of the list while the engine runs (`EngineStopsWithLastSession`,
  `StepKeepsTidyExactly`).
- A client that updates a distance-based session is not answered if the stop that comes first fails. That
  callback, and no other about a distance-based session, loses a response (`FailedRestartIsNotAnswered`,
  `StepConservesResponses`, `OneResponsePerCommand`).
- The first network report of the framework stores its handle under the normalised type; later
  disconnects are compared by raw type and never remove it (`FirstHandleIsNeverRemoved`,
  `DisconnectRemovesExactly`).
- A geofence that is paused is stored as not paused after a modem restart, so that a second restart
  brings it back running (`RestartRestores`, `SecondRestartForgetsPause`). A geofence of a departed
  client comes back into the index if and only if it was out of it, which is when its removal was
  outstanding or had failed (`ComesBackExactly`, `DepartedComesBack`).
- A trip that joins and restarts the batch keeps the trip distance of the others as last computed. The
  ledger survives a join if and only if the join does not restart, or every stored distance is up to date
  and, should the modem refuse, nothing was travelled in the batch (`JoinKeepsLedgerExactly`,
  `RestartingJoinLosesMetres`); with a modem that agrees, up to date means by the odometer
  (`ConsentedJoinKeepsLedgerExactly`). A join whose distance query fails is answered with success, but its
  session is not stored.
- After `restartTripBatching` the batch may end later than a session does: a stop computes the new distance
  from stored trip distances that it does not bring up to date (`StopRestartsLate`), and a restart for the
  interval alone keeps the full distance (`IntervalRestartsLate`). `RestartOnTimeExactly` gives the
  condition for every state with balanced books.
- The loop that looks for the least remaining distance finds it if and only if no session has come
  further than it was to go, and one that has come exactly as far is the last (`SentinelFindsMinimumExactly`).
- With intervals of zero the same loop over intervals may miss the least one, and the batch becomes too slow for a trip:
  exactly if a zero interval does not come last (`MinTbfExactly`, `StepIsFastExactly`, `ZeroIntervalSlowsDown`).
- A completion report reads a session it has just erased, which C++ leaves undefined: exactly when some
  session is completed (`BookDistance`).
- A gated command queued behind the news that the engine is up overtakes all commands held back: distinct
  commands are executed in the order they were sent if and only if none was held back or none was queued
  then (`OrderKeptExactly`, `LaterCommandOvertakes`).

## Model

| member | source | states |
|---|---|---|
| AgpsLedger.ReachableStateList | gps/gnss/Agps.cpp:73-344 | Over every run handles in the list are distinct and RELEASED has an empty list, even after modem restarts; without one, PENDING and ACQUIRED have an active subscriber and RELEASING an inactive one |
| AgpsLedger.StepKeepsStateListInv | gps/gnss/Agps.cpp:73-283 | Every event keeps the state and list invariant |
| AgpsLedger.LedgerOverRuns | gps/gnss/Agps.cpp:73-381 | Over every run the notices a handle gets follow the one life cycle (accepted, at most one open-success, one terminal notice exactly when it leaves the list; active in ACQUIRED means granted, active in PENDING or RELEASING means not) if it has no second grant, and break it for good if it has one |
| AgpsLedger.EveryAcceptedEndsOnce | gps/gnss/Agps.cpp:311-431 | In numbers, without a second grant of the handle: acceptances are its terminal notices plus one if it is still listed, and open-successes are no more than acceptances |
| AgpsLedger.SecondGrantBreaksLedger | gps/gnss/Agps.cpp:73-107 | Subscribing in ACQUIRED with a handle that has been granted and not told its end always breaks the ledger |
| AgpsLedger.StepKeepsLedgerExactly | gps/gnss/Agps.cpp:73-283 | An event keeps the ledger of a handle if and only if it is not a second grant of it |
| AgpsLedger.AskingAgainIsGrantedTwice | gps/gnss/Agps.cpp:73-107 | The shortest run with a second grant |
| AgpsLedger.AskingAgainMayBeTheFirstGrant | gps/gnss/Agps.cpp:73-171 | A run in which a listed subscriber that gave up before the grant asks again in ACQUIRED, and the ledger holds |
| AgpsLedger.PhaseCounts | gps/gnss/Agps.cpp:346-391 | An unbroken life cycle in terms of counts of notices |
| AgpsLedger.ConnectionConserved | gps/gnss/Agps.cpp:73-309 | Over every run, modem restarts included, requests minus releases minus connections ended by the framework is one in PENDING and ACQUIRED and zero otherwise |
| AgpsLedger.StepConservesConnection | gps/gnss/Agps.cpp:73-309 | The same for one event |
| AgpsLedger.Drains | gps/gnss/Agps.cpp:196-283 | From any reachable state RELEASED then DENIED ends in RELEASED with an empty list, every former subscriber told a terminal notice exactly once |
| AgpsEndings.ToldExactly | gps/gnss/Agps.cpp:73-391 | For every event and notice, a handle is told it if and only if it is the occasion: an open-failure when the connection asked for is denied and it is listed, a close when it leaves at once, when the connection held ends, or when it gave up and the close comes, a success when granted or asking in ACQUIRED |
| AgpsEndings.EndingsOverRuns | gps/gnss/Agps.cpp:73-391 | Over every run the endings of a handle's subscriptions, failed, closed or dropped, are in order those its events cause; one ends with an open-failure exactly when it is denied while PENDING |
| AgpsNative.StepCalls | gps/gnss/Agps.cpp:73-309 | A step calls the framework at most once: it requests exactly when it enters PENDING, and releases exactly when an unsubscription gives up a connection asked for or held |
| AgpsNative.NeverStuck | gps/gnss/NativeAgpsHandler.cpp:140-162 | With WWAN_ANY requests, for every interleaving and every order of answers, PENDING and RELEASING always have the answer they wait for under way |
| AgpsNative.NeverStuckExactly | gps/gnss/NativeAgpsHandler.cpp:140-162 | For requests of every type: over a run the awaited answer is always under way if and only if no action strands the machine |
| AgpsNative.ActWaitsExactly | gps/gnss/NativeAgpsHandler.cpp:140-162 | One action keeps the awaited answer under way if and only if it does not strand the machine, a condition on the state before it |
| AgpsNative.StrandedByExactly | gps/gnss/Agps.cpp:73-309 | That condition holds exactly when the event enters PENDING or RELEASING with a type that is not answered |
| AgpsNative.DeliveriesSettle | gps/gnss/NativeAgpsHandler.cpp:140-162 | Once clients fall silent, a bounded number of deliveries in any order empties the queue and leaves RELEASED or ACQUIRED |
| AgpsNative.OnlyWwanIsAnswered | gps/gnss/NativeAgpsHandler.cpp:140-162 | A first request is answered if and only if its type is WWAN_ANY |
| AgpsNative.LaterTypeStrandsReleasing | gps/gnss/NativeAgpsHandler.cpp:140-162 | A run whose first request is answered and that ends in RELEASING with no message under way |
| AgpsNative.UnansweredStays | gps/gnss/NativeAgpsHandler.cpp:140-162 | With no message under way the machine stays as it is whatever the environment does |
| AgpsNative.FeedPosts | gps/gnss/NativeAgpsHandler.cpp:140-162 | What an event posts: the close for a release, and for a request an open or a failure by connectivity, each only for WWAN_ANY |
| AgpsNative.OutcomeFollowsConnectivity | gps/gnss/NativeAgpsHandler.cpp:83-162 | Over every run that ends settled, who asks next is granted the connection if and only if the latest change of connectivity said so |
| AgpsMachine.AgpsStateMachine.ProcessAgpsEventSubscribe | gps/gnss/Agps.cpp:73-107 | New state, list and outputs are those of the subscribe step |
| AgpsMachine.AgpsStateMachine.ProcessAgpsEventUnsubscribe | gps/gnss/Agps.cpp:109-171 | The same for unsubscribe |
| AgpsMachine.AgpsStateMachine.ProcessAgpsEventGranted | gps/gnss/Agps.cpp:173-194 | The same for a granted connection |
| AgpsMachine.AgpsStateMachine.ProcessAgpsEventReleased | gps/gnss/Agps.cpp:196-241 | The same for a released connection |
| AgpsMachine.AgpsStateMachine.ProcessAgpsEventDenied | gps/gnss/Agps.cpp:243-283 | The same for a denied connection |
| AgpsMachine.AgpsStateMachine.NotifyAllSubscribers | gps/gnss/Agps.cpp:311-344 | The erasing loop sends one notice to each chosen subscriber in order, and leaves the others |
| AgpsMachine.AgpsStateMachine.AddSubscriber | gps/gnss/Agps.cpp:393-412 | Adds a subscriber unless its handle is listed |
| AgpsMachine.AgpsStateMachine.DeleteSubscriber | gps/gnss/Agps.cpp:414-431 | The erasing loop removes every subscriber of the handle and nothing else |
| AgpsMachine.AgpsStateMachine.AnyActiveSubscribers | gps/gnss/Agps.cpp:433-443 | Says whether some subscriber is active |
| AgpsMachine.AgpsStateMachine.DropAllSubscribers | gps/gnss/Agps.cpp:496-507 | Empties the list without a notice |
| AgpsMachine.AgpsManager.GetAgpsStateMachine | gps/gnss/Agps.cpp:538-562 | WWAN_ANY goes to the internet machine, SUPL and SUPL_ES to the AGNSS machine |
| AgpsMachine.AgpsManager.EffectiveType | gps/gnss/Agps.cpp:564-599 | An emergency request stays one only with a PDN for it, every other type is kept, and the request goes to the same machine |
| AgpsMachine.AgpsManager.OwnerOf | gps/gnss/Agps.cpp:601-627 | The owner lists the handle; it is the AGNSS machine unless that does not list it, and none only if neither does |
| AgpsMachine.AgpsManager.RequestATL | gps/gnss/Agps.cpp:564-599 | One machine takes the subscribe step and the other is unchanged, and a release of the handle will find it; with no machine the request fails |
| AgpsMachine.AgpsManager.ReleaseATL | gps/gnss/Agps.cpp:601-627 | The machine that lists the handle takes the unsubscribe step, the other is unchanged |
| AgpsMachine.AgpsManager.ReportAtl | gps/gnss/Agps.cpp:629-670 | The machine of the type takes the step of the answer |
| AgpsMachine.AgpsManager.HandleModemSSR | gps/gnss/Agps.cpp:672-683 | Both machines drop their subscribers and keep their states |
| AgpsMachine.NativeAgpsHandler.NotifyItems | gps/gnss/NativeAgpsHandler.cpp:84-104 | Connectivity and APN are those of the last item |
| AgpsMachine.NativeAgpsHandler.ProcessATLRequestRelease | gps/gnss/NativeAgpsHandler.cpp:140-162 | Posts exactly the answer for the type and the connectivity |
| TrackingModel.EngineCoversEverySession | gps/gnss/GnssAdapter.cpp:2824-3627 | Over every run, distance-based sessions included, a running engine is at least as fast as every session asks, runs at the minimum interval while N-Hz is needed for some session, and does so whenever it is flagged as already at the highest rate; without distance tracking in the engine, switches must be safe |
| TrackingModel.RestartIsExact | gps/gnss/GnssAdapter.cpp:2880-2915 | Without N-Hz, whichever command starts the engine makes its interval exactly the minimum of all sessions, the starting session being new |
| TrackingModel.StepKeepsInv | gps/gnss/GnssAdapter.cpp:3187-3627 | Every command keeps the coverage invariant |
| TrackingModel.OneResponsePerCommand | gps/gnss/GnssAdapter.cpp:3146-3618 | Over every run, failed distance calls included, the accepted start, update and stop commands are, with multiplicity, those answered, those an engine or distance callback will answer, and those of a restart that could not stop its session |
| TrackingModel.StepConservesResponses | gps/gnss/GnssAdapter.cpp:3146-3618 | The same for one command: only the failed stop of a restart loses a response |
| TrackingModel.UnsupportedSwitchExactly | gps/gnss/GnssAdapter.cpp:3344-3618 | Without distance tracking, switching a session leaves all covered in whatever order they are looked at, if and only if it is the only one, or N-Hz is needed, or another asks for as short an interval, or the engine is not called and is fast enough |
| TrackingModel.UnsupportedSwitchUncovers | gps/gnss/GnssAdapter.cpp:3344-3438 | A run of three commands that leaves a session uncovered |
| TrackingModel.UnsupportedSwitchStopsEngine | gps/gnss/GnssAdapter.cpp:3344-3438 | The only session of the adapter is then listed as tracking with the engine stopped |
| TrackingLists.StepKeepsTidyExactly | gps/gnss/GnssAdapter.cpp:3320-3618 | A running engine keeps some time-based session if and only if the command does not take the only one out of the list without the engine being told |
| TrackingLists.EngineStopsWithLastSession | gps/gnss/GnssAdapter.cpp:3320-3618 | The same throughout a run |
| TrackingLists.EngineLeftRunning | gps/gnss/GnssAdapter.cpp:3366-3545 | A run of nine commands, every call succeeding and answered in order, that leaves the engine running with no time-based session and no answer outstanding |
| TrackingLists.FailedRestartIsNotAnswered | gps/gnss/GnssAdapter.cpp:3413-3431 | A run of four commands after which no callback is outstanding and one of the two commands that want a response has none |
| TrackingLists.StepListsOnceExactly | gps/gnss/GnssAdapter.cpp:3015-3047 | Sessions stay listed by time or by distance but not both, if and only if the command saves none that is in the other list |
| TrackingLists.ListedOnceOverRuns | gps/gnss/GnssAdapter.cpp:3109-3554 | The same throughout a run |
| TrackingLists.SessionListedTwice | gps/gnss/GnssAdapter.cpp:3366-3429 | A run of seven commands that lists a session both by time and by distance |
| TrackingLists.EntriesExactly | gps/gnss/GnssAdapter.cpp:3109-3554 | As long as sessions are listed once, the two lists are one map from sessions to how they are listed, and each command changes just the entry of its own session |
| TrackingEngine.StepRunsExactly | gps/gnss/GnssAdapter.cpp:2824-3627 | A command leaves the engine running for the time-based sessions if and only if it neither suspends them nor asks for a distance for the only one without support; a restart makes it run |
| TrackingEngine.RestartRunsExactly | gps/gnss/GnssAdapter.cpp:2824-2915 | After a resumption or a change of the N-Hz need the engine runs if there are sessions, at the minimum tracking interval for N-Hz, and else at the smallest interval of the sessions |
| TrackingEngine.SuspendThenResume | gps/gnss/GnssAdapter.cpp:2824-2878 | Suspending stops the engine and keeps the sessions, and resuming runs it for them |
| TrackingEngine.EngineRunsSince | gps/gnss/GnssAdapter.cpp:2824-3627 | Over every run, from the start or from a restart, the engine runs for the time-based sessions at every later moment until a command stops it |
| TrackingEngine.StoppedBy | gps/gnss/GnssAdapter.cpp:2864-2878 | And a command that stops it leaves it stopped with sessions listed |
| TrackingEngine.RestartOverRuns | gps/gnss/GnssAdapter.cpp:2824-2915 | Over every run with safe switches a restart runs the engine at the minimum, N-Hz being needed exactly if it was asked for last |
| TrackingEngine.QuietAtHighest | gps/gnss/GnssAdapter.cpp:282-304 | Once a restart has put the engine at the minimum interval for N-Hz, a session that starts makes no engine call |
| TrackingMultiplexer.Multiplexer.StartTrackingCommand | gps/gnss/GnssAdapter.cpp:3109-3185 | An accepted start, by time or by distance, is a step of the relation; a rejected one changes nothing |
| TrackingMultiplexer.Multiplexer.StartTimeBasedTrackingMultiplex | gps/gnss/GnssAdapter.cpp:3187-3249 | The engine is called if and only if the session is faster than all others, below their power mode or above their quality |
| TrackingMultiplexer.Multiplexer.FindNeeds | gps/gnss/GnssAdapter.cpp:3199-3222 | The loop finds the smallest interval, the power mode and a quality of the sessions |
| TrackingMultiplexer.Multiplexer.Admitted | gps/gnss/GnssAdapter.cpp:3357-3365 | The interval is not below the minimum, and M4 falls back to M2 exactly for a time between measurements above the threshold |
| TrackingMultiplexer.Multiplexer.UpdateTrackingOptionsCommand | gps/gnss/GnssAdapter.cpp:3320-3438 | An accepted update of a time-based or distance-based session is a step of the relation; a rejected one is answered |
| TrackingMultiplexer.Multiplexer.FindOthers | gps/gnss/GnssAdapter.cpp:3574-3593 | The loop finds the smallest interval and the power mode of the sessions other than the given one |
| TrackingMultiplexer.Multiplexer.UpdateTrackingMultiplex | gps/gnss/GnssAdapter.cpp:3440-3502 | The engine is called if and only if interval or power mode change and the session is then faster than all others, below their power mode, or alone |
| TrackingMultiplexer.Multiplexer.StopTrackingCommand | gps/gnss/GnssAdapter.cpp:3504-3554 | An accepted stop of a time-based or distance-based session is a step of the relation; a rejected one is answered |
| TrackingMultiplexer.Multiplexer.StopTimeBasedTrackingMultiplex | gps/gnss/GnssAdapter.cpp:3556-3618 | Stops the engine for the last session; otherwise restarts it for the sessions that remain exactly when the stopping session was below them in interval or power mode |
| TrackingMultiplexer.Multiplexer.DistanceCallback | gps/gnss/GnssAdapter.cpp:3146-3545 | The answer, success or failure, to any outstanding distance call is a step of the relation |
| TrackingMultiplexer.Multiplexer.SaveTrackingSession | gps/gnss/GnssAdapter.cpp:3015-3030 | A session is saved by distance exactly when it asks for one and the engine supports it |
| TrackingMultiplexer.Multiplexer.EraseTrackingSession | gps/gnss/GnssAdapter.cpp:3032-3047 | A session is erased from the time-based list first |
| TrackingMultiplexer.Multiplexer.CheckAndRestartSPESession | gps/gnss/GnssAdapter.cpp:2847-2915 | Restarts the engine for the minimum of all sessions |
| TrackingMultiplexer.Multiplexer.CheckAndSetSPEToRunForNHz | gps/gnss/GnssAdapter.cpp:282-304 | When the engine need not be called, and with what interval it is |
| TrackingMultiplexer.Multiplexer.UpdateNHzRequirement | gps/gnss/GnssAdapter.cpp:7095-7111 | A change of the N-Hz need is a step of the relation |
| TrackingMultiplexer.Multiplexer.RestartSessions | gps/gnss/GnssAdapter.cpp:2824-2845 | A restart after suspension or modem restart is a step of the relation |
| TrackingMultiplexer.Multiplexer.SuspendSessions | gps/gnss/GnssAdapter.cpp:2864-2878 | Suspension is a step of the relation |
| GpsLock.PostedLockFollowsLocation | gps/gnss/GnssAdapter.cpp:3734-3835 | Over every run from a lock with MO set, the last lock sent to the modem has MO clear exactly when location is enabled; in Q it is the stored lock, in P it is NONE when enabled and the stored mask when disabled |
| GpsLock.QPostedLock | gps/gnss/GnssAdapter.cpp:6255-6299 | In Q the last lock sent is MO if location is disabled plus the latest NFW control bits |
| GpsLock.RegimeChangesAtMostOnce | gps/gnss/GnssAdapter.cpp:1482-1512 | The regime is Q if and only if no configuration update has given a mask, so P is never left |
| GpsLock.NfwBitLockedIffUnowned | gps/gnss/GnssAdapter.cpp:6240-6253 | An NFW bit stays locked if and only if no enabled package owns it, whatever the order of packages |
| GpsLock.StepKeepsLockInv | gps/gnss/GnssAdapter.cpp:3734-3835 | Every event keeps the invariant of the lock |
| GpsLock.HolderExactly | gps/gnss/GnssAdapter.cpp:3734-3835 | A session holds location if and only if its enabling was accepted while nobody held it and it was not disabled since |
| GpsLock.ControlIdIsHolder | gps/gnss/GnssAdapter.cpp:3734-3835 | Over every run the control id is that session, told from the events alone |
| GpsLock.PostedExactly | gps/gnss/GnssAdapter.cpp:3734-3835 | Over every run the locks sent to the modem are exactly those the events want, one for each accepted enabling, matching disabling, NFW control in Q, update that bears on the modem, and modem restart |
| GpsLock.DisableLocksEnableUnlocks | gps/gnss/GnssAdapter.cpp:3734-3835 | A matching disable sends one lock with MO set and frees the control id, an accepted enable one with MO clear |
| GpsLock.LockControl.EnableCommand | gps/gnss/GnssAdapter.cpp:3734-3787 | Lock, regime, control id and posted lock after an enable |
| GpsLock.LockControl.DisableCommand | gps/gnss/GnssAdapter.cpp:3791-3835 | The same after a disable |
| GpsLock.LockControl.GetNfwControlBits | gps/gnss/GnssAdapter.cpp:6240-6253 | The loop over the enabled packages computes the control bits |
| GpsLock.LockControl.NfwControlCommand | gps/gnss/GnssAdapter.cpp:6255-6299 | The same after NFW control |
| GpsLock.LockControl.GnssUpdateConfigCommand | gps/gnss/GnssAdapter.cpp:1482-1512 | The same after a configuration update |
| GpsLock.LockControl.SetConfig | gps/gnss/GnssAdapter.cpp:1075-1079 | The same after a modem restart |
| SvBlacklist.MasksRoundTrip | gps/gnss/GnssAdapter.cpp:1905-2095 | For every six 64-bit masks, masks to list to masks gives back the same masks, all-bits masks and both SBAS ranges included |
| SvBlacklist.ListRoundTrip | gps/gnss/GnssAdapter.cpp:1905-2095 | List to masks to list blocks the same satellites, whatever the order and duplicates |
| SvBlacklist.UndefinedExactlyForHighSbas | gps/gnss/GnssAdapter.cpp:1905-2007 | The conversion is undefined exactly for SBAS ids 208 to 246; elsewhere the range checks accept exactly the satellites of the masks |
| SvBlacklist.ParseBlocks | gps/gnss/GnssAdapter.cpp:1905-2007 | Reading a list into masks adds exactly the satellites that the list blocks |
| SvBlacklist.PrintBlocks | gps/gnss/GnssAdapter.cpp:2009-2055 | The printed list blocks exactly the satellites whose bit is set |
| SvBlacklist.SuccessMeansSomethingBlocked | gps/gnss/GnssAdapter.cpp:1905-2007 | From cleared masks the conversion succeeds if and only if the list blocks some satellite |
| SvBlacklist.ConvertToGnssSvIdConfig | gps/gnss/GnssAdapter.cpp:1905-2007 | The loop computes the masks, says whether it succeeded, and stops at an undefined shift |
| SvBlacklist.ConvertGnssSvIdMaskToList | gps/gnss/GnssAdapter.cpp:2057-2095 | The loop appends one id for each bit, or id 0 for all bits |
| SvBlacklist.ConvertFromGnssSvIdConfig | gps/gnss/GnssAdapter.cpp:2009-2055 | The six conversions one after the other give the printed list |
| SvBlacklist.LowSbasBits | gps/gnss/GnssAdapter.cpp:2031-2050 | Shifting left and back keeps the low 39 bits and drops the others |
| SvBlacklist.OneSatellite | gps/gnss/GnssAdapter.cpp:1905-2007 | A list of one satellite gives one bit in one mask |
| SvBlacklist.FirstIds | gps/gnss/GnssAdapter.cpp:1905-2007 | Which id is the lowest bit of which mask |
| SetMap.LocUnorderedSetMap.TrimOrRemove | gps/utils/LocUnorderedSetMap.h:88-153 | What the loop leaves, which entries it empties and which values it takes out |
| SetMap.LocUnorderedSetMap.Add | gps/utils/LocUnorderedSetMap.h:157-186 | What the loop leaves, and which entries are new |
| SetMap.LocUnorderedSetMap.Update | gps/utils/LocUnorderedSetMap.h:188-201 | Puts the new set in place, and returns what old and new have in common; defined exactly when that is nothing |
| SetMap.RemoveAndReturnInterset | gps/utils/LocUnorderedSetMap.h:66-79 | Takes the common elements out of both sets; the source loop is defined exactly when there are none |
| SetMap.TrimSet | gps/utils/LocUnorderedSetMap.h:52-60 | Takes a set out of another, one by one |
| SetMap.KeysAfter | gps/utils/LocUnorderedSetMap.h:134-186 | The keys reported as gone or new are exactly the difference the edit makes |
| SubscriptionIndex.AgreementOverRuns | gps/core/SystemStatusOsObserver.cpp:59-264 | Over every run in which updates come from clients without items, the two maps are exact converses with no empty entry |
| SubscriptionIndex.StepKeepsAgreement | gps/core/SystemStatusOsObserver.cpp:89-264 | A handler keeps the agreement if and only if it is not an update by a client that has items |
| SubscriptionIndex.UpdateAgreesExactlyForNewcomers | gps/core/SystemStatusOsObserver.cpp:134-197 | updateSubscription keeps the agreement if and only if the client had no item before |
| SubscriptionIndex.UpdatedIndex | gps/core/SystemStatusOsObserver.cpp:142-186 | What updateSubscription does to both maps, item by item |
| SubscriptionIndex.UpdateToSameItemsSilences | gps/core/SystemStatusOsObserver.cpp:142-186 | A client that updates to the items it has gets no report afterwards |
| SubscriptionIndex.UpdateBreaksAgreement | gps/core/SystemStatusOsObserver.cpp:142-186 | The shortest run that breaks the agreement |
| SubscriptionIndex.AnnouncedAreTheKeys | gps/core/SystemStatusOsObserver.cpp:59-264 | Over every run, once there is a subscription object, the items it was told to subscribe to or asked for, and not since told to drop, are the keys of the map of items |
| SubscriptionIndex.SubscribedExactly | gps/core/SystemStatusOsObserver.cpp:59-264 | Over every run, the keys that the framework was not told to subscribe to are exactly those whose entry was made by asking for data; all are subscribed if and only if there is none |
| SubscriptionIndex.AskedButNotSubscribed | gps/core/SystemStatusOsObserver.cpp:59-140 | The shortest run with an item in the map that the framework was not told to subscribe to |
| SubscriptionIndex.LaterSubscriptionMakesNoCall | gps/core/SystemStatusOsObserver.cpp:100-118 | A subscription to items that are in the map makes no call to the framework |
| SubscriptionIndex.NotifyReachesExactlySubscribers | gps/core/SystemStatusOsObserver.cpp:292-325 | With the maps in agreement a report goes to exactly the clients subscribed to some accepted item, each with exactly the accepted items it subscribes to and their latest values |
| SubscriptionIndex.DeliveriesOverRuns | gps/core/SystemStatusOsObserver.cpp:280-353 | The same over runs |
| SubscriptionIndex.CacheHoldsLatest | gps/core/SystemStatusOsObserver.cpp:525-553 | After a report the cache holds the latest accepted value of every item, and others are unchanged |
| SubscriptionHistory.ClientsHaveTheirItems | gps/core/SystemStatusOsObserver.cpp:89-275 | Over every run the map of clients holds for each client the items it has by the events alone: gained by subscribing, lost by unsubscribing, replaced by an update |
| SubscriptionHistory.ItemsHaveTheirClients | gps/core/SystemStatusOsObserver.cpp:89-275 | Over every run whose updates come from newcomers the map of items lists for each item exactly the clients that have it |
| SubscriptionHistory.FirstAnswer | gps/core/SystemStatusOsObserver.cpp:497-523 | Over every run a client that subscribes or updates is sent at once the latest values reported of the items new to the call, and nobody else is sent anything |
| SubscriptionHistory.ReportsReachTheirClients | gps/core/SystemStatusOsObserver.cpp:280-353 | Over every run by newcomers a report goes to exactly the clients that have some accepted item, with the latest values of those they have |
| SubscriptionHistory.UnsubscribeTellsFramework | gps/core/SystemStatusOsObserver.cpp:200-275 | Over every run by newcomers an unsubscription tells the framework to drop exactly the items given up that nobody else has |
| SubscriptionHistory.NewObjectHearsAll | gps/core/SystemStatusOsObserver.cpp:59-84 | A new subscription object is told to subscribe to, and asked for, exactly the items that somebody has |
| SystemStatusOsObserver.OsObserver.SetSubscriptionObj | gps/core/SystemStatusOsObserver.cpp:59-84 | New maps, object and framework calls are those of the step |
| SystemStatusOsObserver.OsObserver.SubscribeOrRequest | gps/core/SystemStatusOsObserver.cpp:89-132 | The same for subscribe and requestData, with what the client is sent |
| SystemStatusOsObserver.OsObserver.UpdateSubscription | gps/core/SystemStatusOsObserver.cpp:134-197 | The same for updateSubscription; defined exactly when the client keeps no item |
| SystemStatusOsObserver.OsObserver.Unsubscribe | gps/core/SystemStatusOsObserver.cpp:200-236 | The same for unsubscribe |
| SystemStatusOsObserver.OsObserver.UnsubscribeAll | gps/core/SystemStatusOsObserver.cpp:238-275 | The same for unsubscribeAll |
| SystemStatusOsObserver.OsObserver.Notify | gps/core/SystemStatusOsObserver.cpp:280-353 | The same for notify: what is cached and what each client is sent |
| SystemStatusOsObserver.OsObserver.SendCachedDataItems | gps/core/SystemStatusOsObserver.cpp:497-523 | A client is sent the cached items of a set, and is not called for none |
| AdapterArray.RunRefinesSet | gps/core/LocApiBase.cpp:236-281 | Over every run the array holds at most ten distinct adapters, as a set exactly those added and not since removed |
| AdapterArray.CloseExactlyWhenEmptied | gps/core/LocApiBase.cpp:247-281 | A close is sent exactly by the calls that empty the set |
| AdapterArray.LatestMessageTellsWhetherAnyLeft | gps/core/LocApiBase.cpp:236-281 | Over every run nothing was sent yet or the latest message is a close exactly when nobody is left |
| AdapterArray.MessagesExactly | gps/core/LocApiBase.cpp:236-281 | Over every run the messages are exactly those the set calls for: a newcomer is named, the last to leave closes, and else the mask is sent anew |
| AdapterArray.SwapRemovedMembers | gps/core/LocApiBase.cpp:252-281 | Removal by swapping with the last takes out one adapter and keeps the others distinct |
| AdapterArray.LocApiBase.AddAdapter | gps/core/LocApiBase.cpp:236-245 | The loop on the array adds at the end unless present or full |
| AdapterArray.LocApiBase.RemoveAdapter | gps/core/LocApiBase.cpp:247-281 | The loop whose index is reused inside ends after one removal |
| AdapterArray.LocApiBase.GetEvtMask | gps/core/LocApiBase.cpp:172-179 | The mask is the union of the adapters' masks without the excluded bits |
| ElapsedRealtime.EstimatesTelescope | gps/core/LocApiBase.cpp:942-992 | After calibration and without a jump, the estimates of any two trusted calls differ by exactly the difference of their data times |
| ElapsedRealtime.CalibratesOnTheSixth | gps/core/LocApiBase.cpp:942-992 | Calibration happens on the sixth trusted call and not before, counting the one that found the jump; up to it the travel time is the default |
| ElapsedRealtime.WallClockIsIrrelevant | gps/core/LocApiBase.cpp:942-992 | Runs that differ only in the wall clock give the same estimates |
| ElapsedRealtime.EstimateExactly | gps/core/LocApiBase.cpp:942-992 | Over every run each estimate is known from the calls alone: the default travel time for the first six trusted calls since a jump of the data time, and after these the data time counted from the sixth |
| ElapsedRealtime.BootTimeError | gps/core/LocApiBase.cpp:1137-1151 | For nonnegative tick counts the boot time is off by less than 10000 ns |
| ElapsedRealtime.TickError | gps/core/LocApiBase.cpp:1144-1150 | A truncated conversion of ticks errs by at least 0 and less than 10000 ns |
| ElapsedRealtime.ShiftedOrigin | gps/core/LocApiBase.cpp:1137-1151 | Shifting GPS time by k ms, week rollover included, shifts the boot time by k million ns |
| ElapsedRealtime.UsableExactly | gps/core/LocApiBase.cpp:1100-1136 | A report is of no use without a GPS time, with an unknown week, without a valid clock uncertainty, or with one of 20 ms or more, and otherwise it is |
| ElapsedRealtime.SameMoment | gps/core/LocApiBase.cpp:1137-1151 | A fix taken when the pair was read has the present boot time, less 10000 ns for every 192 ticks that have passed |
| ElapsedRealtime.ElapsedRealtimeEstimator.GetElapsedRealtimeEstimateNanos | gps/core/LocApiBase.cpp:942-992 | State and result are those of the step; a failed clock gives -1 |
| ElapsedRealtime.ElapsedRealtimeEstimator.GetElapsedRealtimeForGpsTime | gps/core/LocApiBase.cpp:1100-1167 | Uses the measurement pair before the PVT pair, gives its boot time and uncertainty, and succeeds exactly for a usable report and a positive boot time |
| ElapsedRealtime.ElapsedRealtimeEstimator.Reset | gps/core/LocApiBase.cpp:994-1002 | The state of a new estimator |
| NetworkTable.RunRefinesMap | gps/core/SystemStatus.h:533-606 | Over every sequence of collations the table stays packed and distinct and holds exactly the map of the abstract rule |
| NetworkTable.CollateRefines | gps/core/SystemStatus.h:533-606 | The same for one collation |
| NetworkTable.FirstRepresents | gps/core/data-items/DataItemConcreteTypes.h:319-336 | The table of the first report is packed and represents its own handle |
| NetworkTable.HistoryEndsWithFold | gps/core/SystemStatus.cpp:1539-1557 | The bounded history always ends with the bits, table, connection flag and APN that collating every item would give |
| NetworkTable.NoBitWithoutHandle | gps/core/SystemStatus.h:548-603 | A collation leaves no type bit without a live handle if and only if the bit of a connecting item is backed |
| NetworkTable.NoBitWithoutHandleOverRuns | gps/core/SystemStatus.h:548-603 | The same over runs |
| NetworkTable.RoomAndFixedTypeSuffice | gps/core/SystemStatus.h:548-565 | Room and one type per handle are enough for that |
| NetworkTable.HistoryHasNoDanglingBit | gps/core/SystemStatus.h:533-606 | Over every sequence of reports in which typed items have a handle, no handle has two types and the handles are at most ten, no type bit of the last stored report is without a live handle |
| NetworkTable.DisconnectRemovesExactly | gps/core/SystemStatus.h:566-603 | A disconnect takes out its handle exactly when the handle is stored with the raw type of the disconnect |
| NetworkTable.FirstHandleIsNeverRemoved | gps/core/data-items/DataItemConcreteTypes.h:319-336 | The handle of a first report of the framework stays in the table over every run |
| NetworkTable.ApnExactly | gps/core/SystemStatus.h:533-547 | Over every sequence of reports the APN is the first one given from the latest mobile report on, and connection, handle and raw type are those of the latest report |
| NetworkTable.ConnectionsAddBits | gps/core/SystemStatus.h:548-565 | Any sequence of connections leaves the bits there were and those of its items |
| NetworkTable.ConnectionsHaveTheirBits | gps/core/SystemStatus.h:548-565 | The same from the first report on |
| NetworkTable.DisconnectBitsExactly | gps/core/SystemStatus.h:566-603 | Which bits a disconnect leaves, by whether another handle of the map has its raw type |
| NetworkTable.ConnectThenDisconnect | gps/core/SystemStatus.h:548-603 | A handle that connects and disconnects under a raw type of its own leaves bits and table as they were |
| NetworkReports.SystemStatusNetworkInfo.Collate | gps/core/SystemStatus.h:533-606 | The report edits its copy of the table, its type bits and its APN as the collation says |
| NetworkReports.SystemStatusNetworkInfo.InsertHandle | gps/core/SystemStatus.h:550-565 | The loop on the array inserts at the first free entry unless the handle is there |
| NetworkReports.SystemStatusNetworkInfo.RemoveHandle | gps/core/SystemStatus.h:567-596 | The loop removes by swapping with the last entry in use, and counts the other handles of the type |
| NetworkReports.SystemStatus.SetItemInReport | gps/core/SystemStatus.cpp:1539-1557 | A report that changes nothing is not stored; the history keeps five |
| GeofenceIndex.IndexOverRuns | gps/geofence/GeofenceAdapter.cpp:86-769 | Over every run with fresh keys and hardware ids, answers in any order: every key leads to a stored geofence with that key, and every stored geofence out of the index has an outstanding or failed removal |
| GeofenceIndex.StepKeepsInv | gps/geofence/GeofenceAdapter.cpp:86-769 | Every event keeps that invariant |
| GeofenceIndex.SaveNeedsFreeHardwareId | gps/geofence/GeofenceAdapter.cpp:686-704 | Saving keeps the index sound if and only if no other key leads to the hardware id |
| GeofenceIndex.RestartRestores | gps/geofence/GeofenceAdapter.cpp:182-218 | A restart brings a geofence back with key and configuration; its record is unchanged if and only if it was not paused |
| GeofenceIndex.SecondRestartForgetsPause | gps/geofence/GeofenceAdapter.cpp:182-218 | After a second restart a geofence that was paused is asked for without a pause and is not paused when it is added |
| GeofenceIndex.ComesBackExactly | gps/geofence/GeofenceAdapter.cpp:182-218 | After a restart and consent a geofence is newly in the index if and only if it was out of it, its removal then being outstanding or failed |
| GeofenceIndex.DepartedComesBack | gps/geofence/GeofenceAdapter.cpp:86-116 | The answer to the old removal of a departed client no longer takes the geofence out |
| GeofenceAnswers.RequestGoesOut | gps/geofence/GeofenceAdapter.cpp:361-685 | A request of a client goes to the modem with the hardware id its own id leads to, and changes nothing before the answer |
| GeofenceAnswers.RefusalChangesNothing | gps/geofence/GeofenceAdapter.cpp:249-685 | An answer that refuses leaves both maps as they are |
| GeofenceAnswers.RemovalTakesOutExactly | gps/geofence/GeofenceAdapter.cpp:706-729 | A granted removal takes out its geofence and no other, if the index still leads to it, and else changes nothing |
| GeofenceAnswers.ChangeTakesEffect | gps/geofence/GeofenceAdapter.cpp:731-769 | A granted pause, resumption or change shows in the record of its geofence and in nothing else |
| GeofenceAnswers.AddThenRemove | gps/geofence/GeofenceAdapter.cpp:686-729 | A granted addition is found under the client's own id, running; removing it again restores both maps |
| GeofenceAnswers.PauseThenResume | gps/geofence/GeofenceAdapter.cpp:731-750 | Pausing a running geofence and resuming it restores the record |
| GeofenceAnswers.StopForgetsClient | gps/geofence/GeofenceAdapter.cpp:86-116 | A departing client leaves the index at once, nobody else does, and every removal is asked for |
| GeofenceAnswers.DepartedGoes | gps/geofence/GeofenceAdapter.cpp:86-116 | A granted removal of such a geofence takes out its record |
| GeofenceAdapter.PartsPartitionReport | gps/geofence/GeofenceAdapter.cpp:830-862 | Each position of a known geofence is in the part of its owner, once and in order, and in no other part |
| GeofenceAdapter.IdsAreOfPositions | gps/geofence/GeofenceAdapter.cpp:841-850 | A client is sent exactly its part, under its own ids |
| GeofenceAdapter.ReportedIdsLeadBack | gps/geofence/GeofenceAdapter.cpp:830-862 | A reported id leads back through the index to the reported hardware id, unless the geofence is being removed |
| GeofenceAdapter.BreachReachesExactly | gps/geofence/GeofenceAdapter.cpp:830-862 | A client is notified if and only if it listens and owns some reported geofence, and is sent its part |
| GeofenceAdapter.Adapter.SaveGeofenceItem | gps/geofence/GeofenceAdapter.cpp:686-704 | Both maps after a save |
| GeofenceAdapter.Adapter.RemoveGeofenceItem | gps/geofence/GeofenceAdapter.cpp:706-729 | Both maps after a removal |
| GeofenceAdapter.Adapter.Answer | gps/geofence/GeofenceAdapter.cpp:98-109 | Both maps after the answer to any outstanding call |
| GeofenceAdapter.Adapter.StopClientSessions | gps/geofence/GeofenceAdapter.cpp:86-116 | The erasing loop takes the client out of the index and asks for the removals |
| GeofenceAdapter.Adapter.RestartGeofences | gps/geofence/GeofenceAdapter.cpp:182-218 | Both maps are cleared and every geofence is asked for again |
| GeofenceAdapter.Adapter.FillClientIds | gps/geofence/GeofenceAdapter.cpp:840-850 | The loop fills the buffer with the client's part of a report |
| GeofenceAdapter.Adapter.GeofenceBreach | gps/geofence/GeofenceAdapter.cpp:830-862 | One notification for each listening client that owns some of the report |
| TripLedger.LedgerOverRuns | gps/batching/BatchingAdapter.cpp:668-1037 | Over every run whose joins are safe each session's books match the odometer since it joined, modulo 2^32 |
| TripLedger.StepKeepsLedger | gps/batching/BatchingAdapter.cpp:668-1037 | An event keeps the ledger if and only if it is not an unsafe join |
| TripLedger.AccountedIsTravelled | gps/batching/BatchingAdapter.cpp:678-680 | The trip distance computed at a report or restart is the metres travelled since the session joined |
| TripLedger.JoinKeepsLedgerExactly | gps/batching/BatchingAdapter.cpp:788-860 | A join, with its query answered or not and its restart granted or refused, keeps the ledger if and only if it does not restart the batch, or every stored distance is up to date and, if the modem refuses, nothing was travelled in the batch |
| TripLedger.ConsentedJoinKeepsLedgerExactly | gps/batching/BatchingAdapter.cpp:788-860 | A join that restarts the batch with the modem's consent keeps the ledger if and only if the stored distance of every session is the metres travelled |
| TripLedger.RestartingJoinLosesMetres | gps/batching/BatchingAdapter.cpp:839-860 | A run in which 400 m are lost |
| TripLedger.RestartKeepsLedger | gps/batching/BatchingAdapter.cpp:1014-1037 | A restart folds the batch into every session, which is then up to date |
| TripLedger.ReportEndsExactlyTheCompleted | gps/batching/BatchingAdapter.cpp:668-707 | A report ends exactly the sessions whose distance has been travelled, and leaves the others up to date |
| TripLedger.SentinelFindsMinimum | gps/batching/BatchingAdapter.cpp:957-973 | With no completed session the loop that uses zero for none finds the true, positive minimum without wrap |
| TripLedger.SentinelFindsMinimumExactly | gps/batching/BatchingAdapter.cpp:957-973 | For every list the loop finds the least remaining distance if and only if no session is past its distance, and one exactly at it is the last |
| TripLedger.SentinelWrapsPastCompletion | gps/batching/BatchingAdapter.cpp:957-973 | With a session past its distance still listed the loop misses the minimum, whatever else is listed |
| TripLedger.RestartOnTimeExactly | gps/batching/BatchingAdapter.cpp:934-1039 | For every state with balanced books: after restartTripBatching the batch ends no later than the first session has travelled its distance, if and only if the plan made from stored distances does against what really remains |
| TripLedger.UpToDateRestartOnTime | gps/batching/BatchingAdapter.cpp:975-1037 | With every session up to date and unfinished only a restart for the interval alone can be late |
| TripLedger.StopRestartsLate | gps/batching/BatchingAdapter.cpp:895-919 | A run in which a stop restarts the batch for 1000 m with 700 m left |
| TripLedger.IntervalRestartsLate | gps/batching/BatchingAdapter.cpp:1007-1012 | A run in which a restart for the interval keeps 1000 m with 600 m left |
| TripSessions.ListedExactly | gps/batching/BatchingAdapter.cpp:668-920 | After an event exactly those trips are listed that a consented start adds, a stop takes out, and a report has not found arrived |
| TripSessions.ReportBringsUpToDate | gps/batching/BatchingAdapter.cpp:668-707 | After a report every listed trip has stored what it has travelled |
| TripSessions.OdometerAndIdleBatch | gps/batching/BatchingAdapter.cpp:668-1037 | Over every run with no trip listed no batch distance and interval are on record |
| TripSessions.MinTbfExactly | gps/batching/BatchingAdapter.cpp:957-973 | The loop finds the interval of some trip, and the least one if and only if a zero interval, if there is one, comes last |
| TripSessions.ChangedIntervalExactly | gps/batching/BatchingAdapter.cpp:1007-1037 | A consented restart that changes the interval gives the batch the least interval of the listed trips if and only if the loop has found it |
| TripSessions.StepIsFastExactly | gps/batching/BatchingAdapter.cpp:668-1037 | An event keeps the batch fast enough for every listed trip if and only if it does not restart it for an interval that is not the least one |
| TripSessions.FastOverRuns | gps/batching/BatchingAdapter.cpp:668-1037 | The same throughout a run, refusals of the modem included |
| TripSessions.ZeroIntervalSlowsDown | gps/batching/BatchingAdapter.cpp:957-973 | A run of four events with zero intervals that slows the batch down |
| TripSessions.IntervalIsLeast | gps/batching/BatchingAdapter.cpp:668-1037 | Over every run with positive intervals and a modem that agrees the batch has exactly the least interval of the listed trips |
| TripSessions.NewBatchEndsWithTheFirst | gps/batching/BatchingAdapter.cpp:975-1037 | With every session up to date a restart for a new distance ends the batch exactly when the first session arrives |
| TripSessions.StopReplacesDistance | gps/batching/BatchingAdapter.cpp:895-1005 | When the trip that the batch had its distance from stops, the batch gets the least distance the others have stored as remaining |
| TripSessions.ReportReplacesDistance | gps/batching/BatchingAdapter.cpp:668-1005 | When it is completed, the batch gets the least distance that really remains |
| TripSessions.StartIsOnTime | gps/batching/BatchingAdapter.cpp:760-860 | A consented start or join keeps the batch ending in time for every trip, unless it was overdue |
| BatchingAdapter.Adapter.ReportCompletedTrips | gps/batching/BatchingAdapter.cpp:668-707 | New sessions, flags and completed ids are those of the step |
| BatchingAdapter.Adapter.BookDistance | gps/batching/BatchingAdapter.cpp:674-699 | The erasing loop books every session, erases the completed ones and sets the flags; defined exactly when none is completed |
| BatchingAdapter.Adapter.RestartTripBatching | gps/batching/BatchingAdapter.cpp:934-1039 | New sessions and batch parameters are those of the step |
| BatchingAdapter.Adapter.Minima | gps/batching/BatchingAdapter.cpp:957-973 | The loop over the sessions computes both minima with their zero sentinels |
| BatchingAdapter.Adapter.StartTripBatching | gps/batching/BatchingAdapter.cpp:755-863 | The same for a first trip and for a join, its query answered or not |
| BatchingAdapter.Adapter.StopTripBatching | gps/batching/BatchingAdapter.cpp:866-919 | The same for a stop |
| DeferredMessages.CommandsConserved | gps/gnss/GnssAdapter.cpp:2798-2816 | At every step gated commands sent are executed, queued or pending, each held back at most as often as sent, none executed before the capabilities are known, none pending after |
| DeferredMessages.ExecutionOrder | gps/batching/BatchingAdapter.cpp:177-190 | Commands held back keep their order and so do the others; exactly those queued when the engine first came up go before them |
| DeferredMessages.OrderKeptExactly | gps/batching/BatchingAdapter.cpp:177-190 | Distinct commands are executed in the order they were sent if and only if none was held back, or none was queued when the engine first came up |
| DeferredMessages.LaterCommandOvertakes | gps/batching/BatchingAdapter.cpp:177-190 | The shortest run, from an engine that is not up, in which a later command is executed first |
| DeferredMessages.NewsArrives | gps/gnss/GnssAdapter.cpp:2798-2816 | The capabilities are known or the news is still queued, exactly if they were known or the news has been sent |
| DeferredMessages.AllExecuted | gps/gnss/GnssAdapter.cpp:2798-2816 | With the news sent and the queue empty every command has been executed as often as it was sent |
| DeferredMessages.QueueEmpties | gps/gnss/GnssAdapter.cpp:2812-2815 | A bounded number of turns empties the queue, replayed messages included |
| DeferredMessages.IdsRepeatExactly | gps/core/LocAdapterBase.cpp:99-107 | Session ids are never zero, and two are equal exactly when the number of ids between them is a multiple of 2^32 - 2 |
| DeferredMessages.LocAdapter.HandleOne | gps/core/LocAdapterBase.cpp:469-478 | Queue, pending list and knowledge after one message |
| DeferredMessages.LocAdapter.ReplayPending | gps/gnss/GnssAdapter.cpp:2812-2815 | The loop sends the pending messages again in order and clears them |
| DeferredMessages.LocAdapter.GenerateSessionId | gps/core/LocAdapterBase.cpp:99-107 | The next id of the counter |

## Left out

- Logging, configuration files, dynamic loading, sockets, DNS, NI timers and QMI calls: posted outputs or answers of the environment.
- Field-by-field conversions, the NMEA parser and floating-point position code: branch-by-branch copying.
- AGPS: APN, bearer, APN type mask and subscription id are not carried; a subscriber on the heap and the pointer to the current one are values, so freed memory is not modelled.
- AGPS: answers are delivered through the message queue; the synchronous re-entry of the machine for a malformed APN, and the extra PDN query, are not part of this model. Runs and the composition with the native handler are of the internet machine.
- Tracking: calls about the shared time-based session are taken to succeed, and calls about distance-based ones may fail; what a failed time-based call restores, the sessions of a removed client, and the power mode and quality that the engine is given are left out. The minimum tracking interval is a parameter, since it depends on the build.
- TrackingMultiplexer.Multiplexer.StartTrackingCommand: does not say that a rejected start is answered, because the code does not answer it.
- TrackingModel.RestartIsExact: leaves out a session that is listed already when it starts, and the switch that the engine does not support, because the engine may then not be at the minimum.
- GPS lock: masks are sets of bit numbers, and the observer of the XTRA client that is told of the lock is not modelled.
- Observer: turnOn and turnOff reference counts and the backhaul requests, which are easy; allocation failure; the type-specific part of a data item. SystemStatus decides by itself whether to accept an update.
- Adapter array: event masks are sets of bit numbers, and what an adapter answers is a function given to the call.
- Estimator: how the two time pairs are saved (gps/core/LocApiBase.cpp:1043-1098) is left out; 64-bit overflow is not modelled, the two clocks read together are an input, and the quiet-read loop (gps/core/LocApiBase.cpp:1170-1207) and the tick difference of dual-SoC devices (gps/core/LocApiBase.cpp:1004-1041) are left out.
- Network reports: completeness of the type mask is not claimed, because a disconnect with other handles of its type keeps only that type's bit (gps/core/SystemStatus.h:598-602). Report timestamps are not modelled.
- GeofenceIndex.IndexOverRuns: hardware ids and session ids are taken to be fresh, because the modem and the id counter give them out; SaveNeedsFreeHardwareId says why that is needed.
- Geofences: collective responses of add, remove, pause, resume and modify, of which some are never sent after a failure; a change of power state is a run of pauses or resumes. `stopClientSessions` without erasing would not end (gps/geofence/GeofenceAdapter.cpp:92-114); no caller asks for it.
- TripLedger.LedgerOverRuns: joins that are not safe are out of scope, because they break the ledger; restarts after suspension (gps/batching/BatchingAdapter.cpp:197-252) are left out.
- Trips: where the completion loop reads an erased session the values are those from before; a new session goes to the end of the list, as its id is the largest until ids wrap around.
- Deferred messages: what a command does, and the tracking commands that are deferred only when they ask for a distance.
- Iteration order: loops over hash sets and ordered maps take their elements in any order, so nothing is claimed that depends on it.
