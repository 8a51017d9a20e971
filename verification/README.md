# A verified model of the power manager

The power manager plugin changes a set-top box's power state. A change is a small protocol: the
plugin announces it, waits for the acknowledgement of every registered client, lets clients ask for
more time, and applies the change on the last acknowledgement or at a deadline, whichever comes
first. A newer request supersedes an older one. Around this core the plugin drives the box into and
out of deep sleep, watches its temperature, keeps its settings in a file, and has a client library
that subscribes to its notifications.

This project states what those parts do and proves what they promise, for every run and every input.

## How it is organised

| file | what it holds |
|---|---|
| `PowerTypes.dfy` | power states, error codes, the synchronous change |
| `AckController.dfy` | one transition: awaited clients, deadline, timer job, completion handler |
| `PowerProtocol.dfy` | the plugin's transition protocol as a step function over actions, with a log |
| `ProtocolHistory.dfy` | what a log says: a ledger with one entry for each transition |
| `ProtocolInvariants.dfy`, `ProtocolSteps.dfy` | what every action keeps, and what it adds to the ledger |
| `ProtocolTheorems.dfy` | the promises of the protocol over every run |
| `ProtocolActions.dfy` | exactly what each action does in every state of a run, field by field |
| `PowerManager.dfy` | the plugin object, each method refining one step of the protocol |
| `DeepSleepController.dfy` | activation, the retry loop, its abort points and its report |
| `PowerController.dfy`, `NetworkStandby.dfy` | applying a state; the standby flag and the wake-up sources |
| `Settings.dfy` | the byte format, and the state before the last reboot |
| `ThermalZones.dfy`, `ThermalDeclock.dfy`, `ThermalController.dfy` | the two zones, the declocking machine, the polling round |
| `Subscriptions.dfy` | the client library's callbacks and the plugin's lists of sinks |

Objects that the program updates in place are classes, and each method's postcondition equates the
object's value after the call with a function of its value before. The theorems are about runs of
those functions: finite sequences of actions of any length, in any order, with any answers of the
platform and any passage of time.

The log of the protocol is a ghost record of everything observable: taking and giving back the lock,
taking and releasing the reference, opening a transition, acknowledgements, delays, handler calls
with their flags, platform calls, announced changes. The ledger is read off the log alone, so the
theorems relate the machine's fields to an account of the run that does not use them.

## What atomicity is assumed

- `AckController` leaves thread safety to its owner (plugin/AckController.h:42-43), so each public
  call and each dispatch of the timer job is one step.
- `SetPowerState` is two steps. The first reads the current state, tests for the ignored cases and
  supersedes (plugin/PowerManagerImplementation.cpp:353-445); in the code the read at line 376
  precedes the API lock at line 413, and the timer job takes no lock, so taking this as one step is
  an assumption. The second starts the wait (lines 459-489). Between them clients may acknowledge,
  ask for delays, come and go.
- The plugin's configuration of wake-up sources takes the API lock once for each of its four
  sections (plugin/PowerManagerImplementation.cpp:731-787). The agreement with the standby flag is
  proved with the sections of any number of calls interleaved; the method `SetWakeupSourceConfig`
  states what a call does if nobody comes between its sections (`UndisturbedCall` connects the two).
- The job that runs a deep sleep and the report of its outcome are one step after the other in
  `RunDeepSleepJob`, with deactivations possible at every abort point; `WakeupIsHeardExactly` lets
  any actions of the protocol happen between them.
- Calls to the platform return at once, with any result.

## Where the code does less than one might expect

Each of these is proved for all inputs, with its exact condition where there is one.

- A controller that has finished is not cleared, so the test for a repeated request also sees it. A
  request for another state that finds nothing under way is lost exactly when the latest transition
  was to that state and the platform failed it (`LostRequestExactly`); repeating the request never
  helps, only a request for a third state does (`FailureBlocksRetry`, `FailureHappens`).
- A delay that names another transition, or comes from a client that is not awaited, moves the
  deadline exactly when the controller is not running (`ForeignDelayExactly`; `ForeignDelayHappens`
  is a run in which it makes a transition wait for a minute). The documentation of
  `Reschedule` promises ERROR_ILLEGAL_STATE there, and an ASSERT at plugin/AckController.h:243
  contradicts the branch; the model is that of a release build, where the branch is taken.
- The standby flag follows the Wi-Fi and LAN wake-up sources whenever they agree exactly on
  platforms that support at least one of the two (`AgreementExactly`). Setting the flag to the value
  it already has does not touch the sources (`SwitchSetsSourcesExactly`, `SwitchCanBeIgnored`).
- A zone follows its history for every sequence of samples exactly when safe is not above concern,
  or there is no band below critical to enter it from (`ZoneRefinementExactly`). A sample that is
  both critical and overdue takes the zone's action twice (`ActionExactly`, `ActionTakenTwice`).
- While the plugin has gone behind the client library's back, the library's registered flag is
  frozen at what was wanted when the link broke (`StaleFlagIsFrozen`). It fails to say "an interface
  is held and there is a callback" in two ways: a callback added when there was none leaves it clear
  (`StaleAddIsNotRegistered`), and removing the last callback leaves it set, so that the next one is
  not even tried (`StaleRemoveKeepsFlag`). `FlagAgreementExactly` gives the condition under which
  the flag is right. The next reconnection makes up for both (`ReconnectRestores`).
- A wake-up that arrives after a sleep has been submitted and before its job takes the latch is
  forgotten: the platform is called all the same, unless another deactivation reaches one of the
  first two abort points (`EarlyAbortIsForgottenExactly`, `EarlyWakeupDoesNotStopSleep`).

## Model

| member | source | states |
|---|---|---|
| `ProtocolTheorems.ChangesFormPath` | plugin/PowerManagerImplementation.cpp:302-323 | In every run the announced changes form a path of real changes from the start-up state, and once there is one, the current and previous state are exactly the last of them |
| `ProtocolTheorems.NoEarlyCommit` | plugin/PowerManagerImplementation.cpp:428-479 | A change is attempted only for the latest transition, and only if it leads from deep sleep to light sleep, or each client awaited at its opening has acknowledged or been removed, or the clock has passed the start of the wait by a second and every delay accepted for it |
| `ProtocolTheorems.SyncExactly` | plugin/PowerManagerImplementation.cpp:325-330 | Of all transitions of a run, exactly those from deep sleep to light sleep are synchronous |
| `ProtocolTheorems.HandlerFlags` | plugin/AckController.h:184-229 | What each pair of handler flags means: timed out only by the timer at or after the deadline while running, revoked only by a request for another state while running, neither only if nobody is awaited or the change leads from deep sleep to light sleep; unless revoked, exactly one attempt is made |
| `ProtocolTheorems.EachTransitionEndsOnce` | plugin/PowerManagerImplementation.cpp:439-479 | Every transition is scheduled once and has one handler call, the one under way excepted; a revoked one never reaches the platform; AddRef and Release balance exactly when none is under way |
| `ProtocolTheorems.QuiescentStateIsLastTarget` | plugin/PowerManagerImplementation.cpp:413-479 | With nothing under way, the current state is the target of the last transition if and only if the platform accepted it |
| `ProtocolTheorems.WillingRunNeverFails` | plugin/PowerController.cpp:114-143 | If the platform accepts everything, no transition of the run ever fails |
| `PowerProtocol.RequestOpensExactly` | plugin/PowerManagerImplementation.cpp:386-445 | A request that has the lock opens the next transition exactly if it names another state than the current one, is not ignored as transient, and the controller there is, finished or not, has another target |
| `ProtocolTheorems.LostRequestExactly` | plugin/PowerManagerImplementation.cpp:415-426 | With nothing under way, a request for another state is dropped if and only if the latest transition had that target and failed; otherwise a transition from the current state is opened |
| `ProtocolTheorems.NoLostRequest` | plugin/PowerManagerImplementation.cpp:387-426 | With a platform that never fails, a request for another state is redundant only while a transition to that state is running |
| `ProtocolTheorems.FailureBlocksRetry` | plugin/PowerManagerImplementation.cpp:417-426 | After a failed transition no sequence of actions leaves the old state, unless some request names a third state |
| `ProtocolTheorems.FailureHappens` | plugin/PowerController.cpp:125-129 | A concrete run that reaches that situation |
| `ProtocolTheorems.TimerMatchesHistory` | plugin/AckController.h:204-227 | The timer job is in the pool exactly while a transition runs, at the deadline that the log gives it; a job never fires without its controller running |
| `ProtocolHistory.DeadlineIsMaximum` | plugin/AckController.h:204-283 | The deadline of a transition is the maximum, over the whole log, of its construction time, the start of its wait plus the offset, and every accepted delay |
| `ProtocolHistory.AnsweredMeansAcknowledged` | plugin/AckController.h:104-134 | The ledger counts a client as having answered a transition exactly when the log holds its acknowledgement |
| `ProtocolTheorems.LockIsReleasedOnce` | plugin/PowerManagerImplementation.cpp:347-491 | The lock has been released as often as it was acquired, but for a request that is announced and not yet waiting; it is free exactly otherwise |
| `ProtocolTheorems.WindowStaysThroughout` | plugin/PowerManagerImplementation.cpp:347-372 | While a request is announced, whatever else happens, no other request gets past the lock and the state does not change |
| `ProtocolTheorems.SyncChangeIsAtomic` | plugin/PowerManagerImplementation.cpp:325-330 | A change from deep sleep to light sleep holds the lock from the request on, whatever happens in between; it is then applied and announced if and only if the platform accepts it, and in either case the lock is released after that, last of all |
| `ProtocolTheorems.SyncStart` | plugin/PowerManagerImplementation.cpp:459-479 | The start of a synchronous change makes its one attempt at once and releases the lock last, for either answer of the platform |
| `ProtocolTheorems.AwaitedClientsAreRegistered` | plugin/PowerManagerImplementation.cpp:942-969 | In every state the awaited clients are registered, and a running transition awaits somebody |
| `ProtocolTheorems.AnswersDecide` | plugin/AckController.h:104-134 | A running transition is decided by any sequence of actions in which each client it awaits acknowledges or is removed, in any order and with anything in between |
| `ProtocolTheorems.DueTimerDecides` | plugin/AckController.h:208-228 | Without any answer the timer decides a running transition at its deadline with one attempt, and the state changes exactly if the platform accepts it |
| `ProtocolTheorems.SupersededAckIgnored` | plugin/AckController.h:104-120 | An acknowledgement with any other id than the latest changes nothing at all |
| `ProtocolTheorems.ForeignDelayExactly` | plugin/AckController.h:240-283 | A delay for another transition, or from a client not awaited, changes nothing while running, and extends the deadline exactly when not running |
| `ProtocolTheorems.ForeignDelayHappens` | plugin/AckController.h:248-254 | A concrete run in which an unknown client delays an unknown transition and the one being announced then waits a minute |
| `ProtocolTheorems.WakeupIsHeardExactly` | plugin/PowerManagerImplementation.cpp:395-426 | Whatever a run of the retry loop leaves behind, and whatever follows short of a new sleep, its report, from deep sleep and with the lock free, opens a transition exactly if the latest one did not have its target, which is light sleep after a timer wake-up and on after a key press or a failure (light sleep if the box boots to standby); a loop that gave up requests nothing |
| `ProtocolTheorems.EarlyWakeupDoesNotStopSleep` | plugin/DeepSleepController.cpp:369-376 | A concrete run in which a wake-up is applied between the submission of a sleep and its job, and the job calls the platform unless it is deactivated again at its first two abort points |
| `PowerProtocol.ReportOpens` | plugin/PowerManagerImplementation.cpp:971-1006 | A report made out of the progress state opens its wake-up exactly if the latest target was another |
| `ProtocolTheorems.KnownNameKeepsId` | plugin/PowerManagerImplementation.cpp:907-940 | In every state a registered name belongs to one id, and adding it again changes nothing |
| `ProtocolTheorems.RemovedIdNeverReturns` | plugin/PowerManagerImplementation.cpp:916-969 | A removed client id is never issued again, whatever follows |
| `ProtocolActions.RequestOpens` | plugin/PowerManagerImplementation.cpp:376-445 | The whole new state and ledger when a request opens a transition: from the current state, awaiting exactly the registered clients, with the running one revoked. It does so if no other is being announced, the state asked for is another, no sleep was begun less than five seconds ago, and the latest transition had another target |
| `ProtocolActions.RequestDeclined` | plugin/PowerManagerImplementation.cpp:386-422 | Any other request changes nothing but the sleep that it may wake the plugin from |
| `ProtocolActions.StartWaitAttempts` | plugin/PowerManagerImplementation.cpp:436-489 | The whole new state and ledger when a change is attempted at once: nobody is awaited, or it leads from deep sleep to light sleep |
| `ProtocolActions.StartWaitWaits` | plugin/AckController.h:196-228 | Otherwise the change waits: its job is due a second after the start, or at the latest delay taken before |
| `ProtocolActions.AnswerTaken` | plugin/AckController.h:104-134 | An acknowledgement from an awaited client of the latest transition: the last one of a running transition leads to its attempt, any other is noted, with the whole new state and ledger |
| `ProtocolActions.AnswerRefused` | plugin/AckController.h:110-121 | Any other acknowledgement changes nothing |
| `ProtocolActions.DelayExactly` | plugin/AckController.h:240-283 | A delay is taken exactly if the latest transition is not running, or it is meant and the client is awaited; deadline, ledger and the job of a running transition then move to the later of the old deadline and the delay's end, and otherwise nothing changes |
| `ProtocolActions.AddClientExactly` | plugin/PowerManagerImplementation.cpp:911-929 | A new name is registered under the next id; an empty or known one changes nothing |
| `ProtocolActions.RemoveClientExactly` | plugin/PowerManagerImplementation.cpp:951-962 | The registry loses the client and nothing else; a client that was there also counts as having answered |
| `ProtocolActions.RemovedIsNotAwaited` | plugin/PowerManagerImplementation.cpp:428-434 | No transition opened after a client was removed awaits it, in any continuation |
| `ProtocolActions.TimerExactly` | plugin/AckController.h:208-228 | A job has an effect exactly if it is due, and then it is that of the running transition, whose attempt it makes |
| `ProtocolActions.SleepsAreSubmittedExactly` | plugin/PowerManagerImplementation.cpp:311-320 | In every log a sleep is submitted right after each announced change to deep sleep, and nowhere else |
| `ProtocolInvariants.StepKeeps` | plugin/PowerManagerImplementation.cpp:345-494 | Every action keeps the invariant that ties registry, lock, controller, timer jobs, current state and ledger together |
| `ProtocolInvariants.RunKeeps` | plugin/PowerManagerImplementation.cpp:345-494 | Hence it holds in every state of every run from start-up |
| `ProtocolSteps.StepSteps` | plugin/AckController.h:104-319 | From such a state, what one action can do to the ledger: only the latest entry evolves, in one of the permitted ways, and only a request adds one |
| `ProtocolSteps.RunOrderly` | plugin/AckController.h:53-61 | Ids are issued in increasing order without gaps, every event about a transition follows its opening, and the branch for a timeout without a running timer is unreachable |
| `AckControl.AckController.constructor` | plugin/AckController.h:53-61 | A new controller awaits nobody, does not run, and has the current time as its deadline |
| `AckControl.AckController.AckAwait` | plugin/AckController.h:90-94 | Adds one awaited client and changes nothing else |
| `AckControl.AckController.Ack` | plugin/AckController.h:104-134 | Succeeds exactly for an awaited client with this id; the last answer to a running controller stops it, revokes its job and calls the handler without flags |
| `AckControl.AckController.RunHandler` | plugin/AckController.h:290-298 | Calls the stored handler, and revokes the job unless it was the job that fired |
| `AckControl.AckController.Schedule` | plugin/AckController.h:189-229 | Without awaited clients or offset the handler is called at once and nothing changes; otherwise the controller runs with a job at the later of the new and the cached deadline |
| `AckControl.AckController.Reschedule` | plugin/AckController.h:240-283 | Refused exactly while running for a wrong id or client; the deadline only moves forward, and the job with it only while running |
| `AckControl.AckController.TimerExpired` | plugin/AckController.h:208-226 | A running controller stops and calls its handler with the timed-out flag; otherwise nothing happens |
| `AckControl.AckController.Revoke` | plugin/AckController.h:305-319 | A running controller stops, takes its job out of the pool and calls its handler with the revoked flag |
| `PowerManagerPlugin.PowerManager.SetDevicePowerState` | plugin/PowerManagerImplementation.cpp:302-323 | Only an accepted change is applied and announced, and only one to deep sleep then submits the sleep |
| `PowerManagerPlugin.PowerManager.CompletionHandler` | plugin/PowerManagerImplementation.cpp:459-479 | Unless revoked it makes the attempt; always it releases the reference, and the lock if the change is synchronous |
| `PowerManagerPlugin.PowerManager.ResetController` | plugin/PowerManagerImplementation.cpp:422-425 | Dropping the controller calls the handler of a running transition with the revoked flag and removes its job |
| `PowerManagerPlugin.PowerManager.NewController` | plugin/PowerManagerImplementation.cpp:428-434 | The new controller has the next id and awaits exactly the registered clients |
| `PowerManagerPlugin.PowerManager.RequestPowerState` | plugin/PowerManagerImplementation.cpp:353-445 | The first half of `SetPowerState` refines the protocol's request step |
| `PowerManagerPlugin.PowerManager.LeaveDeepSleep` | plugin/PowerManagerImplementation.cpp:395-411 | A request from deep sleep is ignored, and the lock released, exactly while the sleep is being entered; otherwise the sleep is deactivated |
| `PowerManagerPlugin.PowerManager.OpenTransition` | plugin/PowerManagerImplementation.cpp:413-445 | It supersedes whatever there was and opens the next transition from the current state |
| `PowerManagerPlugin.PowerManager.StartPowerState` | plugin/PowerManagerImplementation.cpp:436-489 | The second half refines the protocol's start of the wait |
| `PowerManagerPlugin.PowerManager.PowerModePreChangeComplete` | plugin/PowerManagerImplementation.cpp:870-887 | Refines an acknowledgement, and succeeds exactly if there is a controller that accepts it |
| `PowerManagerPlugin.PowerManager.DelayPowerModeChangeBy` | plugin/PowerManagerImplementation.cpp:889-905 | Refines a delay, and succeeds exactly if there is a controller that accepts it |
| `PowerManagerPlugin.PowerManager.AddPowerModePreChangeClient` | plugin/PowerManagerImplementation.cpp:907-940 | Refines a registration; refuses only the empty name, and returns an id registered for that name |
| `PowerManagerPlugin.PowerManager.RemovePowerModePreChangeClient` | plugin/PowerManagerImplementation.cpp:942-969 | Refines a removal, which also answers the transition under way for that client |
| `PowerManagerPlugin.PowerManager.TimerJob` | plugin/AckController.h:208-227 | Refines the dispatch of a due job, whose weak reference resolves only to the live controller |
| `PowerManagerPlugin.PowerManager.OnDeepSleepOutcome` | plugin/PowerManagerImplementation.cpp:971-1006 | The report of an outcome is a request for the state it names, and none for a sleep that was given up |
| `PowerManagerPlugin.PowerManager.RunDeepSleepJob` | plugin/DeepSleepController.cpp:219-228 | The submitted job: refused, put off, or run and reported. Every outcome that is not given up, reported from deep sleep asked for last and with the lock free, announces its wake-up under the next id |
| `PowerManagerPlugin.PowerManager.RunDelayedSleepJob` | plugin/DeepSleepController.cpp:276-282 | The same for an entry that was put off |
| `PowerManagerPlugin.PowerManager.SetNetworkStandbyMode` | plugin/PowerManagerImplementation.cpp:678-701 | Refines the specified change of flag and sources, and leaves the protocol's state alone |
| `PowerManagerPlugin.PowerManager.SetWakeupSourceConfig` | plugin/PowerManagerImplementation.cpp:731-787 | A call nobody comes between refines the specified configuration, carrying a common Wi-Fi and LAN setting over to the flag, and leaves the protocol's state alone |
| `DeepSleepControl.DeepSleepController.EnterDeepSleepNow` | plugin/DeepSleepController.cpp:284-348 | For all answers and abort points: at most five calls, all but the last answered ABORTED, none after an observed abort; nothing is reported exactly if it gave up; the state at the report is completed, failed, or not started if deactivated, never in progress |
| `DeepSleepControl.LoopIsExact` | plugin/DeepSleepController.cpp:284-348 | What the loop reports and leaves behind, told from the answers and the deactivations alone, giving up exactly when an abort stands where another call was due |
| `DeepSleepControl.WakeupFollowsAnswer` | plugin/PowerManagerImplementation.cpp:971-1006 | A key press and any failure ask for on, a wake-up without one for light sleep, and all three for light sleep in boxes that boot to standby |
| `DeepSleepControl.PlatformIsCalledExactly` | plugin/DeepSleepController.cpp:287-306 | The platform is called at all exactly if no abort is outstanding by the first loop test |
| `DeepSleepControl.EarlyAbortIsForgottenExactly` | plugin/DeepSleepController.cpp:372-381 | After the latch the platform is called unless there is a deactivation at one of the first two points: one requested before does not count |
| `DeepSleepControl.OutcomeIsDetermined` | plugin/DeepSleepController.cpp:300-348 | Those rules leave one number of calls and one outcome for any answers and abort points |
| `DeepSleepControl.AbortedByMeaning` | plugin/DeepSleepController.cpp:417-444 | An abort is seen at a point exactly if it was requested before entry or at that point or an earlier one |
| `DeepSleepControl.DeepSleepController.EnterDeepSleepDelayed` | plugin/DeepSleepController.cpp:276-282 | The delayed entry gives up its job and follows the same rules |
| `DeepSleepControl.DeepSleepController.PerformActivate` | plugin/DeepSleepController.cpp:369-415 | Refused without effect while in progress; otherwise earlier aborts are forgotten, the start time and overrides are taken, and entry happens now or is left to the delay job |
| `DeepSleepControl.DeepSleepController.Deactivate` | plugin/DeepSleepController.cpp:231-249 | Requests the abort, drops the delay job, calls the platform's wake-up once and returns its answer, and leaves the state not started whatever that is |
| `PowerControl.PowerController.constructor` | plugin/PowerController.cpp:42-69 | Start-up loads the settings, gives both network sources the saved flag, and keeps the saved state unless the platform is in another one and refuses to leave it |
| `PowerControl.PowerController.Init` | plugin/PowerController.cpp:71-112 | Which state is current after start-up, for every reading and answer of the platform, and that memory and file agree on it |
| `PowerControl.PowerController.SetPowerState` | plugin/PowerController.cpp:114-143 | Success applies the state, remembers the old one as previous and saves; failure, or the override against deep sleep, changes nothing; loading the file always gives back what is in memory |
| `PowerControl.PowerController.SetWakeupSourceConfig` | plugin/PowerController.cpp:185-203 | All configurations are tried in order; it fails exactly if some supported source is broken |
| `PowerControl.PowerController.GetWakeupSourceConfig` | plugin/PowerController.cpp:205-231 | Reports the supported, working sources in order; it fails exactly if some supported source is broken |
| `PowerControl.PowerController.SetNetworkStandbyMode` | plugin/PowerController.cpp:150-177 | The flag changes, and is saved, only if both network sources could be set |
| `PowerControl.ConfiguredExactly` | plugin/PowerController.cpp:189-196 | A supported, working source ends up as the last configuration that names it says, whatever the length, order and repetitions of the list; any other keeps its flag |
| `PowerControl.ReportedExactly` | plugin/PowerController.cpp:209-225 | A report lists exactly the supported, working sources that were asked for, with their flags |
| `PowerControl.ReportedInOrder` | plugin/PowerController.cpp:209-225 | It lists them in the order asked for |
| `NetworkStandby.AgreementExactly` | plugin/PowerManagerImplementation.cpp:731-787 | With the locked sections of any number of calls interleaved, the flag equals the two network sources whenever they are equal and no call is under way, if and only if the platform supports at least one of them |
| `NetworkStandby.RunAgrees` | plugin/PowerController.cpp:57-66 | The invariant behind it, from start-up on: they agree, or some call under way will yet carry the present setting over |
| `NetworkStandby.UndisturbedCall` | plugin/PowerManagerImplementation.cpp:731-787 | The four sections of a call with nobody between them do what is specified of the whole call |
| `NetworkStandby.ConfigureExactly` | plugin/PowerManagerImplementation.cpp:731-787 | A call fails exactly if some supported source is broken, and then leaves the flag; otherwise the flag takes the setting Wi-Fi and LAN share, if they share one; the sources are what the list says in either case |
| `NetworkStandby.SwitchExactly` | plugin/PowerController.cpp:150-177 | Switching to another setting fails exactly if Wi-Fi or LAN is supported and broken, and then leaves the flag; the working ones are set, and no others; switching to the present setting does nothing |
| `NetworkStandby.ReportIsFaithful` | plugin/PowerManagerImplementation.cpp:719-729 | Looking a source up in the platform's report gives its flag, and off if it is not supported |
| `NetworkStandby.SwitchSetsSourcesExactly` | plugin/PowerController.cpp:150-165 | A successful change of the flag leaves both supported sources at its value exactly if the flag changed or they had it already |
| `NetworkStandby.SwitchCanBeIgnored` | plugin/PowerController.cpp:152-155 | A concrete run in which switching network standby on leaves LAN off |
| `SettingsFile.SaveThenLoad` | plugin/Settings.cpp:107-177 | Saving version-1 settings over any bytes and loading gives them all back, whatever the platform's numbering of states; bytes beyond the structure stay, and loading leaves the file alone |
| `SettingsFile.LoadIsStable` | plugin/Settings.cpp:187-223 | Loading arbitrary bytes yields version-1 settings and leaves a file whose reload yields the same settings |
| `SettingsFile.LoadFileExactly` | plugin/Settings.cpp:107-139 | What every file is loaded as, field by field: its contents if it is complete and says version 1 and length 32, the defaults if not, with the bytes that are then written |
| `SettingsFile.DefaultBytes` | plugin/Settings.cpp:141-176 | The 32 bytes of the defaults |
| `SettingsFile.LoadExactly` | plugin/Settings.cpp:187-250 | Everything a start of the plugin loads comes from the persistent file, but for the state before the reboot, which comes from the copy in RAM, and what both files then hold |
| `SettingsFile.SaveExactly` | plugin/Settings.cpp:257-272 | Saving touches only the persistent file, whose reload gives back the same settings |
| `SettingsFile.WordsRoundTrip` | plugin/Settings.cpp:44-53 | Each word of the layout is read back from its own place, whatever follows |
| `SettingsFile.EncodedWords` | plugin/Settings.cpp:141-156 | The place of each field in the bytes that are written |
| `SettingsFile.BeforeRebootIsStable` | plugin/Settings.cpp:225-249 | After a reboot, every start of the plugin reports as state before the reboot the one persisted at the first start, whatever was saved, or done to the persistent file, since |
| `SettingsFile.RemembersThroughout` | plugin/Settings.cpp:231-240 | Nothing that happens to the persistent file disturbs the copy in RAM |
| `SettingsFile.SettingsStore.ReadOrReset` | plugin/Settings.cpp:187-223 | One file: read if it holds complete version-1 settings, replaced by defaults if not |
| `SettingsFile.SettingsStore.LoadSettings` | plugin/Settings.cpp:187-250 | Refines loading both files, creating or consulting the copy in RAM |
| `SettingsFile.SettingsStore.SaveSettings` | plugin/Settings.cpp:257-272 | Overwrites the start of the persistent file only, and what it saved can be loaded |
| `ThermalZones.ZoneRefinesHistory` | plugin/ThermalController.cpp:206-232 | A zone is on exactly when some past sample was in the band between concern and critical and none since was below safe, and its timer is that of the first such sample |
| `ThermalZones.ZoneRefinementExactly` | plugin/ThermalController.cpp:217-231 | The thresholds for which that holds of every history, both ways |
| `ThermalZones.ActionExactly` | plugin/ThermalController.cpp:258-295 | Under the same thresholds, the action is taken once for a critical sample and once for a zone that has lasted the grace interval, and not otherwise; never with a grace interval of zero |
| `ThermalZones.ActionTakenTwice` | plugin/ThermalController.cpp:263-294 | Two samples after which it is taken twice |
| `ThermalDeclock.MonitorTimeMeaning` | plugin/ThermalController.cpp:299-386 | At scaled speed the monitor time is that of the latest sample above safe, at minimal speed that of the latest one at or above concern |
| `ThermalDeclock.SpeedExactly` | plugin/ThermalController.cpp:311-383 | The speed after any further sample as a function of the speed before and the history: it slows down at once, and speeds up exactly when the sample is cool enough and the latest one that forbids it is at least the grace interval old |
| `ThermalDeclock.SpeedStartsNormal` | plugin/ThermalController.cpp:159-160 | Declocking starts at normal speed, and changes nothing while its grace interval is zero |
| `ThermalDeclock.SpeedUpIsEarned` | plugin/ThermalController.cpp:339-383 | A speed-up from minimal comes at least the grace interval after the latest sample at or above concern; one from scaled to normal, after the latest sample above safe |
| `ThermalDeclock.NoSpeedUpWhileHot` | plugin/ThermalController.cpp:339-383 | With a clock that does not go back, no speed-up comes sooner than the grace interval after any sample at or above concern |
| `ThermalDeclock.HotSamplesSlowDown` | plugin/ThermalController.cpp:311-338 | After a critical sample the speed is minimal, after one at or above concern it is not normal |
| `ThermalDeclock.EnoughFrequenciesGiveDistinctSpeeds` | plugin/hal/ThermalImpl.h:192-200 | Three or more different frequencies, in any order, give three different speeds in the right order |
| `ThermalDeclock.SelectedExactly` | plugin/hal/ThermalImpl.h:182-200 | The speeds are the lowest and the highest of the first 32 frequencies, and one with at most half of them below it and more than half not above it |
| `ThermalDeclock.SortedIsAscending` | plugin/hal/ThermalImpl.h:192-193 | The sort yields an ascending permutation |
| `ThermalDeclock.DetermineClockSpeeds` | plugin/hal/ThermalImpl.h:166-209 | Slowest, middle and fastest of the first 32 frequencies fill in the speeds not yet known; it fails exactly on a missing or empty list |
| `ThermalControl.ThermalController.constructor` | plugin/ThermalController.cpp:147-162 | Configured speeds are kept and the others discovered; declocking starts at normal speed and is disabled if a speed is unknown |
| `ThermalControl.ThermalController.SetOvertempGraceInterval` | plugin/ThermalController.cpp:107-129 | Sets the grace interval of both zones, not of declocking; refuses a negative one |
| `ThermalControl.ThermalController.RebootIfNeeded` | plugin/ThermalController.cpp:206-248 | The zone updated in place is the one the whole history of samples gives, and the reboots are those it calls for |
| `ThermalControl.ThermalController.DeepSleepIfNeeded` | plugin/ThermalController.cpp:251-296 | The same for the deep-sleep zone and requests to sleep |
| `ThermalControl.ThermalController.DeclockIfNeeded` | plugin/ThermalController.cpp:299-386 | The speed and monitor time updated in place are those the whole history gives |
| `ThermalControl.ThermalController.Poll` | plugin/ThermalController.cpp:406-469 | One round: nothing in deep sleep or without a reading; otherwise one sample for all three machines, and a change of level is reported exactly when the level differs |
| `Subscriptions.SubscriptionAgreement` | powercontroller/power_controller.cpp:207-279 | In every run, while the interface is live the flag is set exactly when there is a callback, and exactly then the plugin's duplicate-free list holds the sink; an event runs each callback added and not removed since, once, and none without a live interface |
| `Subscriptions.CallbacksAreThoseWanted` | powercontroller/power_controller.cpp:207-250 | A callback is in the list exactly if the latest call about it was to add it, across restarts and lost connections |
| `Subscriptions.OrderIsKept` | powercontroller/power_controller.cpp:207-250 | A callback is added at the end of the list, and removing one keeps the order of the others |
| `Subscriptions.LinkExactly` | powercontroller/power_controller.cpp:851-876 | Exactly when the library comes to hold an interface, loses it, and holds a stale one |
| `Subscriptions.ReconnectRestores` | powercontroller/power_controller.cpp:841-877 | After any run, losing the interface and getting a new one subscribes to exactly what is wanted |
| `Subscriptions.FirstAddRegistersExactly` | powercontroller/power_controller.cpp:253-258 | After the first callback is added through an interface, the plugin holds the sink exactly if it is alive; the flag is set exactly then, or if it was left set when the link broke |
| `Subscriptions.StaleFlagIsFrozen` | powercontroller/power_controller.cpp:253-279 | While the interface is stale the flag says exactly whether there was a callback when the link broke |
| `Subscriptions.FlagAgreementExactly` | powercontroller/power_controller.cpp:253-279 | In every run, the flag means that an interface is held and there is a callback if and only if, in case the interface is stale, there are callbacks now exactly if there were when it broke |
| `Subscriptions.StaleAddIsNotRegistered` | powercontroller/power_controller.cpp:255-257 | A concrete run that adds a callback which is not registered |
| `Subscriptions.StaleRemoveKeepsFlag` | powercontroller/power_controller.cpp:266-278 | A concrete run that leaves the flag set with no callback, and then with a callback and no sink |
| `Subscriptions.DeliveredOnce` | plugin/PowerManagerImplementation.cpp:152-169 | A list without duplicates runs the library's callbacks once per event if it holds the sink, and not at all if not |
| `Subscriptions.NotificationList.Register` | plugin/PowerManagerImplementation.cpp:152-169 | Appends a sink that is not in the list, and refuses one that is |
| `Subscriptions.NotificationList.Unregister` | plugin/PowerManagerImplementation.cpp:171-189 | Removes a sink that is in the list, and refuses one that is not |
| `Subscriptions.CallbackList.RegisterNotificationInternal` | powercontroller/power_controller.cpp:253-258 | Refines subscribing one kind, for a live, a stale and a missing interface |
| `Subscriptions.CallbackList.UnregisterNotificationInternal` | powercontroller/power_controller.cpp:264-279 | Refines unsubscribing one kind, forced or not |
| `Subscriptions.CallbackList.AddCallback` | powercontroller/power_controller.cpp:207-227 | Adds a new callback and subscribes if need be; a known one is refused without effect |
| `Subscriptions.CallbackList.RemoveCallback` | powercontroller/power_controller.cpp:230-250 | Removes a known callback and unsubscribes if it was the last; an unknown one is refused without effect |
| `Subscriptions.ClientLibrary.SubscribeAllNotifications` | powercontroller/power_controller.cpp:897-907 | Each of the six kinds is subscribed |
| `Subscriptions.ClientLibrary.UnsubscribeAllNotifications` | powercontroller/power_controller.cpp:910-920 | Each of the six kinds is unsubscribed by force |
| `Subscriptions.ClientLibrary.OperationalChanged` | powercontroller/power_controller.cpp:841-877 | Each of the six kinds takes the specified step when the plugin comes up or goes down |

## Left out

- Key codes and reasons of a request are only logged, and are not part of the model. Nor is the error branch at plugin/PowerManagerImplementation.cpp:379-384: `GetPowerState` of the power controller never fails.
- Integer widths: transaction and client ids, times and delays are unbounded, delays are not negative, and the clock of the protocol does not go back. The settings' 32-bit words are exact.
- The pre-change timeout is its default of one second, counted in milliseconds.
- Two overlapping deep-sleep activations: one is modelled at a time, with a deactivation possible at every point around its platform calls.
- The protocol lets the deep-sleep state become anything at any time, which covers every behaviour of the deep-sleep controller; the link back, from an outcome to a request, is `RunDeepSleepJob` and `WakeupIsHeardExactly`.
- Which error a failing platform returns is not distinguished, except ABORTED in the deep-sleep loop.
- Files: opening, seeking and writing succeed. The layout is little-endian with four-byte integers and enumerations, and the platform's numbering of power states is any that keeps them apart.
- Builds that boot to standby: for the settings their override of the loaded power state is left out. The state asked for after a deep sleep is a parameter.
- Time since wake-up, the deep-sleep timer setting, the maintenance reboot controller, the calculation of the wake-up time and the enumeration tables: single branches or lookups.
- Thresholds and overrides are parameters: reading them from RFC or files is left out, as are sysfs, telemetry and logging.
- The clock is read once per sample and machine, where the code may read it twice within a poll. Temperatures are the integers that the code compares.
- A poll is complete: stopping the polling thread in the middle of one is left out.
- ThermalDeclock.SortBuffer: stands for the C library's `qsort`, whose algorithm is not part of the model.
- ThermalDeclock.EnoughFrequenciesGiveDistinctSpeeds: a list that names a frequency twice may give equal speeds; the kernel's list has no repetitions.
- PowerManagerPlugin.PowerManager.RequestPowerState: asks that no request be announced while the lock is free, which every run keeps (`LockIsReleasedOnce`). A caller that finds the lock taken is told to wait, and tries again.
- Delivery of the pre-change, mode-changed, thermal, standby and reboot events to the plugin's clients, and calls that clients make from within a notification.
- The conversion of the wake-up source iterator, with its check for unknown sources, in front of the configuration call.
- The client library's lock, its user data, its operational-state callbacks, which need no registration, and the detection of a restarted framework by its process id; a restart is the plugin stopping and another starting. The kinds of notification are independent, so the run theorems follow one.
- Framework glue: plugin life cycle, COM-RPC and JSON-RPC, interface maps.
