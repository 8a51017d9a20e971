/**
  The plugin object.  Each method is one action of the protocol: the view of the object after
  the call is the specified step from the view before it.  The log is ghost.
 */
module PowerManagerPlugin {
  import opened PowerTypes
  import opened AckControl
  import opened PowerControl
  import opened DeepSleepControl
  import opened PowerProtocol
  import NetworkStandby
  import SettingsFile

  class PowerManager {
    const workerPool: WorkerPool
    const power: PowerController
    const deepSleep: DeepSleepController
    var modeChangeController: AckController?
    var modeChangeClients: map<nat, string>
    var nextClientId: nat
    var nextTransactionId: nat
    var selfLock: nat
    var announced: Option<Completion>  // captured by a SetPowerState call between its two halves
    var references: int
    ghost var log: Log

    ghost predicate Valid()
      reads this, modeChangeController, power, power.store
    {
      && power.Valid()
      && (modeChangeController != null ==>
            modeChangeController.Valid() && modeChangeController.workerPool == workerPool)
      && (announced.Some? ==>
            modeChangeController != null && !modeChangeController.running && modeChangeController.handler.None?)
    }

    ghost function View(): State
      reads this, modeChangeController, workerPool, power, power.store, deepSleep
      requires Valid()
    {
      State(workerPool.now, workerPool.jobs,
            power.settings.powerState, power.lastKnownPowerState,
            deepSleep.View(), modeChangeClients, nextClientId,
            if modeChangeController == null then None else Some(modeChangeController.View()),
            nextTransactionId, announced, selfLock, references, log)
    }

    constructor (workerPool: WorkerPool, power: PowerController, deepSleep: DeepSleepController)
      requires power.Valid() && workerPool.now == 0 && workerPool.jobs == map[]
      requires deepSleep.View() == DeepSleep(NotStarted, None, false, false)
      ensures Valid() && View() == Boot(power.settings.powerState, power.lastKnownPowerState)
      ensures this.workerPool == workerPool && this.power == power && this.deepSleep == deepSleep
    {
      this.workerPool, this.power, this.deepSleep := workerPool, power, deepSleep;
      modeChangeController, modeChangeClients := null, map[];
      nextClientId, nextTransactionId := 0, 0;
      selfLock, announced, references := 1, None, 0;
      log := Start;
    }

    method SetDevicePowerState(ghost id: nat, from: PowerState, to: PowerState, hal: Platform)
      requires Valid()
      modifies this`log, power`settings, power`lastKnownPowerState, power.store`opt
      ensures Valid()
      ensures forall sync :: View() == Apply(old(View()), id, Completion(from, to, sync), hal)
    {
      hide SettingsFile.LoadFile, SettingsFile.SamePersisted, SettingsFile.Save;
      var status := power.SetPowerState(to, hal);
      if !status.NoError? {
        log := After(log, if status.IllegalState? then Refused(id, to) else PlatformFailed(id, to, workerPool.now));
        return;
      }
      log := After(After(log, Applied(id, to, workerPool.now)), Changed(from, to));
      if to == StandbyDeepSleep {
        log := After(log, SleepSubmitted);
      }
    }

    /** The completion handler, with the flags the controller passes. */
    method CompletionHandler(ghost id: nat, call: HandlerCall, hal: Platform)
      requires Valid() && (call.revoked ==> !call.timedOut)
      modifies this`log, this`references, this`selfLock, power`settings, power`lastKnownPowerState, power.store`opt
      ensures Valid()
      ensures View() == if call.revoked then AbortHandler(old(View()), id, call.completion)
                        else PowerProtocol.RunHandler(old(View()), id, call.completion, call.timedOut, hal)
    {
      hide Apply, FinishHandler, SettingsFile.LoadFile, SettingsFile.SamePersisted;
      log := After(log, Called(id, call.timedOut, call.revoked, workerPool.now));
      if !call.revoked {
        SetDevicePowerState(id, call.completion.from, call.completion.to, hal);
      }
      EndHandler(call.completion);
    }

    method EndHandler(c: Completion)
      requires Valid()
      modifies this`log, this`references, this`selfLock
      ensures Valid() && View() == FinishHandler(old(View()), c)
    {
      references := references - 1;
      log := After(log, Released);
      if c.sync {
        UnlockSelf();
      }
    }

    method UnlockSelf()
      requires Valid()
      modifies this`log, this`selfLock
      ensures Valid() && View() == Unlock(old(View()))
    {
      selfLock := selfLock + 1;
      log := After(log, Unlocked);
    }

    /** Drops the plugin's reference to the controller, which destroys it. */
    method ResetController()
      requires Valid() && modeChangeController != null && announced.None?
      modifies this`modeChangeController, this`log, this`references, this`selfLock,
               modeChangeController, workerPool`jobs, power`settings, power`lastKnownPowerState, power.store`opt
      ensures Valid() && View() == Supersede(old(View()))
    {
      ghost var id := modeChangeController.transactionId;
      var call := modeChangeController.Revoke();
      modeChangeController := null;
      if call.Some? {
        CompletionHandler(id, call.value, Platform(false, false));
      }
    }

    /** Makes the controller of a new transition, awaiting every registered client. */
    method NewController(target: PowerState) returns (controller: AckController)
      requires Valid()
      modifies this`nextTransactionId
      ensures fresh(controller) && controller.Valid() && controller.workerPool == workerPool
      ensures nextTransactionId == old(nextTransactionId) + 1
      ensures controller.View() ==
              NewTransaction(nextTransactionId, target, workerPool.now).(pending := modeChangeClients.Keys)
    {
      nextTransactionId := nextTransactionId + 1;
      controller := new AckController(workerPool, target, nextTransactionId);
      var rest := modeChangeClients.Keys;
      while rest != {}
        invariant rest <= modeChangeClients.Keys
        invariant fresh(controller) && controller.Valid() && controller.workerPool == workerPool
        invariant controller.View() ==
                  NewTransaction(nextTransactionId, target, workerPool.now).(pending := modeChangeClients.Keys - rest)
        decreases rest
      {
        var client :| client in rest;
        controller.AckAwait(client);
        rest := rest - {client};
      }
    }

    /** The request is answered without a transition. */
    method Decline(ghost e: Event)
      requires Valid()
      modifies this`log, this`selfLock
      ensures Valid() && View() == Unlock(old(View()).Emit(e))
    {
      log := After(log, e);
      UnlockSelf();
    }

    /** A request from deep sleep: ignored while the sleep is being entered, otherwise it ends the sleep. */
    method LeaveDeepSleep(newState: PowerState) returns (ignored: bool)
      requires Valid()
      modifies this`log, this`selfLock, deepSleep
      ensures Valid()
      ensures ignored == IsTransient(old(deepSleep.View()), workerPool.now)
      ensures ignored <==>
                && old(deepSleep.deepSleepState) == InProgress
                && var start := old(deepSleep.startTime);
                   start == None || start == Some(0) || workerPool.now - start.value < 5000
      ensures View() == if ignored then Unlock(old(View()).Emit(Transient(newState)))
                        else old(View()).(deepSleep := Deactivated(old(deepSleep.View())))
      ensures !ignored ==> deepSleep.View() == DeepSleep(NotStarted, old(deepSleep.startTime), true, false)
    {
      ignored := deepSleep.IsDeepSleepInProgress() && Elapsed(deepSleep.View(), workerPool.now) < TRANSIENT_THRESHOLD_MS;
      if ignored {
        Decline(Transient(newState));
        return;
      }
      var answer: Error := *;
      var errorCode := deepSleep.Deactivate(answer);
    }

    /** `SetPowerState` up to the announcement of the change. */
    method RequestPowerState(newState: PowerState) returns (waits: bool)
      requires Valid() && (selfLock != 0 ==> announced.None?)
      modifies this, modeChangeController, workerPool`jobs, deepSleep,
               power`settings, power`lastKnownPowerState, power.store`opt
      ensures Valid() && View() == RequestStep(old(View()), newState)
      ensures waits == (old(selfLock) == 0)
    {
      hide Open, Supersede, IsTransient, Deactivated, SettingsFile.LoadFile, SettingsFile.SamePersisted;
      waits := selfLock == 0;
      if waits {
        return;
      }
      selfLock := selfLock - 1;
      log := After(log, Locked);
      var currState := power.settings.powerState;
      if currState == newState {
        Decline(SameState(newState));
        return;
      }
      if currState == StandbyDeepSleep {
        var ignored := LeaveDeepSleep(newState);
        if ignored {
          return;
        }
      }
      if modeChangeController != null {
        if modeChangeController.powerState == newState {
          Decline(Redundant(newState));
          return;
        }
      }
      OpenTransition(newState);
    }

    /** The callbacks by which deep sleep reports its outcome. */
    method OnDeepSleepOutcome(outcome: Outcome, bootToStandby: bool) returns (waits: bool)
      requires Valid() && (selfLock != 0 ==> announced.None?)
      modifies this, modeChangeController, workerPool`jobs, deepSleep,
               power`settings, power`lastKnownPowerState, power.store`opt
      ensures Valid()
      ensures View() == ReportStep(old(View()), outcome, bootToStandby)
                     == match outcome
                        case GivenUp => old(View())
                        case TimerWakeup => RequestStep(old(View()), StandbyLightSleep)
                        case _ => RequestStep(old(View()), if bootToStandby then StandbyLightSleep else On)
      ensures waits == (!outcome.GivenUp? && old(selfLock) == 0)
    {
      hide RequestStep, SettingsFile.LoadFile, SettingsFile.SamePersisted;
      waits := false;
      match outcome {
        case GivenUp =>
        case TimerWakeup =>
          waits := RequestPowerState(StandbyLightSleep);
        case _ =>
          waits := RequestPowerState(if bootToStandby then StandbyLightSleep else On);
      }
    }

    /**
      From deep sleep, asked for last, with the lock free, the wake-up that the platform's last answer
      calls for is announced under the next id.
     */
    twostate predicate WokenUp(answer: Answer, bootToStandby: bool)
      reads this, modeChangeController, power
    {
      && old(selfLock) != 0
      && old(power.settings.powerState) == StandbyDeepSleep
      && old(modeChangeController != null && modeChangeController.powerState == StandbyDeepSleep)
      ==>
        var target := if answer == Answer(NoError, false) || bootToStandby then StandbyLightSleep else On;
        && announced == Some(Completion(StandbyDeepSleep, target, target == StandbyLightSleep))
        && nextTransactionId == old(nextTransactionId) + 1
    }

    /** The job that setting deep sleep submits: the activation, and the report of its outcome if there is one. */
    method RunDeepSleepJob(timeOut: nat, nwStandby: bool, delayOverride: nat, wakeupOverride: nat,
                           hal: nat -> Answer, deactivate: nat -> bool, bootToStandby: bool)
      returns (calls: nat, outcome: Option<Outcome>, ghost slept: DeepSleep)
      requires Valid() && (selfLock != 0 ==> announced.None?)
      modifies this, modeChangeController, workerPool`jobs, deepSleep,
               power`settings, power`lastKnownPowerState, power.store`opt
      ensures Valid()
      ensures outcome.None? <==> old(deepSleep.IsDeepSleepInProgress()) || delayOverride != 0
      ensures outcome.None? ==>
                View() == if old(deepSleep.IsDeepSleepInProgress()) then old(View())
                          else old(View()).(deepSleep := DeepSleep(InProgress, Some(workerPool.now), false, true))
      ensures outcome.Some? ==>
                && Leaves(DeepSleep(InProgress, Some(workerPool.now), false, old(deepSleep.delayJob)),
                          hal, deactivate, calls, outcome.value, slept)
                && View() == ReportStep(old(View()).(deepSleep := slept), outcome.value, bootToStandby)
                && (outcome.value != GivenUp ==> calls > 0 && WokenUp(hal(calls - 1), bootToStandby))
    {
      hide RequestStep, Explains, SettingsFile.LoadFile, SettingsFile.SamePersisted;
      calls, outcome := deepSleep.PerformActivate(workerPool.now, timeOut, nwStandby, delayOverride, wakeupOverride,
                                                  hal, deactivate);
      slept := deepSleep.View();
      if outcome.Some? {
        WakeupFollowsAnswer(DeepSleep(InProgress, Some(workerPool.now), false, old(deepSleep.delayJob)),
                            hal, deactivate, calls, outcome.value, slept, bootToStandby);
        ReportOpens(View(), outcome.value, bootToStandby);
        var waits := OnDeepSleepOutcome(outcome.value, bootToStandby);
      }
    }

    /** The delay job, for an activation whose entry was put off. */
    method RunDelayedSleepJob(hal: nat -> Answer, deactivate: nat -> bool, bootToStandby: bool)
      returns (calls: nat, outcome: Outcome, ghost slept: DeepSleep)
      requires Valid() && (selfLock != 0 ==> announced.None?) && deepSleep.delayJob
      modifies this, modeChangeController, workerPool`jobs, deepSleep,
               power`settings, power`lastKnownPowerState, power.store`opt
      ensures Valid()
      ensures Leaves(old(deepSleep.View()).(delayJob := false), hal, deactivate, calls, outcome, slept)
      ensures View() == ReportStep(old(View()).(deepSleep := slept), outcome, bootToStandby)
      ensures outcome != GivenUp ==> calls > 0 && WokenUp(hal(calls - 1), bootToStandby)
    {
      hide RequestStep, Explains, SettingsFile.LoadFile, SettingsFile.SamePersisted;
      calls, outcome := deepSleep.EnterDeepSleepDelayed(hal, deactivate);
      slept := deepSleep.View();
      WakeupFollowsAnswer(old(deepSleep.View()).(delayJob := false), hal, deactivate, calls, outcome, slept, bootToStandby);
      ReportOpens(View(), outcome, bootToStandby);
      var waits := OnDeepSleepOutcome(outcome, bootToStandby);
    }

    /** A new controller takes the place of the one there may be. */
    method OpenTransition(newState: PowerState)
      requires Valid() && announced.None?
      modifies this, modeChangeController, workerPool`jobs,
               power`settings, power`lastKnownPowerState, power.store`opt
      ensures Valid() && View() == Open(Supersede(old(View())), newState)
    {
      hide FinishHandler, Apply, SettingsFile.LoadFile, SettingsFile.SamePersisted;
      if modeChangeController != null {
        ResetController();
      }
      modeChangeController := NewController(newState);
      references := references + 1;
      var currState := power.settings.powerState;
      announced := Some(Completion(currState, newState, IsSyncStateChange(currState, newState)));
      log := After(log, Opened(nextTransactionId, currState, newState, IsSyncStateChange(currState, newState),
                               modeChangeClients.Keys, workerPool.now));
      log := After(log, Retained);
    }

    /** The rest of `SetPowerState`, once the change has been announced. */
    method StartPowerState(hal: Platform)
      requires Valid()
      modifies this, modeChangeController, workerPool`jobs, power`settings, power`lastKnownPowerState, power.store`opt
      ensures Valid() && View() == StartWaitStep(old(View()), hal)
    {
      if announced.None? {
        return;
      }
      var c := announced.value;
      announced := None;
      ghost var id := modeChangeController.transactionId;
      var timeOut := if c.sync then 0 else PRECHANGE_TIMEOUT_SEC;
      var call := modeChangeController.Schedule(timeOut * 1000, c);
      if call.Some? {
        log := After(log, Immediate(id, workerPool.now));
        CompletionHandler(id, call.value, hal);
      } else {
        log := After(log, Waiting(id, workerPool.now, timeOut * 1000));
      }
      if !c.sync {
        UnlockSelf();
      }
    }

    method PowerModePreChangeComplete(clientId: nat, transactionId: nat, hal: Platform) returns (status: Error)
      requires Valid()
      modifies this`log, this`references, this`selfLock, modeChangeController, workerPool`jobs,
               power`settings, power`lastKnownPowerState, power.store`opt
      ensures Valid() && View() == AnswerStep(old(View()), clientId, transactionId, hal)
      ensures status.NoError? <==>
                && modeChangeController != null
                && transactionId == modeChangeController.transactionId && clientId in old(modeChangeController.pending)
      ensures status.NoError? || status.InvalidParameter?
    {
      status := InvalidParameter;
      if modeChangeController != null {
        ghost var id := modeChangeController.transactionId;
        var call;
        status, call := modeChangeController.Ack(clientId, transactionId);
        if status.NoError? {
          log := After(log, Acknowledged(id, clientId));
        }
        if call.Some? {
          CompletionHandler(id, call.value, hal);
        }
      }
    }

    method DelayPowerModeChangeBy(clientId: nat, transactionId: nat, delayPeriod: nat) returns (status: Error)
      requires Valid()
      modifies this`log, modeChangeController, workerPool`jobs
      ensures Valid() && View() == DelayStep(old(View()), clientId, transactionId, delayPeriod)
      ensures status.NoError? <==>
                && modeChangeController != null
                && (!modeChangeController.running
                    || (transactionId == modeChangeController.transactionId && clientId in modeChangeController.pending))
      ensures status.NoError? || status.InvalidParameter?
    {
      status := InvalidParameter;
      if modeChangeController != null {
        status := modeChangeController.Reschedule(clientId, transactionId, delayPeriod * 1000);
        if status.NoError? {
          log := After(log, Delayed(modeChangeController.transactionId, workerPool.now + delayPeriod * 1000));
        }
      }
    }

    /** A known name is given the id it already has; a new one gets the next id. */
    method AddPowerModePreChangeClient(clientName: string) returns (status: Error, clientId: nat)
      requires Valid()
      modifies this`modeChangeClients, this`nextClientId
      ensures Valid() && View() == AddClientStep(old(View()), clientName)
      ensures status == if clientName == "" then InvalidParameter else NoError
      ensures status.NoError? ==> clientId in modeChangeClients && modeChangeClients[clientId] == clientName
    {
      clientId := 0;
      if clientName == "" {
        return InvalidParameter, clientId;
      }
      status := NoError;
      if exists id | id in modeChangeClients :: modeChangeClients[id] == clientName {
        clientId :| clientId in modeChangeClients && modeChangeClients[clientId] == clientName;
      } else {
        nextClientId := nextClientId + 1;
        clientId := nextClientId;
        modeChangeClients := modeChangeClients[clientId := clientName];
      }
    }

    method RemovePowerModePreChangeClient(clientId: nat, hal: Platform) returns (status: Error)
      requires Valid()
      modifies this`modeChangeClients, this`log, this`references, this`selfLock, modeChangeController,
               workerPool`jobs, power`settings, power`lastKnownPowerState, power.store`opt
      ensures Valid() && View() == RemoveClientStep(old(View()), clientId, hal)
      ensures status == if clientId in old(modeChangeClients) then NoError else InvalidParameter
      ensures modeChangeClients == old(modeChangeClients) - {clientId}
    {
      status := InvalidParameter;
      if clientId in modeChangeClients {
        modeChangeClients := modeChangeClients - {clientId};
        if modeChangeController != null {
          var ignored := PowerModePreChangeComplete(clientId, modeChangeController.transactionId, hal);
        }
        status := NoError;
      }
    }

    /** The worker pool dispatches a timer job that is due. */
    method TimerJob(job: nat, hal: Platform)
      requires Valid()
      modifies this`log, this`references, this`selfLock, modeChangeController, workerPool`jobs,
               power`settings, power`lastKnownPowerState, power.store`opt
      ensures Valid() && View() == TimerStep(old(View()), job, hal)
    {
      var due := workerPool.Take(job);
      if !due {
        return;
      }
      if modeChangeController != null && modeChangeController.transactionId == job {
        var call := modeChangeController.TimerExpired();
        if call.Some? {
          CompletionHandler(job, call.value, hal);
          return;
        }
      }
      log := After(log, OrphanTimeout);
    }

    ghost function Net(): NetworkStandby.Net
      reads this, power, power.platform
    {
      NetworkStandby.Net(power.platform.flags, power.settings.nwStandbyMode)
    }

    method SetNetworkStandbyMode(mode: bool, broken: set<WakeupSource>) returns (status: Error)
      requires Valid()
      modifies power`settings, power.store`opt, power.platform
      ensures Valid() && View() == old(View())
      ensures (status, Net()) == NetworkStandby.SetStandby(old(Net()), mode, broken)
    {
      status := power.SetNetworkStandbyMode(mode, broken);
    }

    method SetWakeupSourceConfig(configs: seq<SourceConfig>, broken: set<WakeupSource>) returns (status: Error)
      requires Valid()
      modifies power`settings, power.store`opt, power.platform
      ensures Valid() && View() == old(View())
      ensures (status, Net()) == NetworkStandby.SetSources(old(Net()), configs, broken)
    {
      AllSources();
      status := power.SetWakeupSourceConfig(configs, broken);
      if !status.NoError? {
        return;
      }
      var currConfigs;
      status, currConfigs := power.GetWakeupSourceConfig(broken);
      if !status.NoError? {
        return;
      }
      var isWiFiEnabled := NetworkStandby.IsWakeupSrcEnabled(currConfigs, Wifi);
      var isLanEnabled := NetworkStandby.IsWakeupSrcEnabled(currConfigs, Lan);
      if isWiFiEnabled != isLanEnabled {
        return;
      }
      var nwStandbyMode := isWiFiEnabled && isLanEnabled;
      if nwStandbyMode == power.settings.nwStandbyMode {
        return;
      }
      status := SetNetworkStandbyMode(nwStandbyMode, broken);
    }
  }
}
