/**
  The power-mode transition protocol as a state machine.  A state holds what the plugin holds,
  the clock and the worker pool's timer jobs, and a log of everything observable; an action is
  one public call, one dispatch of the timer job, or a move of the environment.

  `SetPowerState` is two actions, `Request` and `StartWait`: it opens the transition under the
  API lock, releases that lock to announce the change, and only then starts to wait.
 */
module PowerProtocol {
  import opened PowerTypes
  import opened AckControl
  import opened DeepSleepControl

  const PRECHANGE_TIMEOUT_SEC: nat := 1

  datatype Event =
    | Locked
    | Unlocked
    | Retained
    | Released
    | SameState(to: PowerState)
    | Transient(to: PowerState)
    | Redundant(to: PowerState)
    | Opened(id: nat, from: PowerState, to: PowerState, sync: bool, awaited: set<nat>, at: nat)
    | Immediate(id: nat, at: nat)
    | Waiting(id: nat, at: nat, offset: nat)
    | Acknowledged(id: nat, client: nat)
    | Delayed(id: nat, until: nat)
    | Called(id: nat, timedOut: bool, revoked: bool, at: nat)
    | Refused(id: nat, to: PowerState)
    | PlatformFailed(id: nat, to: PowerState, at: nat)
    | Applied(id: nat, to: PowerState, at: nat)
    | Changed(from: PowerState, to: PowerState)
    | SleepSubmitted
    | OrphanTimeout

  /** Everything observed so far, the latest event outermost. */
  datatype Log = Start | After(earlier: Log, event: Event)

  datatype State = State(
    now: nat,
    jobs: map<nat, nat>,
    current: PowerState,
    previous: PowerState,
    deepSleep: DeepSleep,
    clients: map<nat, string>,
    lastClient: nat,
    controller: Option<Transaction>,
    lastId: nat,
    window: Option<Completion>,  // the request that is announced but not yet waiting
    selfLock: nat,               // permits of the binary semaphore
    references: int,             // AddRef minus Release
    log: Log)
  {
    function Emit(e: Event): State {
      this.(log := After(log, e))
    }

    predicate Running() {
      controller.Some? && controller.value.running
    }

    /** A transition is under way: announced, or waiting for its clients. */
    predicate InTransition() {
      window.Some? || Running()
    }
  }

  datatype Action =
    | Tick(ms: nat)
    | Request(target: PowerState)
    | StartWait(hal: Platform)
    | Complete(client: nat, id: nat, hal: Platform)
    | Delay(client: nat, id: nat, seconds: nat)
    | AddClient(name: string)
    | RemoveClient(client: nat, hal: Platform)
    | TimerFires(job: nat, hal: Platform)
    | DeepSleepBecomes(deepSleep: DeepSleep)

  /** The plugin just after start-up, with the states its power controller then reports. */
  function Boot(current: PowerState, previous: PowerState): State {
    State(0, map[], current, previous, DeepSleep(NotStarted, None, false, false),
          map[], 0, None, 0, None, 1, 0, Start)
  }

  function Unlock(s: State): State {
    s.(selfLock := s.selfLock + 1).Emit(Unlocked)
  }

  /** `setDevicePowerState`: apply the change, and announce it only if the platform accepted it. */
  function Apply(s: State, id: nat, c: Completion, hal: Platform): State {
    if hal.ignoreDeepSleep && c.to == StandbyDeepSleep then
      s.Emit(Refused(id, c.to))
    else if !hal.ok then
      s.Emit(PlatformFailed(id, c.to, s.now))
    else
      var applied := s.(current := c.to, previous := s.current)
                      .Emit(Applied(id, c.to, s.now)).Emit(Changed(c.from, c.to));
      if c.to == StandbyDeepSleep then applied.Emit(SleepSubmitted) else applied
  }

  /** How every call of the completion handler ends. */
  function FinishHandler(s: State, c: Completion): State {
    var released := s.(references := s.references - 1).Emit(Released);
    if c.sync then Unlock(released) else released
  }

  function RunHandler(s: State, id: nat, c: Completion, timedOut: bool, hal: Platform): State {
    FinishHandler(Apply(s.Emit(Called(id, timedOut, false, s.now)), id, c, hal), c)
  }

  function AbortHandler(s: State, id: nat, c: Completion): State {
    FinishHandler(s.Emit(Called(id, false, true, s.now)), c)
  }

  /** Dropping the reference to the controller destroys it; if it is running its handler hears of it. */
  function Supersede(s: State): State {
    if s.Running() then
      var t := s.controller.value;
      AbortHandler(s.(controller := None, jobs := s.jobs - {t.id}), t.id, t.handler.value)
    else
      s.(controller := None)
  }

  function Open(s: State, target: PowerState): State {
    var id := s.lastId + 1;
    var sync := IsSyncStateChange(s.current, target);
    var t := NewTransaction(id, target, s.now).(pending := s.clients.Keys);
    s.(lastId := id, controller := Some(t), references := s.references + 1,
       window := Some(Completion(s.current, target, sync)))
     .Emit(Opened(id, s.current, target, sync, s.clients.Keys, s.now))
     .Emit(Retained)
  }

  predicate IgnoredAsTransient(s: State) {
    s.current == StandbyDeepSleep && IsTransient(s.deepSleep, s.now)
  }

  predicate IgnoredAsRedundant(s: State, target: PowerState) {
    s.controller.Some? && s.controller.value.target == target
  }

  /** The first half of `SetPowerState`.  A caller that finds the lock taken keeps waiting for it. */
  function RequestStep(s: State, target: PowerState): State {
    if s.selfLock == 0 then s
    else
      var locked := s.(selfLock := s.selfLock - 1).Emit(Locked);
      if s.current == target then
        Unlock(locked.Emit(SameState(target)))
      else if IgnoredAsTransient(s) then
        Unlock(locked.Emit(Transient(target)))
      else
        var woken := if s.current == StandbyDeepSleep
                     then locked.(deepSleep := Deactivated(locked.deepSleep)) else locked;
        if IgnoredAsRedundant(woken, target) then
          Unlock(woken.Emit(Redundant(target)))
        else
          Open(Supersede(woken), target)
  }

  /** The report of a deep sleep's outcome requests the state it names, if any. */
  function ReportStep(s: State, outcome: Outcome, bootToStandby: bool): State {
    match WakeupTarget(outcome, bootToStandby)
    case None => s
    case Some(target) => RequestStep(s, target)
  }

  lemma OpensNext(s: State, target: PowerState)
    ensures var s' := Open(Supersede(s), target);
            && s'.lastId == s.lastId + 1
            && s'.window == Some(Completion(s.current, target, IsSyncStateChange(s.current, target)))
  {
  }

  /** The requests that open a transition, and which one. */
  lemma RequestOpensExactly(s: State, target: PowerState)
    requires s.selfLock > 0
    ensures var s' := RequestStep(s, target);
            var opens := s.current != target && !IgnoredAsTransient(s) && !IgnoredAsRedundant(s, target);
            && s'.lastId == s.lastId + (if opens then 1 else 0)
            && s'.window == if opens then Some(Completion(s.current, target, IsSyncStateChange(s.current, target)))
                            else s.window
  {
    hide Open, Supersede;
    var locked := s.(selfLock := s.selfLock - 1).Emit(Locked);
    OpensNext(locked, target);
    OpensNext(locked.(deepSleep := Deactivated(locked.deepSleep)), target);
  }

  /** A report made once the sleep has left the state InProgress opens its wake-up unless that was asked for last. */
  lemma ReportOpens(s: State, outcome: Outcome, bootToStandby: bool)
    ensures var s' := ReportStep(s, outcome, bootToStandby);
            !outcome.GivenUp? && s.selfLock > 0 && s.current == StandbyDeepSleep && s.deepSleep.state != InProgress ==>
              var target := if outcome.TimerWakeup? || bootToStandby then StandbyLightSleep else On;
              (&& s'.lastId == s.lastId + 1
               && s'.window == Some(Completion(StandbyDeepSleep, target, target == StandbyLightSleep)))
              <==> !IgnoredAsRedundant(s, target)
  {
    hide RequestStep;
    if !outcome.GivenUp? && s.selfLock > 0 {
      RequestOpensExactly(s, WakeupTarget(outcome, bootToStandby).value);
    }
  }

  function OffsetMs(c: Completion): nat {
    (if c.sync then 0 else PRECHANGE_TIMEOUT_SEC) * 1000
  }

  /** The second half: `Schedule`, then the lock is given back unless the change is synchronous. */
  function StartWaitStep(s: State, hal: Platform): State {
    match (s.window, s.controller)
    case (Some(c), Some(t)) =>
      var offset := OffsetMs(c);
      var scheduled :=
        if WaitsFor(t, offset) then
          var t' := Started(t, s.now, offset, c);
          s.(window := None, controller := Some(t'), jobs := s.jobs[t.id := t'.timeout])
           .Emit(Waiting(t.id, s.now, offset))
        else
          RunHandler(s.(window := None).Emit(Immediate(t.id, s.now)), t.id, c, false, hal);
      if c.sync then scheduled else Unlock(scheduled)
    case _ => s
  }

  /** An acknowledgement; the last one that is awaited completes a running transition. */
  function AnswerStep(s: State, client: nat, id: nat, hal: Platform): State {
    match s.controller
    case None => s
    case Some(t) =>
      if !Accepts(t, client, id) then s
      else
        var answered := s.(controller := Some(Answered(t, client))).Emit(Acknowledged(t.id, client));
        if Completes(t, client) then
          RunHandler(answered.(jobs := s.jobs - {t.id}), t.id, t.handler.value, false, hal)
        else
          answered
  }

  function DelayStep(s: State, client: nat, id: nat, seconds: nat): State {
    match s.controller
    case None => s
    case Some(t) =>
      if !DelayAccepted(t, client, id) then s
      else
        var until := s.now + seconds * 1000;
        s.(controller := Some(t.(timeout := Max(t.timeout, until))),
           jobs := if t.running && t.timeout < until then s.jobs[t.id := until] else s.jobs)
         .Emit(Delayed(t.id, until))
  }

  /** The id under which a client name is registered, if it is. */
  ghost function Registered(clients: map<nat, string>, name: string): Option<nat> {
    if exists id :: id in clients && clients[id] == name
    then var id :| id in clients && clients[id] == name; Some(id)
    else None
  }

  ghost function AddClientStep(s: State, name: string): State {
    if name == "" || Registered(s.clients, name).Some? then s
    else s.(lastClient := s.lastClient + 1, clients := s.clients[s.lastClient + 1 := name])
  }

  function RemoveClientStep(s: State, client: nat, hal: Platform): State {
    if client !in s.clients then s
    else
      var removed := s.(clients := s.clients - {client});
      if s.controller.Some? then AnswerStep(removed, client, s.controller.value.id, hal) else removed
  }

  /** The pool dispatches a due job, whose weak reference resolves only to the live controller. */
  function TimerStep(s: State, job: nat, hal: Platform): State {
    if job !in s.jobs || s.now < s.jobs[job] then s
    else
      var taken := s.(jobs := s.jobs - {job});
      if s.Running() && s.controller.value.id == job then
        var t := s.controller.value;
        RunHandler(taken.(controller := Some(Stopped(t))), job, t.handler.value, true, hal)
      else
        taken.Emit(OrphanTimeout)
  }

  ghost function Step(s: State, a: Action): State {
    match a
    case Tick(ms) => s.(now := s.now + ms)
    case Request(target) => RequestStep(s, target)
    case StartWait(hal) => StartWaitStep(s, hal)
    case Complete(client, id, hal) => AnswerStep(s, client, id, hal)
    case Delay(client, id, seconds) => DelayStep(s, client, id, seconds)
    case AddClient(name) => AddClientStep(s, name)
    case RemoveClient(client, hal) => RemoveClientStep(s, client, hal)
    case TimerFires(job, hal) => TimerStep(s, job, hal)
    case DeepSleepBecomes(d) => s.(deepSleep := d)
  }

  /** Any sequence of actions, in any order. */
  ghost function Run(s: State, actions: seq<Action>): State
    decreases |actions|
  {
    if actions == [] then s
    else Step(Run(s, actions[..|actions| - 1]), actions[|actions| - 1])
  }
}
