/**
  What each action does in every state a run can reach, field by field and with nothing left
  open: exactly when it has an effect, what that is, and what it leaves alone.  `s.Running()` and
  `Entries(s)` aside, the statements are in terms of the plugin's fields, the actions' parameters
  and the states' names.
 */
module ProtocolActions {
  import opened PowerTypes
  import opened AckControl
  import opened PowerProtocol
  import opened ProtocolHistory
  import opened ProtocolInvariants
  import opened ProtocolSteps
  import opened ProtocolTheorems
  import D = DeepSleepControl

  function Latest(a: nat, b: nat): nat {
    if a >= b then a else b
  }

  /** The platform is asked for the change and makes it. */
  predicate TakenUp(to: PowerState, hal: Platform) {
    hal.ok && (to == StandbyDeepSleep ==> !hal.ignoreDeepSleep)
  }

  /** A sleep is being entered that began less than five seconds ago, or at no known time. */
  predicate EnteringSleep(s: State) {
    && s.current == StandbyDeepSleep
    && s.deepSleep.state == D.InProgress
    && (s.deepSleep.startedAt == None || s.deepSleep.startedAt == Some(0) || s.now < s.deepSleep.startedAt.value + 5000)
  }

  predicate LastTarget(es: seq<Entry>, target: PowerState) {
    es != [] && es[|es| - 1].to == target
  }

  predicate Opens(s: State, es: seq<Entry>, target: PowerState) {
    s.window == None && target != s.current && !EnteringSleep(s) && !LastTarget(es, target)
  }

  /** The latest entry, after one more call of the handler of its transition. */
  function Called(es: seq<Entry>, timedOut: bool, revoked: bool, taken: bool): seq<Entry> {
    if es == [] then []
    else
      var x := es[|es| - 1];
      es[|es| - 1 := x.(calls := x.calls + 1,
                        timeouts := x.timeouts + (if timedOut then 1 else 0),
                        revocations := x.revocations + (if revoked then 1 else 0),
                        successes := x.successes + (if !revoked && taken then 1 else 0),
                        failures := x.failures + (if !revoked && !taken then 1 else 0))]
  }

  /** The plugin's state once an attempt at a change has ended its transition. */
  function Attempted(s: State, to: PowerState, hal: Platform, log: Log): State {
    s.(window := None, jobs := map[], selfLock := 1, references := 0, log := log,
       current := if TakenUp(to, hal) then to else s.current,
       previous := if TakenUp(to, hal) then s.current else s.previous)
  }

  // ----- A request

  /** What a request from deep sleep does to the sleep, unless it is ignored. */
  function Woken(s: State, target: PowerState): D.DeepSleep {
    if s.window == None && s.current == StandbyDeepSleep && target != StandbyDeepSleep && !EnteringSleep(s)
    then D.DeepSleep(D.NotStarted, s.deepSleep.startedAt, true, false)
    else s.deepSleep
  }

  /**
    A request opens the next transition, from the current state and awaiting every registered
    client, exactly if no other is being announced, it asks for another state, no sleep is just
    being entered, and the latest transition had another target.  A running transition is revoked.
   */
  lemma RequestOpens(boot: Change, actions: seq<Action>, target: PowerState)
    requires var s := Reached(boot, actions); Opens(s, Entries(s), target)
    ensures var (s, s') := (Reached(boot, actions), Reached(boot, actions + [Request(target)]));
            var (es, sync) := (Entries(s), s.current == StandbyDeepSleep && target == StandbyLightSleep);
            && s' == s.(lastId := s.lastId + 1, deepSleep := Woken(s, target), selfLock := 0, references := 1,
                        window := Some(Completion(s.current, target, sync)), jobs := map[],
                        controller := Some(TransactionFields(s.lastId + 1, target, s.clients.Keys, false, s.now, false, None)),
                        log := s'.log)
            && Entries(s') ==
               (if s.Running() then Called(es, false, true, false) else es)
               + [Entry(s.lastId + 1, s.current, target, sync, s.clients.Keys, {}, s.now, 0, None, 0, 0, 0, 0, 0)]
  {
    hide Audit, Open, Supersede;
    StepFrom(boot, actions, Request(target));
    var s := Reached(boot, actions);
    GuardsMatch(s, boot, target);
    RequestCases(s, target);
    LockedKeeps(s, boot, Woken(s, target));
    var locked := s.(selfLock := 0, deepSleep := Woken(s, target)).Emit(Locked);
    assert RequestStep(s, target) == Open(Supersede(locked), target);
    OpenedState(locked, boot, target);
  }

  /** Any other request changes at most the sleep it wakes the plugin from. */
  lemma RequestDeclined(boot: Change, actions: seq<Action>, target: PowerState)
    requires var s := Reached(boot, actions); !Opens(s, Entries(s), target)
    ensures var (s, s') := (Reached(boot, actions), Reached(boot, actions + [Request(target)]));
            s' == s.(deepSleep := Woken(s, target), log := s'.log) && Entries(s') == Entries(s)
  {
    hide Run, Audit, RequestStep, Inv, StepsTo;
    StepFrom(boot, actions, Request(target));
    var s := Reached(boot, actions);
    GuardsMatch(s, boot, target);
    if s.window == None {
      var e := if s.current == target then SameState(target)
               else if EnteringSleep(s) then Transient(target) else Redundant(target);
      DeclinedState(s, target, e);
      QuietEntries(s, e);
    } else {
      LockTaken(s, target);
    }
  }

  lemma DeclinedState(s: State, target: PowerState, e: Event)
    requires s.selfLock == 1 && s.window == None
    requires IgnoredAsTransient(s) <==> EnteringSleep(s)
    requires if s.current == target then e == SameState(target)
             else if EnteringSleep(s) then e == Transient(target)
             else e == Redundant(target) && IgnoredAsRedundant(s, target)
    ensures RequestStep(s, target) ==
            s.(deepSleep := Woken(s, target), log := After(After(After(s.log, Locked), e), Unlocked))
  {
    hide Open, Supersede, IgnoredAsTransient, IgnoredAsRedundant;
    RequestCases(s, target);
  }

  lemma LockTaken(s: State, target: PowerState)
    requires s.selfLock == 0 && s.window.Some?
    ensures RequestStep(s, target) == s.(deepSleep := Woken(s, target))
  {
  }

  lemma GuardsMatch(s: State, boot: Change, target: PowerState)
    requires Inv(s, boot)
    ensures IgnoredAsTransient(s) <==> EnteringSleep(s)
    ensures IgnoredAsRedundant(s, target) <==> LastTarget(Entries(s), target)
    ensures s.selfLock == (if s.window == None then 1 else 0)
  {
  }

  lemma QuietEntries(s: State, e: Event)
    requires e.SameState? || e.Transient? || e.Redundant?
    ensures Audit(After(After(After(s.log, Locked), e), Unlocked)).entries == Entries(s)
  {
    assert Audit(After(After(s.log, Locked), e)).entries == Audit(After(s.log, Locked)).entries == Entries(s);
  }

  lemma OpenedState(s: State, boot: Change, target: PowerState)
    requires Machine(s) && Books(s, boot) && s.window.None?
    ensures var s' := Open(Supersede(s), target);
            var (es, sync) := (Entries(s), s.current == StandbyDeepSleep && target == StandbyLightSleep);
            && (s.Running() ==> es != [])
            && s' == s.(lastId := s.lastId + 1, references := 1,
                        window := Some(Completion(s.current, target, sync)), jobs := map[],
                        controller := Some(TransactionFields(s.lastId + 1, target, s.clients.Keys, false, s.now, false, None)),
                        log := s'.log)
            && Entries(s') ==
               (if s.Running() then Called(es, false, true, false) else es)
               + [Entry(s.lastId + 1, s.current, target, sync, s.clients.Keys, {}, s.now, 0, None, 0, 0, 0, 0, 0)]
  {
    assert s.Running() ==> Entries(s) != [];
    SupersedeCloses(s, boot);
    SupersedeEntries(s, boot);
    hide Audit, Books, Machine, Supersede, Open;
    OpenEntries(Supersede(s), target);
    OpenState(Supersede(s), target);
  }

  lemma OpenState(s: State, target: PowerState)
    ensures var s' := Open(s, target);
            var sync := s.current == StandbyDeepSleep && target == StandbyLightSleep;
            s' == s.(lastId := s.lastId + 1, references := s.references + 1,
                     window := Some(Completion(s.current, target, sync)),
                     controller := Some(TransactionFields(s.lastId + 1, target, s.clients.Keys, false, s.now, false, None)),
                     log := s'.log)
  {
  }

  // ----- The start of the wait

  // ----- The start of the wait

  /** A synchronous change, and one that nobody is awaited for, is attempted at once. */
  lemma StartWaitAttempts(boot: Change, actions: seq<Action>, hal: Platform)
    requires var s := Reached(boot, actions);
             && s.window.Some? && s.controller.Some?
             && (s.controller.value.pending == {}
                 || (s.window.value.from == StandbyDeepSleep && s.window.value.to == StandbyLightSleep))
    ensures var (s, s') := (Reached(boot, actions), Reached(boot, actions + [StartWait(hal)]));
            var (c, es) := (s.window.value, Entries(s));
            && es != []
            && s' == Attempted(s, c.to, hal, s'.log)
            && Entries(s') == Called(es[|es| - 1 := es[|es| - 1].(schedules := 1)], false, false, TakenUp(c.to, hal))
  {
    hide Audit;
    StepFrom(boot, actions, StartWait(hal));
    AttemptEffect(Reached(boot, actions), boot, hal);
  }

  lemma AttemptEffect(s: State, boot: Change, hal: Platform)
    requires Inv(s, boot) && s.window.Some?
    requires s.controller.value.pending == {}
             || (s.window.value.from == StandbyDeepSleep && s.window.value.to == StandbyLightSleep)
    ensures var (c, es, s') := (s.window.value, Entries(s), StartWaitStep(s, hal));
            && es != []
            && s' == Attempted(s, c.to, hal, s'.log)
            && Entries(s') == Called(es[|es| - 1 := es[|es| - 1].(schedules := 1)], false, false, TakenUp(c.to, hal))
  {
    var (c, t) := (s.window.value, s.controller.value);
    assert OffsetMs(c) == 0 || t.pending == {};
    ImmediateEntries(s, boot, hal);
    hide Audit;
    ImmediateState(s, hal);
  }

  lemma ImmediateState(s: State, hal: Platform)
    requires Machine(s) && Locking(s) && s.window.Some? && (OffsetMs(s.window.value) == 0 || s.controller.value.pending == {})
    ensures var s' := StartWaitStep(s, hal); s' == Attempted(s, s.window.value.to, hal, s'.log)
  {
  }

  /**
    Any other waits: its timer job is due after one second, or as late as the latest delay that
    was taken before.
   */
  lemma StartWaitWaits(boot: Change, actions: seq<Action>, hal: Platform)
    requires var s := Reached(boot, actions);
             && s.window.Some? && s.controller.Some? && s.controller.value.pending != {}
             && !(s.window.value.from == StandbyDeepSleep && s.window.value.to == StandbyLightSleep)
    ensures var (s, s') := (Reached(boot, actions), Reached(boot, actions + [StartWait(hal)]));
            var (c, t, es) := (s.window.value, s.controller.value, Entries(s));
            var due := Latest(t.timeout, s.now + 1000);
            && es != []
            && s' == s.(window := None, selfLock := 1, jobs := map[s.lastId := due], log := s'.log,
                        controller := Some(t.(running := true, timeout := due, hasTimer := true, handler := Some(c))))
            && Entries(s') == es[|es| - 1 := es[|es| - 1].(schedules := 1, waitsFrom := Some(s.now), deadline := due)]
  {
    hide Audit;
    StepFrom(boot, actions, StartWait(hal));
    WaitEffect(Reached(boot, actions), boot, hal);
  }

  lemma WaitEffect(s: State, boot: Change, hal: Platform)
    requires Inv(s, boot) && s.window.Some? && s.controller.value.pending != {}
    requires !(s.window.value.from == StandbyDeepSleep && s.window.value.to == StandbyLightSleep)
    ensures var s' := StartWaitStep(s, hal);
            var (c, t, es) := (s.window.value, s.controller.value, Entries(s));
            var due := Latest(t.timeout, s.now + 1000);
            && es != []
            && s' == s.(window := None, selfLock := 1, jobs := map[s.lastId := due], log := s'.log,
                        controller := Some(t.(running := true, timeout := due, hasTimer := true, handler := Some(c))))
            && Entries(s') == es[|es| - 1 := es[|es| - 1].(schedules := 1, waitsFrom := Some(s.now), deadline := due)]
  {
    var waiting := After(s.log, Waiting(s.lastId, s.now, 1000));
    assert Audit(waiting) == Record(Audit(s.log), Waiting(s.lastId, s.now, 1000));
    assert StartWaitStep(s, hal).log == After(waiting, Unlocked);
  }

  lemma NothingToStart(boot: Change, actions: seq<Action>, hal: Platform)
    requires Reached(boot, actions).window == None
    ensures Reached(boot, actions + [StartWait(hal)]) == Reached(boot, actions)
  {
    StepFrom(boot, actions, StartWait(hal));
  }

  // ----- Answers

  /** An acknowledgement counts exactly if it names the latest transition and comes from a client that is awaited. */
  predicate Counts(s: State, client: nat, id: nat) {
    s.controller.Some? && id == s.lastId && client in s.controller.value.pending
  }

  lemma AnswerRefused(boot: Change, actions: seq<Action>, client: nat, id: nat, hal: Platform)
    requires !Counts(Reached(boot, actions), client, id)
    ensures Reached(boot, actions + [Complete(client, id, hal)]) == Reached(boot, actions)
  {
    StepFrom(boot, actions, Complete(client, id, hal));
  }

  /** The last answer that a running transition awaits leads to its attempt; any other is only noted. */
  lemma AnswerTaken(boot: Change, actions: seq<Action>, client: nat, id: nat, hal: Platform)
    requires Counts(Reached(boot, actions), client, id)
    ensures var (s, s') := (Reached(boot, actions), Reached(boot, actions + [Complete(client, id, hal)]));
            var (t, es) := (s.controller.value, Entries(s));
            && es != []
            && var noted := es[|es| - 1 := es[|es| - 1].(answered := es[|es| - 1].answered + {client})];
               if s.Running() && t.pending == {client} then
                 && s' == Attempted(s.(controller := Some(t.(pending := {}, running := false))), t.target, hal, s'.log)
                 && Entries(s') == Called(noted, false, false, TakenUp(t.target, hal))
               else
                 && s' == s.(controller := Some(t.(pending := t.pending - {client})), log := s'.log)
                 && Entries(s') == noted
  {
    hide Run, Audit, AnswerStep, Attempted, Called, Inv, StepsTo;
    StepFrom(boot, actions, Complete(client, id, hal));
    var s := Reached(boot, actions);
    if s.Running() && s.controller.value.pending == {client} {
      LastAnswerEffect(s, boot, client, hal);
    } else {
      EarlyAnswerEffect(s, boot, client, hal);
    }
  }

  lemma LastAnswerEffect(s: State, boot: Change, client: nat, hal: Platform)
    requires Inv(s, boot) && s.Running() && s.controller.value.pending == {client}
    ensures var (t, es, s') := (s.controller.value, Entries(s), AnswerStep(s, client, s.lastId, hal));
            && es != []
            && s' == Attempted(s.(controller := Some(t.(pending := {}, running := false))), t.target, hal, s'.log)
            && Entries(s') == Called(es[|es| - 1 := es[|es| - 1].(answered := es[|es| - 1].answered + {client})],
                                     false, false, TakenUp(t.target, hal))
  {
    assert s.controller.value.pending - {client} == {};
    LastAnswerEntries(s, boot, client, hal);
    hide Audit, AnswerStep;
    LastAnswerState(s, client, hal);
  }

  lemma LastAnswerState(s: State, client: nat, hal: Platform)
    requires Machine(s) && Locking(s) && s.Running() && s.controller.value.pending == {client}
    ensures var (t, s') := (s.controller.value, AnswerStep(s, client, s.lastId, hal));
            s' == Attempted(s.(controller := Some(t.(pending := {}, running := false))), t.target, hal, s'.log)
  {
    assert s.controller.value.pending - {client} == {};
  }

  lemma EarlyAnswerEffect(s: State, boot: Change, client: nat, hal: Platform)
    requires Inv(s, boot) && Counts(s, client, s.lastId) && !(s.Running() && s.controller.value.pending == {client})
    ensures var (t, es, s') := (s.controller.value, Entries(s), AnswerStep(s, client, s.lastId, hal));
            && es != []
            && s' == s.(controller := Some(t.(pending := t.pending - {client})), log := s'.log)
            && Entries(s') == es[|es| - 1 := es[|es| - 1].(answered := es[|es| - 1].answered + {client})]
  {
    var t := s.controller.value;
    assert t.pending - {client} == {} ==> t.pending == {client};
    assert Audit(After(s.log, Acknowledged(s.lastId, client))) == Record(Audit(s.log), Acknowledged(s.lastId, client));
  }

  // ----- Delays

  /**
    A delay is taken exactly if the latest transition is not running, or the delay names it and
    comes from a client that is awaited.  It can only move the deadline to a later time, and the
    timer job of a running transition with it.
   */
  lemma DelayExactly(boot: Change, actions: seq<Action>, client: nat, id: nat, seconds: nat)
    ensures var (s, s') := (Reached(boot, actions), Reached(boot, actions + [Delay(client, id, seconds)]));
            if s.controller.Some? && (!s.Running() || (id == s.lastId && client in s.controller.value.pending)) then
              var (t, es) := (s.controller.value, Entries(s));
              var due := Latest(t.timeout, s.now + 1000 * seconds);
              && es != [] && es[|es| - 1].deadline == t.timeout
              && s' == s.(controller := Some(t.(timeout := due)), log := s'.log,
                          jobs := if s.Running() then map[s.lastId := due] else map[])
              && Entries(s') == es[|es| - 1 := es[|es| - 1].(deadline := due)]
            else
              s' == s
  {
    hide Run, Audit, StepsTo;
    StepFrom(boot, actions, Delay(client, id, seconds));
    var s := Reached(boot, actions);
    if s.controller.Some? && DelayAccepted(s.controller.value, client, id) {
      hide DelayStep;
      DelayLedger(s, boot, client, id, seconds);
    }
  }

  // ----- The registry

  /** A new name is registered under the next id; an empty or a known one changes nothing. */
  lemma AddClientExactly(boot: Change, actions: seq<Action>, name: string)
    ensures var (s, s') := (Reached(boot, actions), Reached(boot, actions + [AddClient(name)]));
            s' == if name == "" || (exists c :: c in s.clients && s.clients[c] == name) then s
                  else s.(lastClient := s.lastClient + 1, clients := s.clients[s.lastClient + 1 := name])
  {
    StepFrom(boot, actions, AddClient(name));
  }

  /**
    Removing a client takes it out of the registry, and no other; if it was there, it also counts
    as its answer to the latest transition.
   */
  lemma RemoveClientExactly(boot: Change, actions: seq<Action>, client: nat, hal: Platform)
    ensures var (s, s') := (Reached(boot, actions), Reached(boot, actions + [RemoveClient(client, hal)]));
            var answered := Reached(boot, actions + [Complete(client, s.lastId, hal)]);
            s' == (if client in s.clients then answered else s).(clients := s.clients - {client})
  {
    StepFrom(boot, actions, RemoveClient(client, hal));
    StepFrom(boot, actions, Complete(client, Reached(boot, actions).lastId, hal));
    RemovalIsAnswer(Reached(boot, actions), boot, client, hal);
  }

  lemma RemovalIsAnswer(s: State, boot: Change, client: nat, hal: Platform)
    requires Inv(s, boot)
    ensures RemoveClientStep(s, client, hal) ==
            (if client in s.clients then AnswerStep(s, client, s.lastId, hal) else s).(clients := s.clients - {client})
  {
    hide Audit, Books, Registry, RunHandler;
    if client in s.clients && s.controller.Some? {
      AnswerIgnoresRegistry(s, s.clients - {client}, client, hal);
    }
    assert client !in s.clients ==> s.clients - {client} == s.clients;
  }

  lemma AnswerIgnoresRegistry(s: State, clients: map<nat, string>, client: nat, hal: Platform)
    requires s.Running() ==> s.controller.value.handler.Some?
    ensures AnswerStep(s.(clients := clients), client, s.lastId, hal) ==
            AnswerStep(s, client, s.lastId, hal).(clients := clients)
    ensures AnswerStep(s, client, s.lastId, hal).lastClient == s.lastClient
  {
    hide RunHandler;
    if s.controller.Some? {
      var t := s.controller.value;
      var answered := s.(controller := Some(Answered(t, client)), jobs := s.jobs - {t.id}).Emit(Acknowledged(t.id, client));
      if t.handler.Some? {
        HandlerIgnoresRegistry(answered, clients, t.id, t.handler.value, hal);
      }
    }
  }

  lemma HandlerIgnoresRegistry(s: State, clients: map<nat, string>, id: nat, c: Completion, hal: Platform)
    ensures RunHandler(s.(clients := clients), id, c, false, hal) == RunHandler(s, id, c, false, hal).(clients := clients)
    ensures RunHandler(s, id, c, false, hal).lastClient == s.lastClient
  {
    hide Apply;
    ApplyIgnoresRegistry(s.Emit(PowerProtocol.Called(id, false, false, s.now)), clients, id, c, hal);
  }

  lemma ApplyIgnoresRegistry(s: State, clients: map<nat, string>, id: nat, c: Completion, hal: Platform)
    ensures Apply(s.(clients := clients), id, c, hal) == Apply(s, id, c, hal).(clients := clients)
    ensures Apply(s, id, c, hal).lastClient == s.lastClient
  {
  }

  /** No transition that is opened after a client was removed awaits it. */
  lemma {:induction false} RemovedIsNotAwaited(boot: Change, actions: seq<Action>, client: nat, hal: Platform, more: seq<Action>)
    requires client in Reached(boot, actions).clients
    ensures var (s, s') := (Reached(boot, actions), Reached(boot, actions + [RemoveClient(client, hal)] + more));
            && |Entries(s)| <= |Entries(s')|
            && forall k :: |Entries(s)| <= k < |Entries(s')| ==> client !in Entries(s')[k].awaited
    decreases |more|
  {
    hide Run, Step, Audit, Orderly, Inv, StepsTo;
    var removed := actions + [RemoveClient(client, hal)];
    RemovedStaysOut(boot, actions, client, hal);
    if more == [] {
      assert removed + more == removed;
    } else {
      var n := |more| - 1;
      var (earlier, a) := (removed + more[..n], more[n]);
      assert more == more[..n] + [a] && removed + more == earlier + [a];
      RemovedIsNotAwaited(boot, actions, client, hal, more[..n]);
      RemovedIdNeverReturns(boot, removed, more[..n], client);
      AwaitedAreRegistered(boot, earlier, a, client);
    }
  }

  /** A client that is not registered is awaited by no transition that an action opens. */
  lemma AwaitedAreRegistered(boot: Change, actions: seq<Action>, a: Action, client: nat)
    requires client !in Reached(boot, actions).clients
    ensures var (es, es') := (Entries(Reached(boot, actions)), Entries(Reached(boot, actions + [a])));
            && |es| <= |es'|
            && (forall k :: 0 <= k < |es| ==> es'[k].awaited == es[k].awaited)
            && (forall k :: |es| <= k < |es'| ==> client !in es'[k].awaited)
  {
    hide Run, Step, Audit, Orderly, Inv;
    StepFrom(boot, actions, a);
    if a.Request? {
      if Opens(Reached(boot, actions), Entries(Reached(boot, actions)), a.target) {
        RequestOpens(boot, actions, a.target);
      } else {
        RequestDeclined(boot, actions, a.target);
      }
    }
  }

  lemma RemovedStaysOut(boot: Change, actions: seq<Action>, client: nat, hal: Platform)
    requires client in Reached(boot, actions).clients
    ensures var (s, s') := (Reached(boot, actions), Reached(boot, actions + [RemoveClient(client, hal)]));
            && 0 < client <= s.lastClient == s'.lastClient && client !in s'.clients
            && |Entries(s)| == |Entries(s')|
  {
    hide Audit, AnswerStep;
    StepFrom(boot, actions, RemoveClient(client, hal));
    var s := Reached(boot, actions);
    RemovalIsAnswer(s, boot, client, hal);
    AnswerIgnoresRegistry(s, s.clients, client, hal);
  }

  // ----- The timer, and the environment

  /** Only a job that is due fires; it then ends the running transition with its one attempt. */
  lemma TimerExactly(boot: Change, actions: seq<Action>, job: nat, hal: Platform)
    ensures var (s, s') := (Reached(boot, actions), Reached(boot, actions + [TimerFires(job, hal)]));
            if job in s.jobs && s.jobs[job] <= s.now then
              && s.Running() && job == s.lastId
              && var t := s.controller.value;
                 && s' == Attempted(s.(controller := Some(t.(running := false))), t.target, hal, s'.log)
                 && Entries(s') == Called(Entries(s), true, false, TakenUp(t.target, hal))
            else
              s' == s
  {
    hide Run, Audit, Attempted, Called, Inv, StepsTo;
    StepFrom(boot, actions, TimerFires(job, hal));
    var s := Reached(boot, actions);
    if job in s.jobs && s.jobs[job] <= s.now {
      hide TimerStep;
      TimerEffect(s, boot, job, hal);
    }
  }

  lemma TimerEffect(s: State, boot: Change, job: nat, hal: Platform)
    requires Inv(s, boot) && job in s.jobs && s.jobs[job] <= s.now
    ensures s.Running() && job == s.lastId && Entries(s) != []
    ensures var (t, s') := (s.controller.value, TimerStep(s, job, hal));
            && s' == Attempted(s.(controller := Some(t.(running := false))), t.target, hal, s'.log)
            && Entries(s') == Called(Entries(s), true, false, TakenUp(t.target, hal))
  {
    hide Audit, RunHandler;
    var t := s.controller.value;
    TimerEntries(s, boot, job, hal);
    RunHandlerLedger(s.(jobs := s.jobs - {job}, controller := Some(Stopped(t))), t.id, t.handler.value, true, hal);
  }

  lemma EnvironmentExactly(boot: Change, actions: seq<Action>, ms: nat, d: D.DeepSleep)
    ensures var s := Reached(boot, actions);
            && Reached(boot, actions + [Tick(ms)]) == s.(now := s.now + ms)
            && Reached(boot, actions + [DeepSleepBecomes(d)]) == s.(deepSleep := d)
  {
    hide Run;
    RunAppend(Boot(boot.0, boot.1), actions, Tick(ms));
    RunAppend(Boot(boot.0, boot.1), actions, DeepSleepBecomes(d));
  }

  // ----- Submitted sleeps

  /** In the log, a sleep is submitted right after each announced change to deep sleep, and nowhere else. */
  predicate SleepsFollowChanges(log: Log) {
    log.After? ==>
      && SleepsFollowChanges(log.earlier)
      && (log.event.SleepSubmitted? <==>
            log.earlier.After? && log.earlier.event.Changed? && log.earlier.event.to == StandbyDeepSleep)
  }

  /** No change to deep sleep still lacks its sleep. */
  predicate Settled(log: Log) {
    SleepsFollowChanges(log) && (log.After? && log.event.Changed? ==> log.event.to != StandbyDeepSleep)
  }

  lemma SettledGoesOn(log: Log, e: Event)
    requires Settled(log) && !e.SleepSubmitted?
    ensures SleepsFollowChanges(After(log, e))
    ensures !e.Changed? ==> Settled(After(log, e))
  {
  }

  lemma ApplySettles(s: State, id: nat, c: Completion, hal: Platform)
    requires Settled(s.log)
    ensures Settled(Apply(s, id, c, hal).log)
  {
    SettledGoesOn(s.log, Refused(id, c.to));
    SettledGoesOn(s.log, PlatformFailed(id, c.to, s.now));
    var applied := After(s.log, Applied(id, c.to, s.now));
    SettledGoesOn(s.log, applied.event);
    SettledGoesOn(applied, Changed(c.from, c.to));
    assert c.to == StandbyDeepSleep ==> Settled(After(After(applied, Changed(c.from, c.to)), SleepSubmitted));
  }

  lemma HandlerSettles(s: State, id: nat, c: Completion, timedOut: bool, hal: Platform)
    requires Settled(s.log)
    ensures Settled(RunHandler(s, id, c, timedOut, hal).log) && Settled(AbortHandler(s, id, c).log)
  {
    hide Apply, Settled;
    var called := s.Emit(PowerProtocol.Called(id, timedOut, false, s.now));
    SettledGoesOn(s.log, called.log.event);
    ApplySettles(called, id, c, hal);
    var applied := Apply(called, id, c, hal);
    SettledGoesOn(applied.log, Released);
    SettledGoesOn(After(applied.log, Released), Unlocked);
    var aborted := After(s.log, PowerProtocol.Called(id, false, true, s.now));
    SettledGoesOn(s.log, aborted.event);
    SettledGoesOn(aborted, Released);
    SettledGoesOn(After(aborted, Released), Unlocked);
  }

  lemma RequestSettles(s: State, target: PowerState)
    requires Settled(s.log)
    ensures Settled(RequestStep(s, target).log)
  {
    hide Settled, AbortHandler;
    var locked := After(s.log, Locked);
    SettledGoesOn(s.log, Locked);
    forall e: Event | e.SameState? || e.Transient? || e.Redundant?
      ensures Settled(After(After(locked, e), Unlocked))
    {
      SettledGoesOn(locked, e);
      SettledGoesOn(After(locked, e), Unlocked);
    }
    if s.selfLock != 0 {
      var base := s.(selfLock := s.selfLock - 1).Emit(Locked);
      OpeningSettles(base, target);
      OpeningSettles(base.(deepSleep := D.Deactivated(base.deepSleep)), target);
    }
  }

  lemma OpeningSettles(s: State, target: PowerState)
    requires Settled(s.log)
    ensures Settled(Open(Supersede(s), target).log)
  {
    hide Settled, AbortHandler;
    if s.Running() {
      var t := s.controller.value;
      HandlerSettles(s.(controller := None, jobs := s.jobs - {t.id}), t.id, t.handler.value, false, Platform(false, false));
    }
    var free := Supersede(s);
    var e := Opened(free.lastId + 1, free.current, target, IsSyncStateChange(free.current, target), free.clients.Keys, free.now);
    SettledGoesOn(free.log, e);
    SettledGoesOn(After(free.log, e), Retained);
  }

  lemma AnswerSettles(s: State, client: nat, id: nat, hal: Platform)
    requires Settled(s.log)
    ensures Settled(AnswerStep(s, client, id, hal).log)
  {
    hide Settled, RunHandler;
    if s.controller.Some? && Accepts(s.controller.value, client, id) {
      var t := s.controller.value;
      var answered := s.(controller := Some(Answered(t, client))).Emit(Acknowledged(t.id, client));
      SettledGoesOn(s.log, answered.log.event);
      if Completes(t, client) {
        HandlerSettles(answered.(jobs := s.jobs - {t.id}), t.id, t.handler.value, false, hal);
      }
    }
  }

  lemma StepSettles(s: State, a: Action)
    requires Settled(s.log)
    ensures Settled(Step(s, a).log)
  {
    hide Settled, RunHandler, RequestStep, AnswerStep;
    match a
    case Request(target) => RequestSettles(s, target);
    case StartWait(hal) =>
      if s.window.Some? && s.controller.Some? {
        var (c, t) := (s.window.value, s.controller.value);
        SettledGoesOn(s.log, Waiting(t.id, s.now, OffsetMs(c)));
        SettledGoesOn(After(s.log, Waiting(t.id, s.now, OffsetMs(c))), Unlocked);
        SettledGoesOn(s.log, Immediate(t.id, s.now));
        var immediate := s.(window := None).Emit(Immediate(t.id, s.now));
        HandlerSettles(immediate, t.id, c, false, hal);
        SettledGoesOn(RunHandler(immediate, t.id, c, false, hal).log, Unlocked);
      }
    case Complete(client, id, hal) => AnswerSettles(s, client, id, hal);
    case Delay(client, id, seconds) =>
      if s.controller.Some? {
        SettledGoesOn(s.log, Delayed(s.controller.value.id, s.now + seconds * 1000));
      }
    case RemoveClient(client, hal) =>
      if s.controller.Some? {
        AnswerSettles(s.(clients := s.clients - {client}), client, s.controller.value.id, hal);
      }
    case TimerFires(job, hal) =>
      SettledGoesOn(s.log, OrphanTimeout);
      if s.Running() {
        var t := s.controller.value;
        HandlerSettles(s.(jobs := s.jobs - {job}, controller := Some(Stopped(t))), job, t.handler.value, true, hal);
      }
    case _ =>
  }

  /** In every run a sleep is submitted once for each change to deep sleep that was announced, and for nothing else. */
  lemma {:induction false} SleepsAreSubmittedExactly(boot: Change, actions: seq<Action>)
    ensures var log := Reached(boot, actions).log;
            SleepsFollowChanges(log) && (log.After? && log.event.Changed? ==> log.event.to != StandbyDeepSleep)
  {
    hide Run, Step;
    if actions == [] {
      StartsUnlogged(boot);
    } else {
      var n := |actions| - 1;
      assert actions == actions[..n] + [actions[n]];
      SleepsAreSubmittedExactly(boot, actions[..n]);
      RunAppend(Boot(boot.0, boot.1), actions[..n], actions[n]);
      StepSettles(Reached(boot, actions[..n]), actions[n]);
    }
  }

  lemma StartsUnlogged(boot: Change)
    ensures Reached(boot, []).log == Start
  {
  }
}
