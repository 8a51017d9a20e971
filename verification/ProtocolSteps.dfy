/** What one action from a reachable state does to the ledger of the log. */
module ProtocolSteps {
  import opened PowerTypes
  import opened AckControl
  import opened PowerProtocol
  import opened ProtocolHistory
  import opened ProtocolInvariants

  type Change = (PowerState, PowerState)

  /** An action's effect on the entry of one transition. */
  ghost predicate Evolves(s: State, a: Action, s': State, x: Entry, x': Entry) {
    && (x'.id, x'.from, x'.to, x'.sync, x'.awaited) == (x.id, x.from, x.to, x.sync, x.awaited)
    && x.answered <= x'.answered && x.deadline <= x'.deadline && x.schedules <= x'.schedules
    && x.calls <= x'.calls <= x.calls + 1
    && x.timeouts <= x'.timeouts && x.revocations <= x'.revocations
    && x.failures <= x'.failures && x.successes <= x'.successes
    // the handler is called only for the transition under way
    && (x'.calls > x.calls ==> x.id == s.lastId && s.InTransition())
    && (x'.calls == x.calls ==>
          && x'.timeouts == x.timeouts && x'.revocations == x.revocations
          && x'.failures == x.failures && x'.successes == x.successes)
    // timed out: its deadline has passed
    && (x'.timeouts > x.timeouts ==>
          && a.TimerFires? && s.Running() && x.deadline <= s.now
          && x'.revocations == x.revocations)
    // revoked: it was running, and this request supersedes it
    && (x'.revocations > x.revocations ==>
          && a.Request? && s.Running() && s'.lastId == s.lastId + 1
          && s.controller.value.target != a.target
          && x'.failures == x.failures && x'.successes == x.successes)
    // neither: nobody is awaited any more, or the change is synchronous
    && (x'.calls > x.calls && x'.timeouts == x.timeouts && x'.revocations == x.revocations ==>
          x'.sync || x'.awaited <= x'.answered)
    // unless it was revoked, the call makes one attempt
    && (x'.calls > x.calls && x'.revocations == x.revocations ==>
          && s'.lastId == s.lastId
          && x'.failures + x'.successes == x.failures + x.successes + 1)
    // a willing platform does not fail
    && (Willing(a) ==> x'.failures == x.failures)
  }

  /** The platform accepts the change this action may make. */
  predicate Willing(a: Action) {
    match a
    case StartWait(hal) => hal.ok && !hal.ignoreDeepSleep
    case Complete(_, _, hal) => hal.ok && !hal.ignoreDeepSleep
    case RemoveClient(_, hal) => hal.ok && !hal.ignoreDeepSleep
    case TimerFires(_, hal) => hal.ok && !hal.ignoreDeepSleep
    case _ => true
  }

  /** The entries after a step: the latest one evolves, and a request may add one. */
  ghost predicate StepsTo(s: State, a: Action, s': State) {
    var (l, l') := (Audit(s.log), Audit(s'.log));
    && |l.entries| <= |l'.entries| <= |l.entries| + 1
    && (|l'.entries| > |l.entries| ==> a.Request? && Undecided(l'.entries[|l.entries|]))
    && (forall k :: 0 <= k < |l.entries| - 1 ==> l'.entries[k] == l.entries[k])
    && (|l.entries| > 0 ==>
          Evolves(s, a, s', l.entries[|l.entries| - 1], l'.entries[|l.entries| - 1]))
  }

  lemma AtOnceSteps(s: State, a: Action, d: DeepSleepControl.DeepSleep, e: Event)
    requires e.SameState? || e.Transient? || e.Redundant?
    ensures StepsTo(s, a, Unlock(s.(selfLock := 0, deepSleep := d).Emit(Locked).Emit(e)))
  {
    var locked := After(s.log, Locked);
    assert Audit(locked).entries == Audit(s.log).entries;
    assert Audit(After(locked, e)).entries == Audit(s.log).entries;
  }

  lemma SupersedeEntries(s: State, boot: Change)
    requires Machine(s) && Books(s, boot)
    ensures var (es, n) := (Audit(s.log).entries, s.lastId);
            Audit(Supersede(s).log).entries ==
              if s.Running()
              then es[n - 1 := es[n - 1].(calls := es[n - 1].calls + 1, revocations := es[n - 1].revocations + 1)]
              else es
  {
    hide AbortHandler;
    if s.Running() {
      var t := s.controller.value;
      AbortHandlerLedger(s.(controller := None, jobs := s.jobs - {t.id}), t.id, t.handler.value);
    }
  }

  lemma OpenEntries(s: State, target: PowerState)
    ensures Audit(Open(s, target).log).entries ==
            Audit(s.log).entries +
            [Entry(s.lastId + 1, s.current, target, IsSyncStateChange(s.current, target),
                   s.clients.Keys, {}, s.now, 0, None, 0, 0, 0, 0, 0)]
  {
    var e := Opened(s.lastId + 1, s.current, target, IsSyncStateChange(s.current, target), s.clients.Keys, s.now);
    assert Audit(Open(s, target).log) == Record(Audit(After(s.log, e)), Retained);
  }

  lemma OpeningEntries(s: State, boot: Change, target: PowerState)
    requires Machine(s) && Books(s, boot) && s.window.None?
    ensures Opens(s, Open(Supersede(s), target))
  {
    SupersedeCloses(s, boot);
    SupersedeEntries(s, boot);
    OpenEntries(Supersede(s), target);
  }

  ghost predicate Opens(s: State, s': State) {
    var (es, n) := (Audit(s.log).entries, s.lastId);
    && s'.lastId == n + 1 && |Audit(s'.log).entries| == n + 1 && |es| == n
    && Undecided(Audit(s'.log).entries[n])
    && (s.Running() && n > 0 ==>
          Audit(s'.log).entries[..n] ==
          es[n - 1 := es[n - 1].(calls := es[n - 1].calls + 1, revocations := es[n - 1].revocations + 1)])
    && (!s.Running() ==> Audit(s'.log).entries[..n] == es)
  }

  lemma OpeningSteps(s: State, boot: Change, d: DeepSleepControl.DeepSleep, target: PowerState)
    requires Inv(s, boot) && s.selfLock == 1 && !IgnoredAsRedundant(s, target)
    ensures StepsTo(s, Request(target), Open(Supersede(s.(selfLock := 0, deepSleep := d).Emit(Locked)), target))
  {
    hide Audit, Open, Supersede, StepsTo;
    var locked := s.(selfLock := 0, deepSleep := d).Emit(Locked);
    LockedKeeps(s, boot, d);
    OpeningEntries(locked, boot, target);
    OpeningEvolves(s, boot, Request(target), Open(Supersede(locked), target));
  }

  /** Superseding a running transition adds one revoked call to its entry. */
  lemma OpeningEvolves(s: State, boot: Change, a: Action, s': State)
    requires Machine(s) && Books(s, boot) && a.Request? && Opens(s, s')
    requires !IgnoredAsRedundant(s, a.target)
    ensures StepsTo(s, a, s')
  {
    var (es, n) := (Audit(s.log).entries, s.lastId);
    assert forall k :: 0 <= k < n ==> Audit(s'.log).entries[k] == Audit(s'.log).entries[..n][k];
  }

  lemma RequestSteps(s: State, boot: Change, target: PowerState)
    requires Inv(s, boot)
    ensures StepsTo(s, Request(target), RequestStep(s, target))
  {
    if s.selfLock != 0 {
      var woken := if s.current == StandbyDeepSleep then DeepSleepControl.Deactivated(s.deepSleep) else s.deepSleep;
      RequestCases(s, target);
      if s.current == target {
        AtOnceSteps(s, Request(target), s.deepSleep, SameState(target));
      } else if IgnoredAsTransient(s) {
        AtOnceSteps(s, Request(target), s.deepSleep, Transient(target));
      } else if IgnoredAsRedundant(s, target) {
        AtOnceSteps(s, Request(target), woken, Redundant(target));
      } else {
        OpeningSteps(s, boot, woken, target);
      }
    }
  }

  lemma WaitingSteps(s: State, boot: Change, hal: Platform)
    requires Inv(s, boot) && s.window.Some?
    requires WaitsFor(s.controller.value, OffsetMs(s.window.value))
    ensures StepsTo(s, StartWait(hal), StartWaitStep(s, hal))
  {
    var (c, t) := (s.window.value, s.controller.value);
    var waiting := After(s.log, Waiting(t.id, s.now, OffsetMs(c)));
    assert Audit(waiting) == Record(Audit(s.log), Waiting(t.id, s.now, OffsetMs(c)));
    assert StartWaitStep(s, hal).log == After(waiting, Unlocked);
  }

  lemma ImmediateEntries(s: State, boot: Change, hal: Platform)
    requires Inv(s, boot) && s.window.Some?
    requires !WaitsFor(s.controller.value, OffsetMs(s.window.value))
    ensures var (es, n) := (Audit(s.log).entries, s.lastId);
            var ok := Accepted(s.window.value, hal);
            Audit(StartWaitStep(s, hal).log).entries ==
              es[n - 1 := es[n - 1].(schedules := es[n - 1].schedules + 1,
                                     calls := es[n - 1].calls + 1,
                                     successes := es[n - 1].successes + (if ok then 1 else 0),
                                     failures := es[n - 1].failures + (if ok then 0 else 1))]
  {
    var (c, t) := (s.window.value, s.controller.value);
    var immediate := s.(window := None).Emit(Immediate(t.id, s.now));
    assert Audit(immediate.log) == Record(Audit(s.log), Immediate(t.id, s.now));
    hide RunHandler, Audit;
    RunHandlerLedger(immediate, t.id, c, false, hal);
    var done := RunHandler(immediate, t.id, c, false, hal);
    assert Audit(StartWaitStep(s, hal).log).entries == Audit(done.log).entries;
  }

  lemma ImmediateSteps(s: State, boot: Change, hal: Platform)
    requires Inv(s, boot) && s.window.Some?
    requires !WaitsFor(s.controller.value, OffsetMs(s.window.value))
    ensures StepsTo(s, StartWait(hal), StartWaitStep(s, hal))
  {
    ImmediateEntries(s, boot, hal);
  }

  lemma StartWaitSteps(s: State, boot: Change, hal: Platform)
    requires Inv(s, boot)
    ensures StepsTo(s, StartWait(hal), StartWaitStep(s, hal))
  {
    if s.window.Some? {
      if WaitsFor(s.controller.value, OffsetMs(s.window.value)) {
        WaitingSteps(s, boot, hal);
      } else {
        ImmediateSteps(s, boot, hal);
      }
    }
  }

  lemma AnswerSteps(s: State, boot: Change, a: Action, client: nat, id: nat, hal: Platform)
    requires Machine(s) && Books(s, boot)
    requires !a.Request? && (Willing(a) ==> hal.ok && !hal.ignoreDeepSleep)
    ensures StepsTo(s, a, AnswerStep(s, client, id, hal))
  {
    hide Audit, Books, StepsTo, Answered, Completes;
    if s.controller.Some? && Accepts(s.controller.value, client, id) {
      if Completes(s.controller.value, client) {
        LastAnswerSteps(s, boot, a, client, hal);
      } else {
        EarlyAnswerSteps(s, boot, a, client, hal);
      }
    } else {
      QuietSteps(s, a, s);
    }
  }

  lemma EarlyAnswerSteps(s: State, boot: Change, a: Action, client: nat, hal: Platform)
    requires Machine(s) && Books(s, boot) && !a.Request?
    requires s.controller.Some? && client in s.controller.value.pending && !Completes(s.controller.value, client)
    ensures StepsTo(s, a, AnswerStep(s, client, s.lastId, hal))
  {
    var answered := After(s.log, Acknowledged(s.lastId, client));
    assert AnswerStep(s, client, s.lastId, hal).log == answered;
    assert Audit(answered) == Record(Audit(s.log), Acknowledged(s.lastId, client));
  }

  lemma LastAnswerEntries(s: State, boot: Change, client: nat, hal: Platform)
    requires Machine(s) && Books(s, boot)
    requires s.controller.Some? && client in s.controller.value.pending && Completes(s.controller.value, client)
    ensures var (es, n) := (Audit(s.log).entries, s.lastId);
            var s' := AnswerStep(s, client, s.lastId, hal);
            var ok := Accepted(s.controller.value.handler.value, hal);
            && s'.lastId == s.lastId
            && Audit(s'.log).entries ==
               es[n - 1 := es[n - 1].(answered := es[n - 1].answered + {client},
                                      calls := es[n - 1].calls + 1,
                                      successes := es[n - 1].successes + (if ok then 1 else 0),
                                      failures := es[n - 1].failures + (if ok then 0 else 1))]
  {
    var t := s.controller.value;
    var answered := s.(controller := Some(Answered(t, client))).Emit(Acknowledged(t.id, client));
    assert Audit(answered.log) == Record(Audit(s.log), Acknowledged(t.id, client));
    hide RunHandler, Audit;
    RunHandlerLedger(answered.(jobs := s.jobs - {t.id}), t.id, t.handler.value, false, hal);
  }

  lemma LastAnswerSteps(s: State, boot: Change, a: Action, client: nat, hal: Platform)
    requires Machine(s) && Books(s, boot)
    requires s.controller.Some? && client in s.controller.value.pending && Completes(s.controller.value, client)
    requires !a.Request? && (Willing(a) ==> hal.ok && !hal.ignoreDeepSleep)
    ensures StepsTo(s, a, AnswerStep(s, client, s.lastId, hal))
  {
    hide AnswerStep, Audit;
    LastAnswerEntries(s, boot, client, hal);
  }

  lemma TimerSteps(s: State, boot: Change, job: nat, hal: Platform)
    requires Inv(s, boot)
    ensures StepsTo(s, TimerFires(job, hal), TimerStep(s, job, hal))
  {
    hide Audit, Books, Machine, StepsTo, RunHandler;
    if job in s.jobs && s.jobs[job] <= s.now {
      DueTimerSteps(s, boot, job, hal);
    } else {
      QuietSteps(s, TimerFires(job, hal), s);
    }
  }

  lemma DueTimerSteps(s: State, boot: Change, job: nat, hal: Platform)
    requires Machine(s) && Books(s, boot) && job in s.jobs && s.jobs[job] <= s.now
    ensures StepsTo(s, TimerFires(job, hal), TimerStep(s, job, hal))
  {
    hide TimerStep, Audit;
    TimerEntries(s, boot, job, hal);
  }

  lemma TimerEntries(s: State, boot: Change, job: nat, hal: Platform)
    requires Machine(s) && Books(s, boot) && job in s.jobs && s.jobs[job] <= s.now
    ensures var (es, n) := (Audit(s.log).entries, s.lastId);
            var s' := TimerStep(s, job, hal);
            var ok := Accepted(s.controller.value.handler.value, hal);
            && s'.lastId == s.lastId
            && Audit(s'.log).entries ==
               es[n - 1 := es[n - 1].(calls := es[n - 1].calls + 1,
                                      timeouts := es[n - 1].timeouts + 1,
                                      successes := es[n - 1].successes + (if ok then 1 else 0),
                                      failures := es[n - 1].failures + (if ok then 0 else 1))]
  {
    hide RunHandler, Audit;
    var t := s.controller.value;
    RunHandlerLedger(s.(jobs := s.jobs - {job}, controller := Some(Stopped(t))), t.id, t.handler.value, true, hal);
  }

  lemma DelaySteps(s: State, boot: Change, client: nat, id: nat, seconds: nat)
    requires Inv(s, boot)
    ensures StepsTo(s, Delay(client, id, seconds), DelayStep(s, client, id, seconds))
  {
    assert s.controller.None? || !DelayAccepted(s.controller.value, client, id) ==> DelayStep(s, client, id, seconds) == s;
    hide DelayStep, Audit;
    if s.controller.Some? && DelayAccepted(s.controller.value, client, id) {
      DelayLedger(s, boot, client, id, seconds);
    }
  }

  lemma RemoveClientSteps(s: State, boot: Change, client: nat, hal: Platform)
    requires Inv(s, boot)
    ensures StepsTo(s, RemoveClient(client, hal), RemoveClientStep(s, client, hal))
  {
    hide AnswerStep, Audit;
    if client in s.clients && s.controller.Some? {
      AnswerSteps(s.(clients := s.clients - {client}), boot, RemoveClient(client, hal), client, s.controller.value.id, hal);
    }
  }

  lemma QuietSteps(s: State, a: Action, s': State)
    requires s'.log == s.log
    ensures StepsTo(s, a, s')
  {
  }

  lemma StepSteps(s: State, boot: Change, a: Action)
    requires Inv(s, boot)
    ensures StepsTo(s, a, Step(s, a))
  {
    hide StepsTo, Inv, RequestStep, StartWaitStep, AnswerStep, DelayStep, AddClientStep, RemoveClientStep, TimerStep;
    match a
    case Tick(_) => QuietSteps(s, a, Step(s, a));
    case Request(target) => RequestSteps(s, boot, target);
    case StartWait(hal) => StartWaitSteps(s, boot, hal);
    case Complete(client, id, hal) => CompleteSteps(s, boot, client, id, hal);
    case Delay(client, id, seconds) => DelaySteps(s, boot, client, id, seconds);
    case AddClient(name) => AddClientSteps(s, name);
    case RemoveClient(client, hal) => RemoveClientSteps(s, boot, client, hal);
    case TimerFires(job, hal) => TimerSteps(s, boot, job, hal);
    case DeepSleepBecomes(_) => QuietSteps(s, a, Step(s, a));
  }

  lemma CompleteSteps(s: State, boot: Change, client: nat, id: nat, hal: Platform)
    requires Inv(s, boot)
    ensures StepsTo(s, Complete(client, id, hal), AnswerStep(s, client, id, hal))
  {
    AnswerSteps(s, boot, Complete(client, id, hal), client, id, hal);
  }

  lemma AddClientSteps(s: State, name: string)
    ensures StepsTo(s, AddClient(name), AddClientStep(s, name))
  {
  }

  lemma FinishOrderly(s: State, c: Completion)
    requires Orderly(s.log)
    ensures Orderly(FinishHandler(s, c).log)
  {
    assert Orderly(After(s.log, Released));
  }

  lemma RunHandlerOrderly(s: State, id: nat, c: Completion, timedOut: bool, hal: Platform)
    requires 1 <= id <= |Audit(s.log).entries| && Orderly(s.log)
    ensures Orderly(RunHandler(s, id, c, timedOut, hal).log)
  {
    var called := s.Emit(Called(id, timedOut, false, s.now));
    assert Orderly(called.log);
    if Accepted(c, hal) {
      var applied := After(called.log, Applied(id, c.to, s.now));
      assert Orderly(applied);
      assert Orderly(After(applied, Changed(c.from, c.to)));
    }
    FinishOrderly(Apply(called, id, c, hal), c);
  }

  lemma SupersedeOrderly(s: State, boot: Change)
    requires Machine(s) && Books(s, boot) && Orderly(s.log)
    ensures Orderly(Supersede(s).log)
  {
    if s.Running() {
      var t := s.controller.value;
      var called := s.(controller := None, jobs := s.jobs - {t.id}).Emit(Called(t.id, false, true, s.now));
      assert Orderly(called.log);
      FinishOrderly(called, t.handler.value);
    }
  }

  lemma OpenOrderly(s: State, target: PowerState)
    requires Orderly(s.log) && |Audit(s.log).entries| == s.lastId
    ensures Orderly(Open(s, target).log)
  {
    var e := Opened(s.lastId + 1, s.current, target, IsSyncStateChange(s.current, target), s.clients.Keys, s.now);
    assert Orderly(After(s.log, e));
  }

  lemma OpeningOrderly(s: State, boot: Change, d: DeepSleepControl.DeepSleep, target: PowerState)
    requires Inv(s, boot) && Orderly(s.log) && s.selfLock == 1
    ensures Orderly(Open(Supersede(s.(selfLock := 0, deepSleep := d).Emit(Locked)), target).log)
  {
    var locked := s.(selfLock := 0, deepSleep := d).Emit(Locked);
    assert locked.window.None? && Orderly(locked.log);
    LockedKeeps(s, boot, d);
    hide Inv, Books, Machine, Audit, Orderly, Open, Supersede;
    SupersedeOrderly(locked, boot);
    SupersedeCloses(locked, boot);
    OpenOrderly(Supersede(locked), target);
  }

  lemma AtOnceOrderly(log: Log, e: Event)
    requires Orderly(log) && (e.SameState? || e.Transient? || e.Redundant?)
    ensures Orderly(After(After(After(log, Locked), e), Unlocked))
  {
    assert Orderly(After(log, Locked));
  }

  lemma RequestOrderly(s: State, boot: Change, target: PowerState)
    requires Inv(s, boot) && Orderly(s.log)
    ensures Orderly(RequestStep(s, target).log)
  {
    if s.selfLock != 0 {
      AtOnceOrderly(s.log, SameState(target));
      AtOnceOrderly(s.log, Transient(target));
      AtOnceOrderly(s.log, Redundant(target));
      OpeningOrderly(s, boot, if s.current == StandbyDeepSleep then DeepSleepControl.Deactivated(s.deepSleep) else s.deepSleep, target);
      RequestCases(s, target);
    }
  }

  lemma AnswerOrderly(s: State, boot: Change, client: nat, id: nat, hal: Platform)
    requires Machine(s) && Books(s, boot) && Orderly(s.log)
    ensures Orderly(AnswerStep(s, client, id, hal).log)
  {
    if s.controller.Some? && Accepts(s.controller.value, client, id) {
      var t := s.controller.value;
      var answered := s.(controller := Some(Answered(t, client))).Emit(Acknowledged(t.id, client));
      assert Audit(answered.log) == Record(Audit(s.log), Acknowledged(t.id, client));
      assert Orderly(answered.log);
      if Completes(t, client) {
        RunHandlerOrderly(answered.(jobs := s.jobs - {t.id}), t.id, t.handler.value, false, hal);
      }
    }
  }

  lemma StartWaitOrderly(s: State, boot: Change, hal: Platform)
    requires Inv(s, boot) && Orderly(s.log)
    ensures Orderly(StartWaitStep(s, hal).log)
  {
    if s.window.Some? {
      var (c, t) := (s.window.value, s.controller.value);
      var immediate := s.(window := None).Emit(Immediate(t.id, s.now));
      assert Audit(immediate.log) == Record(Audit(s.log), Immediate(t.id, s.now));
      assert Orderly(immediate.log);
      RunHandlerOrderly(immediate, t.id, c, false, hal);
      assert Orderly(After(s.log, Waiting(t.id, s.now, OffsetMs(c))));
    }
  }

  lemma RemoveClientOrderly(s: State, boot: Change, client: nat, hal: Platform)
    requires Inv(s, boot) && Orderly(s.log)
    ensures Orderly(RemoveClientStep(s, client, hal).log)
  {
    if client in s.clients && s.controller.Some? {
      AnswerOrderly(s.(clients := s.clients - {client}), boot, client, s.controller.value.id, hal);
    }
  }

  lemma TimerOrderly(s: State, boot: Change, job: nat, hal: Platform)
    requires Inv(s, boot) && Orderly(s.log)
    ensures Orderly(TimerStep(s, job, hal).log)
  {
    if job in s.jobs && s.jobs[job] <= s.now {
      var t := s.controller.value;
      RunHandlerOrderly(s.(jobs := s.jobs - {job}, controller := Some(Stopped(t))), job, t.handler.value, true, hal);
    }
  }

  lemma QuietOrderly(s: State, boot: Change, client: nat, id: nat, seconds: nat, name: string)
    requires Inv(s, boot) && Orderly(s.log)
    ensures Orderly(DelayStep(s, client, id, seconds).log) && Orderly(AddClientStep(s, name).log)
  {
  }

  lemma StepOrderly(s: State, boot: Change, a: Action)
    requires Inv(s, boot) && Orderly(s.log)
    ensures Orderly(Step(s, a).log)
  {
    hide Orderly, Inv, RequestStep, StartWaitStep, AnswerStep, DelayStep, AddClientStep, RemoveClientStep, TimerStep;
    match a
    case Tick(_) =>
    case Request(target) => RequestOrderly(s, boot, target);
    case StartWait(hal) => StartWaitOrderly(s, boot, hal);
    case Complete(client, id, hal) => CompleteOrderly(s, boot, client, id, hal);
    case Delay(client, id, seconds) => QuietOrderly(s, boot, client, id, seconds, "");
    case AddClient(name) => QuietOrderly(s, boot, 0, 0, 0, name);
    case RemoveClient(client, hal) => RemoveClientOrderly(s, boot, client, hal);
    case TimerFires(job, hal) => TimerOrderly(s, boot, job, hal);
    case DeepSleepBecomes(_) =>
  }

  lemma CompleteOrderly(s: State, boot: Change, client: nat, id: nat, hal: Platform)
    requires Inv(s, boot) && Orderly(s.log)
    ensures Orderly(AnswerStep(s, client, id, hal).log)
  {
    AnswerOrderly(s, boot, client, id, hal);
  }

  /** Every log is orderly; in particular a timer job never fires without its controller running. */
  lemma {:induction false} RunOrderly(current: PowerState, previous: PowerState, actions: seq<Action>)
    ensures Orderly(Run(Boot(current, previous), actions).log)
  {
    if actions != [] {
      var n := |actions| - 1;
      RunOrderly(current, previous, actions[..n]);
      RunKeeps(current, previous, actions[..n]);
      StepOrderly(Run(Boot(current, previous), actions[..n]), (current, previous), actions[n]);
    }
  }
}
