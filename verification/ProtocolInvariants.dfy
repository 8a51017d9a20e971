/** What every action keeps, hence what holds in every state of every run. */
module ProtocolInvariants {
  import opened PowerTypes
  import opened AckControl
  import opened PowerProtocol
  import opened ProtocolHistory

  /** Names and ids are in bijection, and every id in use has been issued. */
  ghost predicate Registry(s: State) {
    && (forall c :: c in s.clients ==> 1 <= c <= s.lastClient && s.clients[c] != "")
    && (forall c, d :: c in s.clients && d in s.clients && s.clients[c] == s.clients[d] ==> c == d)
  }

  /** How the fields of a state fit together, the lock aside. */
  ghost predicate Machine(s: State) {
    && (s.window.Some? ==> s.controller.Some?)
    && s.references == (if s.InTransition() then 1 else 0)
    && s.jobs == (if s.Running() then map[s.controller.value.id := s.controller.value.timeout] else map[])
    && (s.controller.Some? ==>
          var t := s.controller.value;
          && t.id == s.lastId
          && (s.window.Some? ==>
                && !t.running && t.handler.None?
                && t.target != s.current
                && s.window.value == Completion(s.current, t.target, IsSyncStateChange(s.current, t.target)))
          && (t.running ==>
                && s.window.None? && t.pending != {}
                && t.target != s.current
                && !IsSyncStateChange(s.current, t.target)
                && t.handler.value == Completion(s.current, t.target, false)))
  }

  /** No transition waits for a client that is not registered. */
  ghost predicate AwaitsRegistered(s: State) {
    s.controller.Some? ==> s.controller.value.pending <= s.clients.Keys
  }

  /** Between actions, the lock is taken exactly while a request is announced but not yet waiting. */
  ghost predicate Locking(s: State) {
    s.selfLock == (if s.window.Some? then 0 else 1)
  }

  /** Nothing has been decided yet about this transition. */
  predicate Undecided(x: Entry) {
    x.calls == 0 && x.timeouts == 0 && x.revocations == 0 && x.failures == 0 && x.successes == 0
  }

  /** Its handler was called once: to revoke it, or to make one attempt at the change. */
  predicate Decided(x: Entry) {
    && x.schedules == 1 && x.calls == 1
    && x.timeouts + x.revocations <= 1
    && x.revocations + x.failures + x.successes == 1
  }

  /** The announced changes form a path from `start`. */
  ghost predicate IsPath(start: PowerState, changes: seq<(PowerState, PowerState)>) {
    && (changes != [] ==> changes[0].0 == start)
    && (forall i :: 0 <= i < |changes| ==> changes[i].0 != changes[i].1)
    && (forall i :: 0 <= i < |changes| - 1 ==> changes[i].1 == changes[i + 1].0)
  }

  /** The current and previous state are those of the last change, if there was one. */
  ghost predicate EndsPath(s: State, boot: (PowerState, PowerState), changes: seq<(PowerState, PowerState)>) {
    (s.current, s.previous) ==
      if changes == [] then boot else (changes[|changes| - 1].1, changes[|changes| - 1].0)
  }

  /** What the ledger and the state say about the latest transition. */
  ghost predicate Agrees(s: State, t: Transaction, x: Entry) {
    && x.to == t.target
    && x.sync == IsSyncStateChange(x.from, x.to)
    && x.deadline == t.timeout
    && x.awaited <= x.answered + t.pending
  }

  ghost predicate Latest(s: State, t: Transaction, x: Entry) {
    && Agrees(s, t, x)
    && (if s.InTransition()
        then
          && Undecided(x) && x.from == s.current
          && x.schedules == (if s.window.Some? then 0 else 1)
          && (t.running ==> x.waitsFrom.Some? && x.waitsFrom.value + PRECHANGE_TIMEOUT_SEC * 1000 <= x.deadline)
        else Decided(x) && x.revocations == 0 && (x.successes == 1 <==> t.target == s.current))
  }

  /** The ledger, all but its latest entry. */
  ghost predicate Earlier(s: State, boot: (PowerState, PowerState), l: Ledger) {
    && |l.entries| == s.lastId
    && l.locks == 1 - s.selfLock
    && l.references == s.references
    && (forall k :: 0 <= k < |l.entries| ==> l.entries[k].id == k + 1)
    && (forall k :: 0 <= k < |l.entries| - 1 ==> Decided(l.entries[k]))
    && IsPath(boot.0, l.changes)
    && EndsPath(s, boot, l.changes)
  }

  /** How the ledger of the log matches the state. */
  ghost predicate Books(s: State, boot: (PowerState, PowerState)) {
    var l := Audit(s.log);
    && Earlier(s, boot, l)
    && (s.controller.Some? <==> s.lastId > 0)
    && (s.controller.Some? ==> Latest(s, s.controller.value, l.entries[s.lastId - 1]))
  }

  ghost predicate Inv(s: State, boot: (PowerState, PowerState)) {
    Registry(s) && AwaitsRegistered(s) && Machine(s) && Locking(s) && Books(s, boot)
  }

  /** A handler with completion `c` is about to be called. */
  ghost predicate Deciding(s: State, boot: (PowerState, PowerState), c: Completion) {
    var l := Audit(s.log);
    && Earlier(s, boot, l)
    && s.lastId > 0
    && s.window.None? && s.jobs == map[] && s.references == 1
    && c.from == s.current && c.to != s.current
    && c.sync == IsSyncStateChange(c.from, c.to)
    && var x := l.entries[s.lastId - 1];
       Undecided(x) && x.schedules == 1 && x.from == s.current && x.to == c.to && x.sync == c.sync
  }

  predicate Accepted(c: Completion, hal: Platform) {
    hal.ok && !(hal.ignoreDeepSleep && c.to == StandbyDeepSleep)
  }

  lemma ApplyLedger(s: State, id: nat, c: Completion, hal: Platform)
    requires 1 <= id <= |Audit(s.log).entries|
    ensures var s' := Apply(s, id, c, hal);
            var l := Audit(s.log);
            var ok := Accepted(c, hal);
            && s' == s.(current := if ok then c.to else s.current,
                        previous := if ok then s.current else s.previous,
                        log := s'.log)
            && Audit(s'.log) ==
               l.(entries := l.entries[id - 1 := l.entries[id - 1].(
                               successes := l.entries[id - 1].successes + (if ok then 1 else 0),
                               failures := l.entries[id - 1].failures + (if ok then 0 else 1))],
                  changes := if ok then l.changes + [(c.from, c.to)] else l.changes)
  {
    if Accepted(c, hal) {
      var applied := After(s.log, Applied(id, c.to, s.now));
      var changed := After(applied, Changed(c.from, c.to));
      assert Audit(applied) == Record(Audit(s.log), Applied(id, c.to, s.now));
      assert Audit(changed) == Record(Audit(applied), Changed(c.from, c.to));
      assert Audit(After(changed, SleepSubmitted)) == Audit(changed);
    }
  }

  lemma FinishLedger(s: State, c: Completion)
    ensures var s' := FinishHandler(s, c);
            var unlocked := if c.sync then 1 else 0;
            && s' == s.(references := s.references - 1, selfLock := s.selfLock + unlocked, log := s'.log)
            && Audit(s'.log) == Audit(s.log).(references := Audit(s.log).references - 1,
                                              locks := Audit(s.log).locks - unlocked)
  {
  }

  /** Everything a call of the completion handler does. */
  lemma RunHandlerLedger(s: State, id: nat, c: Completion, timedOut: bool, hal: Platform)
    requires 1 <= id <= |Audit(s.log).entries|
    ensures var s' := RunHandler(s, id, c, timedOut, hal);
            var l := Audit(s.log);
            var x := l.entries[id - 1];
            var ok := Accepted(c, hal);
            var unlocked := if c.sync then 1 else 0;
            && s' == s.(current := if ok then c.to else s.current,
                        previous := if ok then s.current else s.previous,
                        references := s.references - 1,
                        selfLock := s.selfLock + unlocked,
                        log := s'.log)
            && Audit(s'.log) ==
               Ledger(l.entries[id - 1 := x.(calls := x.calls + 1,
                                             timeouts := x.timeouts + (if timedOut then 1 else 0),
                                             successes := x.successes + (if ok then 1 else 0),
                                             failures := x.failures + (if ok then 0 else 1))],
                      if ok then l.changes + [(c.from, c.to)] else l.changes,
                      l.locks - unlocked,
                      l.references - 1)
  {
    var called := s.Emit(Called(id, timedOut, false, s.now));
    ApplyLedger(called, id, c, hal);
    FinishLedger(Apply(called, id, c, hal), c);
  }

  lemma AbortHandlerLedger(s: State, id: nat, c: Completion)
    requires 1 <= id <= |Audit(s.log).entries|
    ensures var s' := AbortHandler(s, id, c);
            var l := Audit(s.log);
            var x := l.entries[id - 1];
            var unlocked := if c.sync then 1 else 0;
            && s' == s.(references := s.references - 1, selfLock := s.selfLock + unlocked, log := s'.log)
            && Audit(s'.log) ==
               l.(entries := l.entries[id - 1 := x.(calls := x.calls + 1, revocations := x.revocations + 1)],
                  locks := l.locks - unlocked,
                  references := l.references - 1)
  {
    var called := s.Emit(Called(id, false, true, s.now));
    FinishLedger(called, c);
  }

  lemma PathExtends(start: PowerState, changes: seq<(PowerState, PowerState)>, to: PowerState)
    requires IsPath(start, changes)
    requires to != (if changes == [] then start else changes[|changes| - 1].1)
    ensures IsPath(start, changes + [(if changes == [] then start else changes[|changes| - 1].1, to)])
  {
  }

  lemma RunHandlerDecides(s: State, boot: (PowerState, PowerState), c: Completion, timedOut: bool, hal: Platform)
    requires Deciding(s, boot, c)
    requires s.controller.Some? && !s.controller.value.running
    requires s.controller.value.id == s.lastId
    requires s.controller.value.target == c.to
    requires Agrees(s, s.controller.value, Audit(s.log).entries[s.lastId - 1])
    ensures var s' := RunHandler(s, s.lastId, c, timedOut, hal);
            && Machine(s') && Books(s', boot)
            && s'.clients == s.clients && s'.lastClient == s.lastClient
            && s'.controller == s.controller && s'.window == s.window
            && s'.selfLock == s.selfLock + (if c.sync then 1 else 0)
  {
    RunHandlerLedger(s, s.lastId, c, timedOut, hal);
    PathExtends(boot.0, Audit(s.log).changes, c.to);
  }

  lemma AbortHandlerDecides(s: State, boot: (PowerState, PowerState), c: Completion)
    requires Deciding(s, boot, c) && !c.sync
    ensures var s' := AbortHandler(s, s.lastId, c);
            var l := Audit(s'.log);
            && s' == s.(references := 0, log := s'.log)
            && Earlier(s', boot, l)
            && Decided(l.entries[s.lastId - 1])
  {
    AbortHandlerLedger(s, s.lastId, c);
  }

  /** No transition is left: every one that was opened has been decided. */
  ghost predicate Closed(s: State, boot: (PowerState, PowerState)) {
    var l := Audit(s.log);
    && Earlier(s, boot, l)
    && s.controller.None? && s.window.None? && s.jobs == map[] && s.references == 0
    && (s.lastId > 0 ==> Decided(l.entries[s.lastId - 1]))
  }

  lemma SupersedeCloses(s: State, boot: (PowerState, PowerState))
    requires Machine(s) && Books(s, boot) && s.window.None?
    ensures var s' := Supersede(s);
            && Closed(s', boot)
            && s' == s.(controller := None, jobs := map[], references := 0, log := s'.log)
  {
    if s.Running() {
      var t := s.controller.value;
      AbortHandlerDecides(s.(controller := None, jobs := s.jobs - {t.id}), boot, t.handler.value);
    }
  }

  lemma OpenKeeps(s: State, boot: (PowerState, PowerState), target: PowerState)
    requires Registry(s) && Closed(s, boot) && s.selfLock == 0 && target != s.current
    ensures Inv(Open(s, target), boot)
  {
    var s' := Open(s, target);
    var l := Audit(s.log);
    var entered := After(s.log, Opened(s.lastId + 1, s.current, target, IsSyncStateChange(s.current, target), s.clients.Keys, s.now));
    assert Audit(s'.log) == Record(Audit(entered), Retained);
    assert Earlier(s', boot, Audit(s'.log));
  }

  /** A request that is answered without opening a transition. */
  lemma AnsweredAtOnceKeeps(s: State, boot: (PowerState, PowerState), d: DeepSleepControl.DeepSleep, e: Event)
    requires Inv(s, boot) && s.selfLock == 1
    requires e.SameState? || e.Transient? || e.Redundant?
    ensures Inv(Unlock(s.(selfLock := 0, deepSleep := d).Emit(Locked).Emit(e)), boot)
  {
    var s' := Unlock(s.(selfLock := 0, deepSleep := d).Emit(Locked).Emit(e));
    var locked := After(s.log, Locked);
    assert Audit(locked) == Record(Audit(s.log), Locked);
    assert Audit(After(locked, e)) == Audit(locked);
    assert Audit(s'.log) == Record(Audit(After(locked, e)), Unlocked);
    assert Audit(s'.log) == Audit(s.log);
  }

  /** The four ways in which a request that holds the lock can go. */
  lemma RequestCases(s: State, target: PowerState)
    requires s.selfLock == 1
    ensures var woken := if s.current == StandbyDeepSleep then DeepSleepControl.Deactivated(s.deepSleep) else s.deepSleep;
            var locked := s.(selfLock := 0).Emit(Locked);
            RequestStep(s, target) ==
              if s.current == target then Unlock(locked.Emit(SameState(target)))
              else if IgnoredAsTransient(s) then Unlock(locked.Emit(Transient(target)))
              else if IgnoredAsRedundant(s, target) then Unlock(locked.(deepSleep := woken).Emit(Redundant(target)))
              else Open(Supersede(locked.(deepSleep := woken)), target)
  {
  }

  /** Taking the lock, and leaving deep sleep, disturb nothing. */
  lemma LockedKeeps(s: State, boot: (PowerState, PowerState), d: DeepSleepControl.DeepSleep)
    requires Inv(s, boot) && s.selfLock == 1
    ensures var locked := s.(selfLock := 0, deepSleep := d).Emit(Locked);
            Registry(locked) && Machine(locked) && Books(locked, boot) &&
            Audit(locked.log).entries == Audit(s.log).entries
  {
    var locked := s.(selfLock := 0, deepSleep := d).Emit(Locked);
    assert Audit(locked.log) == Record(Audit(s.log), Locked);
  }

  lemma OpeningKeeps(s: State, boot: (PowerState, PowerState), d: DeepSleepControl.DeepSleep, target: PowerState)
    requires Inv(s, boot) && s.selfLock == 1 && target != s.current
    ensures Inv(Open(Supersede(s.(selfLock := 0, deepSleep := d).Emit(Locked)), target), boot)
  {
    var locked := s.(selfLock := 0, deepSleep := d).Emit(Locked);
    LockedKeeps(s, boot, d);
    SupersedeCloses(locked, boot);
    OpenKeeps(Supersede(locked), boot, target);
  }

  lemma RequestKeeps(s: State, boot: (PowerState, PowerState), target: PowerState)
    requires Inv(s, boot)
    ensures Inv(RequestStep(s, target), boot)
  {
    if s.selfLock != 0 {
      assert s.selfLock == 1;
      hide Inv, Open, Supersede, RequestStep;
      var woken := if s.current == StandbyDeepSleep then DeepSleepControl.Deactivated(s.deepSleep) else s.deepSleep;
      RequestCases(s, target);
      if s.current == target {
        AnsweredAtOnceKeeps(s, boot, s.deepSleep, SameState(target));
      } else if IgnoredAsTransient(s) {
        AnsweredAtOnceKeeps(s, boot, s.deepSleep, Transient(target));
      } else if IgnoredAsRedundant(s, target) {
        AnsweredAtOnceKeeps(s, boot, woken, Redundant(target));
      } else {
        OpeningKeeps(s, boot, woken, target);
      }
    }
  }

  lemma UnlockKeeps(s: State, boot: (PowerState, PowerState))
    requires Registry(s) && AwaitsRegistered(s) && Machine(s) && Books(s, boot)
    requires s.window.None? && s.selfLock == 0
    ensures Inv(Unlock(s), boot)
  {
  }

  lemma WaitingKeeps(s: State, boot: (PowerState, PowerState))
    requires Inv(s, boot) && s.window.Some?
    requires WaitsFor(s.controller.value, OffsetMs(s.window.value))
    ensures var (c, t) := (s.window.value, s.controller.value);
            var t' := Started(t, s.now, OffsetMs(c), c);
            Inv(Unlock(s.(window := None, controller := Some(t'), jobs := s.jobs[t.id := t'.timeout])
                        .Emit(Waiting(t.id, s.now, OffsetMs(c)))), boot)
  {
    var (c, t) := (s.window.value, s.controller.value);
    var t' := Started(t, s.now, OffsetMs(c), c);
    var waiting := s.(window := None, controller := Some(t'), jobs := s.jobs[t.id := t'.timeout])
                    .Emit(Waiting(t.id, s.now, OffsetMs(c)));
    assert Audit(waiting.log) == Record(Audit(s.log), Waiting(t.id, s.now, OffsetMs(c)));
    assert Earlier(waiting, boot, Audit(waiting.log));
    UnlockKeeps(waiting, boot);
  }

  lemma ImmediateKeeps(s: State, boot: (PowerState, PowerState), hal: Platform)
    requires Inv(s, boot) && s.window.Some?
    ensures var (c, t) := (s.window.value, s.controller.value);
            var done := RunHandler(s.(window := None).Emit(Immediate(t.id, s.now)), t.id, c, false, hal);
            Inv(if c.sync then done else Unlock(done), boot)
  {
    var (c, t) := (s.window.value, s.controller.value);
    var immediate := s.(window := None).Emit(Immediate(t.id, s.now));
    assert Audit(immediate.log) == Record(Audit(s.log), Immediate(t.id, s.now));
    assert Earlier(immediate, boot, Audit(immediate.log));
    RunHandlerDecides(immediate, boot, c, false, hal);
    if !c.sync {
      UnlockKeeps(RunHandler(immediate, t.id, c, false, hal), boot);
    }
  }

  lemma StartWaitKeeps(s: State, boot: (PowerState, PowerState), hal: Platform)
    requires Inv(s, boot)
    ensures Inv(StartWaitStep(s, hal), boot)
  {
    if s.window.Some? {
      if WaitsFor(s.controller.value, OffsetMs(s.window.value)) {
        WaitingKeeps(s, boot);
      } else {
        ImmediateKeeps(s, boot, hal);
      }
    }
  }

  /** An answer from a client that may just have been taken out of the registry. */
  lemma AnswerKeeps(s: State, boot: (PowerState, PowerState), client: nat, id: nat, hal: Platform)
    requires Registry(s) && Machine(s) && Locking(s) && Books(s, boot)
    requires s.controller.Some? && s.controller.value.pending - {client} <= s.clients.Keys
    requires AwaitsRegistered(s) || id == s.lastId
    ensures Inv(AnswerStep(s, client, id, hal), boot)
  {
    var t := s.controller.value;
    if Accepts(t, client, id) {
      if Completes(t, client) {
        LastAnswerKeeps(s, boot, client, hal);
      } else {
        EarlyAnswerKeeps(s, boot, client, hal);
      }
    }
  }

  lemma EarlyAnswerKeeps(s: State, boot: (PowerState, PowerState), client: nat, hal: Platform)
    requires Registry(s) && Machine(s) && Locking(s) && Books(s, boot)
    requires s.controller.Some? && s.controller.value.pending - {client} <= s.clients.Keys
    requires client in s.controller.value.pending && !Completes(s.controller.value, client)
    ensures Inv(AnswerStep(s, client, s.lastId, hal), boot)
  {
    var t := s.controller.value;
    var answered := s.(controller := Some(Answered(t, client))).Emit(Acknowledged(t.id, client));
    assert Audit(answered.log) == Record(Audit(s.log), Acknowledged(t.id, client));
    assert Earlier(answered, boot, Audit(answered.log));
  }

  lemma LastAnswerKeeps(s: State, boot: (PowerState, PowerState), client: nat, hal: Platform)
    requires Registry(s) && Machine(s) && Locking(s) && Books(s, boot)
    requires s.controller.Some? && client in s.controller.value.pending && Completes(s.controller.value, client)
    ensures Inv(AnswerStep(s, client, s.lastId, hal), boot)
  {
    var t := s.controller.value;
    var answered := s.(controller := Some(Answered(t, client)), jobs := s.jobs - {t.id}).Emit(Acknowledged(t.id, client));
    assert Audit(answered.log) == Record(Audit(s.log), Acknowledged(t.id, client));
    assert Earlier(answered, boot, Audit(answered.log));
    RunHandlerDecides(answered, boot, t.handler.value, false, hal);
  }

  lemma TimerKeeps(s: State, boot: (PowerState, PowerState), job: nat, hal: Platform)
    requires Inv(s, boot)
    ensures Inv(TimerStep(s, job, hal), boot)
  {
    if job in s.jobs && s.jobs[job] <= s.now {
      var t := s.controller.value;
      RunHandlerDecides(s.(jobs := s.jobs - {job}, controller := Some(Stopped(t))), boot, t.handler.value, true, hal);
    }
  }

  lemma DelayLedger(s: State, boot: (PowerState, PowerState), client: nat, id: nat, seconds: nat)
    requires Machine(s) && Books(s, boot)
    requires s.controller.Some? && DelayAccepted(s.controller.value, client, id)
    ensures var (s', t, until) := (DelayStep(s, client, id, seconds), s.controller.value, s.now + seconds * 1000);
            var l := Audit(s.log);
            var x := l.entries[s.lastId - 1];
            && s' == s.(controller := Some(t.(timeout := Max(t.timeout, until))), jobs := s'.jobs, log := s'.log)
            && s'.jobs == (if t.running then map[t.id := Max(t.timeout, until)] else map[])
            && Audit(s'.log) == l.(entries := l.entries[s.lastId - 1 := x.(deadline := Later(x.deadline, until))])
  {
    var e := Delayed(s.lastId, s.now + seconds * 1000);
    assert Audit(After(s.log, e)) == Record(Audit(s.log), e);
  }

  lemma DelayKeeps(s: State, boot: (PowerState, PowerState), client: nat, id: nat, seconds: nat)
    requires Inv(s, boot)
    ensures Inv(DelayStep(s, client, id, seconds), boot)
  {
    assert s.controller.None? || !DelayAccepted(s.controller.value, client, id) ==> DelayStep(s, client, id, seconds) == s;
    hide DelayStep, Audit;
    if s.controller.Some? && DelayAccepted(s.controller.value, client, id) {
      DelayLedger(s, boot, client, id, seconds);
    }
  }

  lemma AddClientKeeps(s: State, boot: (PowerState, PowerState), name: string)
    requires Inv(s, boot)
    ensures Inv(AddClientStep(s, name), boot)
  {
  }

  lemma RemoveClientKeeps(s: State, boot: (PowerState, PowerState), client: nat, hal: Platform)
    requires Inv(s, boot)
    ensures Inv(RemoveClientStep(s, client, hal), boot)
  {
    if client in s.clients {
      var removed := s.(clients := s.clients - {client});
      if s.controller.Some? {
        AnswerKeeps(removed, boot, client, s.lastId, hal);
      }
    }
  }

  lemma CompleteKeeps(s: State, boot: (PowerState, PowerState), client: nat, id: nat, hal: Platform)
    requires Inv(s, boot)
    ensures Inv(AnswerStep(s, client, id, hal), boot)
  {
    if s.controller.Some? {
      AnswerKeeps(s, boot, client, id, hal);
    }
  }

  lemma EnvironmentKeeps(s: State, boot: (PowerState, PowerState), ms: nat, d: DeepSleepControl.DeepSleep)
    requires Inv(s, boot)
    ensures Inv(s.(now := s.now + ms), boot) && Inv(s.(deepSleep := d), boot)
  {
  }

  lemma StepKeeps(s: State, boot: (PowerState, PowerState), a: Action)
    requires Inv(s, boot)
    ensures Inv(Step(s, a), boot)
  {
    hide Inv, RequestStep, StartWaitStep, AnswerStep, DelayStep, AddClientStep, RemoveClientStep, TimerStep;
    match a
    case Tick(ms) => EnvironmentKeeps(s, boot, ms, s.deepSleep);
    case Request(target) => RequestKeeps(s, boot, target);
    case StartWait(hal) => StartWaitKeeps(s, boot, hal);
    case Complete(client, id, hal) => CompleteKeeps(s, boot, client, id, hal);
    case Delay(client, id, seconds) => DelayKeeps(s, boot, client, id, seconds);
    case AddClient(name) => AddClientKeeps(s, boot, name);
    case RemoveClient(client, hal) => RemoveClientKeeps(s, boot, client, hal);
    case TimerFires(job, hal) => TimerKeeps(s, boot, job, hal);
    case DeepSleepBecomes(d) => EnvironmentKeeps(s, boot, 0, d);
  }

  /** Every state of every run keeps the invariant. */
  lemma {:induction false} RunKeeps(current: PowerState, previous: PowerState, actions: seq<Action>)
    ensures Inv(Run(Boot(current, previous), actions), (current, previous))
  {
    if actions != [] {
      var n := |actions| - 1;
      RunKeeps(current, previous, actions[..n]);
      StepKeeps(Run(Boot(current, previous), actions[..n]), (current, previous), actions[n]);
    }
  }
}
