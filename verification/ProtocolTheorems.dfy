/** The promises of the transition protocol, over every run. */
module ProtocolTheorems {
  import opened PowerTypes
  import opened AckControl
  import opened PowerProtocol
  import opened ProtocolHistory
  import opened ProtocolInvariants
  import opened ProtocolSteps

  /** The state a run reaches from start-up with reported states `boot`. */
  ghost function Reached(boot: Change, actions: seq<Action>): State {
    Run(Boot(boot.0, boot.1), actions)
  }

  ghost function Entries(s: State): seq<Entry> {
    Audit(s.log).entries
  }

  /** The entry of transition `id`; a blank one if it was never opened. */
  ghost function EntryOf(s: State, id: nat): Entry {
    if 1 <= id <= |Entries(s)| then Entries(s)[id - 1]
    else Entry(0, Unknown, Unknown, false, {}, {}, 0, 0, None, 0, 0, 0, 0, 0)
  }

  lemma RunAppend(s: State, actions: seq<Action>, a: Action)
    ensures Run(s, actions + [a]) == Step(Run(s, actions), a)
  {
    assert (actions + [a])[..|actions|] == actions;
  }

  /** A run, one prefix at a time. */
  lemma RunPrefixes(boot: Change, actions: seq<Action>)
    ensures Reached(boot, actions[..0]) == Boot(boot.0, boot.1)
    ensures forall i :: 0 <= i < |actions| ==>
              Reached(boot, actions[..i + 1]) == Step(Reached(boot, actions[..i]), actions[i])
    ensures actions[..|actions|] == actions
  {
    forall i | 0 <= i < |actions|
      ensures Reached(boot, actions[..i + 1]) == Step(Reached(boot, actions[..i]), actions[i])
    {
      assert actions[..i + 1] == actions[..i] + [actions[i]];
      RunAppend(Boot(boot.0, boot.1), actions[..i], actions[i]);
    }
  }

  /** A request that nobody waits for is applied as soon as it has been announced. */
  lemma AppliedAtOnce(s: State, hal: Platform)
    requires s.window.Some? && s.controller.Some? && s.controller.value.pending == {}
    requires !s.window.value.sync && Accepted(s.window.value, hal)
    ensures var (c, s') := (s.window.value, StartWaitStep(s, hal));
            && (s'.current, s'.previous) == (c.to, s.current)
            && s'.selfLock == s.selfLock + 1 && s'.window.None?
            && (s'.now, s'.deepSleep, s'.clients, s'.controller) == (s.now, s.deepSleep, s.clients, s.controller)
            && (c.to == StandbyDeepSleep ==> Happened(s'.log, SleepSubmitted))
  {
    var (c, id) := (s.window.value, s.controller.value.id);
    var applied := Apply(s.(window := None).Emit(Immediate(id, s.now)).Emit(Called(id, false, false, s.now)), id, c, hal);
    if c.to == StandbyDeepSleep {
      assert applied.log.event == SleepSubmitted;
      assert Happened(After(applied.log, Released), SleepSubmitted);
      assert StartWaitStep(s, hal).log == After(After(applied.log, Released), Unlocked);
    }
  }

  lemma ReachedKeeps(boot: Change, actions: seq<Action>)
    ensures Inv(Reached(boot, actions), boot) && Orderly(Reached(boot, actions).log)
  {
    RunKeeps(boot.0, boot.1, actions);
    RunOrderly(boot.0, boot.1, actions);
  }

  /**
    The announced changes form a path of real changes from the state at start-up, and once there
    is one, what `GetPowerState` reports is exactly the last of them.
   */
  lemma ChangesFormPath(boot: Change, actions: seq<Action>)
    ensures var s := Reached(boot, actions);
            var changes := Audit(s.log).changes;
            && (forall i :: 0 <= i < |changes| ==> changes[i].0 != changes[i].1)
            && (forall i :: 0 < i < |changes| ==> changes[i].0 == changes[i - 1].1)
            && (changes != [] ==> changes[0].0 == boot.0 && changes[|changes| - 1] == (s.previous, s.current))
            && (changes == [] ==> (s.current, s.previous) == boot)
  {
    ReachedKeeps(boot, actions);
  }

  /** Of all transitions ever opened, those from deep sleep to light sleep are synchronous, and no others. */
  lemma {:induction false} SyncExactly(boot: Change, actions: seq<Action>)
    ensures forall x :: x in Entries(Reached(boot, actions)) ==>
              (x.sync <==> x.from == StandbyDeepSleep && x.to == StandbyLightSleep)
  {
    hide Run, Step, Audit, Orderly;
    if actions == [] {
      NothingOpened(boot);
    } else {
      var n := |actions| - 1;
      assert actions == actions[..n] + [actions[n]];
      SyncExactly(boot, actions[..n]);
      StepFrom(boot, actions[..n], actions[n]);
      var (es, es') := (Entries(Reached(boot, actions[..n])), Entries(Reached(boot, actions)));
      forall k | 0 <= k < |es'|
        ensures es'[k].sync <==> es'[k].from == StandbyDeepSleep && es'[k].to == StandbyLightSleep
      {
        assert k < |es| ==> es[k] in es;
      }
    }
  }

  lemma NothingOpened(boot: Change)
    ensures Entries(Reached(boot, [])) == []
  {
  }

  /**
    A change is attempted only for the latest transition, and only if it is synchronous, or
    every client awaited at its opening has acknowledged it or been removed, or the clock has
    passed the start of the wait plus the timeout and every delay accepted for it so far.
   */
  lemma NoEarlyCommit(boot: Change, actions: seq<Action>, a: Action, id: nat)
    requires var (x, x') := (EntryOf(Reached(boot, actions), id), EntryOf(Reached(boot, actions + [a]), id));
             x'.failures + x'.successes > x.failures + x.successes
    ensures var (s, s') := (Reached(boot, actions), Reached(boot, actions + [a]));
            var x := EntryOf(s, id);
            && id == s.lastId == s'.lastId
            && (|| (x.from == StandbyDeepSleep && x.to == StandbyLightSleep)
                || (forall c :: c in x.awaited ==> Happened(s'.log, Acknowledged(id, c)))
                || (&& x.waitsFrom.Some? && x.waitsFrom.value + 1000 <= s.now
                    && forall until: nat :: Happened(s.log, Delayed(id, until)) ==> until <= s.now))
  {
    hide Run, Step, Audit;
    StepFrom(boot, actions, a);
    SyncExactly(boot, actions);
    var (s, s') := (Reached(boot, actions), Reached(boot, actions + [a]));
    assert 1 <= id <= |Entries(s)|;
    forall c | c in EntryOf(s', id).answered
      ensures Happened(s'.log, Acknowledged(id, c))
    {
      AnsweredMeansAcknowledged(s'.log, id, c);
    }
    DeadlineIsMaximum(s.log, id);
    assert forall until: nat :: Allows(Delayed(id, until), id) == until;
  }

  lemma StepFrom(boot: Change, actions: seq<Action>, a: Action)
    ensures var (s, s') := (Reached(boot, actions), Reached(boot, actions + [a]));
            && s' == Step(s, a) && StepsTo(s, a, s')
            && Inv(s, boot) && Orderly(s.log) && Inv(s', boot) && Orderly(s'.log)
            && |Entries(s)| == s.lastId && |Entries(s')| == s'.lastId
            && (forall k :: 0 <= k < |Entries(s)| ==> Entries(s)[k].id == k + 1)
  {
    ReachedKeeps(boot, actions);
    ReachedKeeps(boot, actions + [a]);
    RunAppend(Boot(boot.0, boot.1), actions, a);
    StepSteps(Reached(boot, actions), boot, a);
  }

  /**
    The flags of a handler call say why it was made: timed out, when the deadline has passed
    with the timer running; revoked, when a request for another state superseded a running
    transition; neither, when nobody is awaited any more or the change is synchronous.
   */
  lemma HandlerFlags(boot: Change, actions: seq<Action>, a: Action, id: nat)
    requires EntryOf(Reached(boot, actions + [a]), id).calls > EntryOf(Reached(boot, actions), id).calls
    ensures var (s, s') := (Reached(boot, actions), Reached(boot, actions + [a]));
            var (x, x') := (EntryOf(s, id), EntryOf(s', id));
            && x'.calls == 1 && id == s.lastId && s.InTransition()
            && (x'.timeouts == 1 ==> x'.revocations == 0 && a.TimerFires? && s.Running() && x.deadline <= s.now)
            && (x'.revocations == 1 ==> x'.timeouts == 0 && a.Request? && s.Running() && a.target != x.to
                                        && s'.lastId == id + 1)
            && (x'.timeouts == x'.revocations == 0 ==>
                  || (x.from == StandbyDeepSleep && x.to == StandbyLightSleep)
                  || x'.awaited <= x'.answered)
            && (x'.revocations == 0 <==> x'.failures + x'.successes == 1)
  {
    hide Run, Step, Audit;
    SyncExactly(boot, actions);
    StepFrom(boot, actions, a);
  }

  /**
    Each transition is scheduled once and its handler called once; the one under way is the only
    exception.  The plugin is kept alive exactly while one is under way.
   */
  lemma EachTransitionEndsOnce(boot: Change, actions: seq<Action>, id: nat)
    requires 1 <= id <= |Entries(Reached(boot, actions))|
    ensures var s := Reached(boot, actions);
            var x := Entries(s)[id - 1];
            && x.id == id
            && (if id == s.lastId && s.InTransition()
                then x.calls == 0 && x.schedules == (if s.Running() then 1 else 0)
                else x.calls == 1 && x.schedules == 1)
            && x.revocations + x.failures + x.successes == x.calls
            && x.timeouts + x.revocations <= x.calls
            && Audit(s.log).references == s.references == (if s.InTransition() then 1 else 0)
  {
    ReachedKeeps(boot, actions);
  }

  /** Nothing is left waiting: the state is the one last asked for, unless the platform failed. */
  lemma QuiescentStateIsLastTarget(boot: Change, actions: seq<Action>)
    requires Entries(Reached(boot, actions)) != [] && !Reached(boot, actions).InTransition()
    ensures var s := Reached(boot, actions);
            var x := Entries(s)[|Entries(s)| - 1];
            && x.revocations == 0
            && (s.current == x.to <==> x.successes == 1)
            && (s.current == x.to <==> x.failures == 0)
  {
    ReachedKeeps(boot, actions);
  }

  lemma {:induction false} WillingRunNeverFails(boot: Change, actions: seq<Action>)
    requires forall a :: a in actions ==> Willing(a)
    ensures forall id: nat :: EntryOf(Reached(boot, actions), id).failures == 0
  {
    hide Step, Inv, Orderly, StepsTo;
    if actions != [] {
      var n := |actions| - 1;
      assert actions == actions[..n] + [actions[n]];
      WillingRunNeverFails(boot, actions[..n]);
      StepFrom(boot, actions[..n], actions[n]);
      WillingStepNeverFails(Reached(boot, actions[..n]), actions[n], Reached(boot, actions));
    }
  }

  lemma WillingStepNeverFails(s: State, a: Action, s': State)
    requires StepsTo(s, a, s') && Willing(a)
    requires forall id: nat :: EntryOf(s, id).failures == 0
    ensures forall id: nat :: EntryOf(s', id).failures == 0
  {
    hide Audit;
    forall id: nat
      ensures EntryOf(s', id).failures == 0
    {
      assert EntryOf(s, id).failures == 0;
    }
  }

  /**
    A request for another state that finds nothing under way is dropped as redundant exactly
    when the latest transition was to that same state and the platform failed it.
   */
  lemma LostRequestExactly(boot: Change, actions: seq<Action>, target: PowerState)
    requires var s := Reached(boot, actions);
             !s.InTransition() && target != s.current && !IgnoredAsTransient(s)
    ensures var (s, s') := (Reached(boot, actions), Reached(boot, actions + [Request(target)]));
            && (s'.lastId == s.lastId <==>
                  Entries(s) != [] && Entries(s)[|Entries(s)| - 1].to == target && Entries(s)[|Entries(s)| - 1].failures == 1)
            && (s'.lastId > s.lastId ==> s'.window == Some(Completion(s.current, target, IsSyncStateChange(s.current, target))))
  {
    hide Run, Audit, RequestStep;
    StepFrom(boot, actions, Request(target));
    RequestOpensExactly(Reached(boot, actions), target);
  }

  /** With a platform that never fails, a request is dropped as redundant only while its state is on its way. */
  lemma NoLostRequest(boot: Change, actions: seq<Action>, target: PowerState)
    requires forall a :: a in actions ==> Willing(a)
    requires var s := Reached(boot, actions);
             s.selfLock == 1 && target != s.current && IgnoredAsRedundant(s, target)
    ensures Reached(boot, actions).Running()
  {
    hide Run;
    WillingRunNeverFails(boot, actions);
    ReachedKeeps(boot, actions);
    var s := Reached(boot, actions);
    assert EntryOf(s, s.lastId).failures == 0;
  }

  /** Nothing is under way, yet the state is not the one last asked for. */
  ghost predicate Stuck(s: State) {
    s.controller.Some? && !s.InTransition() && s.controller.value.target != s.current
  }

  /** The only way out is to ask for a third state. */
  predicate AsksForNothingNew(a: Action, current: PowerState, target: PowerState) {
    a.Request? ==> a.target == current || a.target == target
  }

  lemma StuckStays(s: State, a: Action)
    requires Stuck(s) && Machine(s) && Locking(s)
    requires AsksForNothingNew(a, s.current, s.controller.value.target)
    ensures var s' := Step(s, a);
            && Stuck(s') && s'.lastId == s.lastId && s'.current == s.current
            && s'.controller.value.target == s.controller.value.target
  {
    if a.Request? {
      RequestCases(s, a.target);
    }
  }

  /**
    Once the platform has failed a transition, no sequence of actions leaves the old state or
    opens another transition, as long as nobody asks for a third state: repeating the request
    does not help.
   */
  lemma {:induction false} FailureBlocksRetry(boot: Change, actions: seq<Action>, more: seq<Action>)
    requires var s := Reached(boot, actions);
             && !s.InTransition() && EntryOf(s, s.lastId).failures == 1
             && forall a :: a in more ==> AsksForNothingNew(a, s.current, EntryOf(s, s.lastId).to)
    ensures var (s, s') := (Reached(boot, actions), Reached(boot, actions + more));
            && Stuck(s') && s'.lastId == s.lastId && s'.current == s.current
            && s'.controller.value.target == EntryOf(s, s.lastId).to
    decreases |more|
  {
    hide Run, Step, Audit;
    ReachedKeeps(boot, actions);
    if more == [] {
      assert actions + more == actions;
    } else {
      var n := |more| - 1;
      assert more == more[..n] + [more[n]];
      FailureBlocksRetry(boot, actions, more[..n]);
      assert actions + more == actions + more[..n] + [more[n]];
      RunAppend(Boot(boot.0, boot.1), actions + more[..n], more[n]);
      ReachedKeeps(boot, actions + more[..n]);
      StuckStays(Reached(boot, actions + more[..n]), more[n]);
    }
  }

  /** It takes one request and one refusal to get there. */
  lemma FailureHappens()
    ensures var s := Reached((On, On), [Request(Standby), StartWait(Platform(false, false))]);
            Stuck(s) && s.current == On && IgnoredAsRedundant(s, Standby)
  {
    var s0 := Boot(On, On);
    RequestCases(s0, Standby);
    RunAppend(s0, [], Request(Standby));
    RunAppend(s0, [Request(Standby)], StartWait(Platform(false, false)));
    assert [] + [Request(Standby)] == [Request(Standby)];
    assert [Request(Standby)] + [StartWait(Platform(false, false))] == [Request(Standby), StartWait(Platform(false, false))];
    var s1 := Run(s0, [Request(Standby)]);
    assert s1 == Open(Supersede(s0.(selfLock := 0).Emit(Locked)), Standby);
    assert s1.controller.value.pending == {};
  }

  /** The timer job is in the pool exactly while a transition runs, at the deadline the log gives it. */
  lemma TimerMatchesHistory(boot: Change, actions: seq<Action>)
    ensures var s := Reached(boot, actions);
            && s.jobs == (if s.Running() then map[s.lastId := EntryOf(s, s.lastId).deadline] else map[])
            && (s.controller.Some? ==> s.controller.value.timeout == EntryOf(s, s.lastId).deadline)
            && !Happened(s.log, OrphanTimeout)
  {
    ReachedKeeps(boot, actions);
    OrderlyHasNoOrphan(Reached(boot, actions).log);
  }

  lemma {:induction false} OrderlyHasNoOrphan(log: Log)
    requires Orderly(log)
    ensures !Happened(log, OrphanTimeout)
  {
    if log.After? {
      OrderlyHasNoOrphan(log.earlier);
    }
  }

  /** The lock has been given back as often as it was taken, but for a request still announcing itself. */
  lemma LockIsReleasedOnce(boot: Change, actions: seq<Action>)
    ensures var s := Reached(boot, actions);
            && Audit(s.log).locks == (if s.window.Some? then 1 else 0)
            && s.selfLock == 1 - Audit(s.log).locks
  {
    ReachedKeeps(boot, actions);
  }

  /** No transition waits for a client that is not registered, nor goes on waiting for nobody. */
  lemma AwaitedClientsAreRegistered(boot: Change, actions: seq<Action>)
    ensures var s := Reached(boot, actions);
            && (s.controller.Some? ==> s.controller.value.pending <= s.clients.Keys)
            && (s.Running() ==> s.controller.value.pending != {})
  {
    ReachedKeeps(boot, actions);
  }

  /** An acknowledgement for any other transition than the latest changes nothing. */
  lemma SupersededAckIgnored(boot: Change, actions: seq<Action>, client: nat, id: nat, hal: Platform)
    requires id != Reached(boot, actions).lastId
    ensures Reached(boot, actions + [Complete(client, id, hal)]) == Reached(boot, actions)
  {
    StepFrom(boot, actions, Complete(client, id, hal));
  }

  /**
    Delays are not so careful: one for another transition, or from a client that is not awaited,
    moves the deadline of the latest transition exactly when that transition is not running.
   */
  lemma ForeignDelayExactly(boot: Change, actions: seq<Action>, client: nat, id: nat, seconds: nat)
    requires var s := Reached(boot, actions);
             s.controller.Some? && (id != s.lastId || client !in s.controller.value.pending)
    ensures var (s, s') := (Reached(boot, actions), Reached(boot, actions + [Delay(client, id, seconds)]));
            && (s.Running() ==> s' == s)
            && (EntryOf(s', s.lastId).deadline > EntryOf(s, s.lastId).deadline <==>
                  !s.Running() && s.now + seconds * 1000 > EntryOf(s, s.lastId).deadline)
  {
    StepFrom(boot, actions, Delay(client, id, seconds));
    var (s, s') := (Reached(boot, actions), Reached(boot, actions + [Delay(client, id, seconds)]));
    if !s.Running() {
      assert s'.log == After(s.log, Delayed(s.lastId, s.now + seconds * 1000));
      assert Audit(s'.log) == Record(Audit(s.log), s'.log.event);
    }
  }

  /** Before a transition waits, a delay for no transition of anybody's makes it wait a minute. */
  lemma ForeignDelayHappens()
    ensures var actions := [AddClient("tv"), Request(Standby), Delay(7, 99, 60), StartWait(Platform(true, false))];
            var (asked, delayed, s) := (Reached((On, On), actions[..2]), Reached((On, On), actions[..3]), Reached((On, On), actions));
            && asked.lastId == 1 && 7 !in asked.clients
            && EntryOf(asked, 1).deadline == 0 && EntryOf(delayed, 1).deadline == 60000
            && s.Running() && s.jobs == map[1 := 60000]
  {
    var actions := [AddClient("tv"), Request(Standby), Delay(7, 99, 60), StartWait(Platform(true, false))];
    RunPrefixes((On, On), actions);
    hide Run, Step, Audit, Happened;
    TimerMatchesHistory((On, On), actions[..2]);
    TimerMatchesHistory((On, On), actions[..3]);
    TimerMatchesHistory((On, On), actions);
    OneClientAndARequest();
    ForeignDelayBeforeWait(Reached((On, On), actions[..2]), 7, 99, 60, Platform(true, false));
  }

  lemma OneClientAndARequest()
    ensures var s := Step(Step(Boot(On, On), AddClient("tv")), Request(Standby));
            && s.window == Some(Completion(On, Standby, false)) && s.controller.Some? && !s.Running()
            && s.controller.value.pending == s.clients.Keys == {1}
            && s.controller.value.timeout == s.now == 0 && s.lastId == 1
  {
    var s1 := Boot(On, On).(clients := map[1 := "tv"], lastClient := 1);
    assert Step(Boot(On, On), AddClient("tv")) == s1;
    RequestCases(s1, Standby);
  }

  lemma ForeignDelayBeforeWait(s: State, client: nat, id: nat, seconds: nat, hal: Platform)
    requires s.window.Some? && s.controller.Some? && !s.Running()
    requires !s.window.value.sync && s.controller.value.pending != {}
    requires s.controller.value.timeout <= s.now && 1 <= seconds
    ensures var delayed := Step(s, Delay(client, id, seconds));
            var s' := Step(delayed, StartWait(hal));
            && delayed.lastId == s'.lastId == s.lastId
            && delayed.controller.Some? && delayed.controller.value.timeout == s.now + seconds * 1000
            && s'.Running() && s'.controller.value.timeout == s.now + seconds * 1000
  {
  }

  // ----- A synchronous change

  /** Until it starts to wait, an announced request keeps the lock; nobody gets past it. */
  lemma WindowStays(s: State, a: Action)
    requires s.window.Some? && Machine(s) && Locking(s) && !a.StartWait?
    ensures var s' := Step(s, a);
            && (s'.window, s'.selfLock, s'.lastId) == (s.window, s.selfLock, s.lastId)
            && (s'.current, s'.previous) == (s.current, s.previous)
  {
  }

  lemma {:induction false} WindowStaysThroughout(boot: Change, actions: seq<Action>, more: seq<Action>)
    requires Reached(boot, actions).window.Some?
    requires forall a :: a in more ==> !a.StartWait?
    ensures var (s, s') := (Reached(boot, actions), Reached(boot, actions + more));
            && (s'.window, s'.selfLock, s'.lastId) == (s.window, 0, s.lastId)
            && (s'.current, s'.previous) == (s.current, s.previous)
    decreases |more|
  {
    hide Run, Step, Audit;
    ReachedKeeps(boot, actions);
    if more == [] {
      assert actions + more == actions;
    } else {
      var n := |more| - 1;
      assert more == more[..n] + [more[n]];
      WindowStaysThroughout(boot, actions, more[..n]);
      assert actions + more == actions + more[..n] + [more[n]];
      RunAppend(Boot(boot.0, boot.1), actions + more[..n], more[n]);
      ReachedKeeps(boot, actions + more[..n]);
      WindowStays(Reached(boot, actions + more[..n]), more[n]);
    }
  }

  /** Starting a synchronous change makes its one attempt at once, and gives the lock back last of all. */
  lemma SyncStart(s: State, hal: Platform)
    requires s.window.Some? && s.controller.Some? && 1 <= s.controller.value.id <= |Entries(s)|
    requires s.window.value == Completion(StandbyDeepSleep, StandbyLightSleep, true)
    ensures var s' := StartWaitStep(s, hal);
            && (s'.current, s'.previous) == (if hal.ok then (StandbyLightSleep, s.current) else (s.current, s.previous))
            && s'.selfLock == s.selfLock + 1 && s'.window.None?
            && s'.log.After? && s'.log.event == Unlocked
            && Audit(s'.log.earlier).changes ==
               Audit(s.log).changes + (if hal.ok then [(StandbyDeepSleep, StandbyLightSleep)] else [])
  {
    var (c, id) := (s.window.value, s.controller.value.id);
    var immediate := s.(window := None).Emit(Immediate(id, s.now));
    var called := immediate.Emit(Called(id, false, false, s.now));
    assert Audit(immediate.log) == Record(Audit(s.log), Immediate(id, s.now));
    assert Audit(called.log) == Record(Audit(immediate.log), Called(id, false, false, s.now));
    ApplyLedger(called, id, c, hal);
    assert OffsetMs(c) == 0;
    assert StartWaitStep(s, hal).log == After(After(Apply(called, id, c, hal).log, Released), Unlocked);
  }

  /**
    Leaving deep sleep for light sleep waits for nobody: whatever clients, timers and other
    callers do between the announcement and the start, the lock is held throughout; then the
    change is made and announced if and only if the platform accepts it, and only after that is
    the lock given back, whatever the platform answered.
   */
  lemma SyncChangeIsAtomic(boot: Change, actions: seq<Action>, between: seq<Action>, hal: Platform)
    requires var s := Reached(boot, actions);
             && s.current == StandbyDeepSleep && s.selfLock == 1
             && !IgnoredAsTransient(s) && !IgnoredAsRedundant(s, StandbyLightSleep)
    requires forall a :: a in between ==> !a.StartWait?
    ensures var requested := actions + [Request(StandbyLightSleep)];
            var s := Reached(boot, requested + between);
            var s' := Reached(boot, requested + between + [StartWait(hal)]);
            && Reached(boot, requested).selfLock == s.selfLock == 0
            && s.current == StandbyDeepSleep
            && (s'.current, s'.previous) ==
               (if hal.ok then (StandbyLightSleep, StandbyDeepSleep) else (StandbyDeepSleep, s.previous))
            && s'.selfLock == 1
            && s'.log.After? && s'.log.event == Unlocked
            && Audit(s'.log.earlier).changes ==
               Audit(s.log).changes + (if hal.ok then [(StandbyDeepSleep, StandbyLightSleep)] else [])
  {
    hide Run, Audit;
    var requested := actions + [Request(StandbyLightSleep)];
    var s := Reached(boot, requested + between);
    ReachedKeeps(boot, actions);
    RunAppend(Boot(boot.0, boot.1), actions, Request(StandbyLightSleep));
    RequestCases(Reached(boot, actions), StandbyLightSleep);
    WindowStaysThroughout(boot, requested, between);
    ReachedKeeps(boot, requested + between);
    RunAppend(Boot(boot.0, boot.1), requested + between, StartWait(hal));
    SyncStart(s, hal);
  }

  // ----- Deep sleep

  /** No other activation takes the latch. */
  predicate NoNewSleep(actions: seq<Action>) {
    forall a :: a in actions && a.DeepSleepBecomes? ==> a.deepSleep.state != DeepSleepControl.InProgress
  }

  lemma StepStaysOut(s: State, a: Action)
    requires s.deepSleep.state != DeepSleepControl.InProgress && NoNewSleep([a])
    ensures Step(s, a).deepSleep.state != DeepSleepControl.InProgress
  {
    hide RunHandler, AbortHandler;
    match a
    case StartWait(hal) => HandlerFrame(hal);
    case Complete(_, _, hal) => HandlerFrame(hal);
    case RemoveClient(_, hal) => HandlerFrame(hal);
    case TimerFires(_, hal) => HandlerFrame(hal);
    case Request(target) => RequestStaysOut(s, target);
    case _ => assert a in [a];
  }

  lemma RequestStaysOut(s: State, target: PowerState)
    requires s.deepSleep.state != DeepSleepControl.InProgress
    ensures RequestStep(s, target).deepSleep.state != DeepSleepControl.InProgress
  {
  }

  lemma {:induction false} StaysOut(boot: Change, actions: seq<Action>, more: seq<Action>)
    requires Reached(boot, actions).deepSleep.state != DeepSleepControl.InProgress && NoNewSleep(more)
    ensures Reached(boot, actions + more).deepSleep.state != DeepSleepControl.InProgress
    decreases |more|
  {
    hide Run, Step;
    if more == [] {
      assert actions + more == actions;
    } else {
      var n := |more| - 1;
      StaysOut(boot, actions, more[..n]);
      assert actions + more == actions + more[..n] + [more[n]];
      RunAppend(Boot(boot.0, boot.1), actions + more[..n], more[n]);
      StepStaysOut(Reached(boot, actions + more[..n]), more[n]);
    }
  }

  /**
    A deep sleep that was not given up reports in some later state, with no new sleep begun in
    between.  Once the lock is free and if the plugin is still in deep sleep, the report opens the
    wake-up to the state that the platform's last answer calls for, exactly if the latest
    transition did not have that target: none is taken as transient.  One that was given up
    requests nothing.
   */
  lemma WakeupIsHeardExactly(boot: Change, actions: seq<Action>, before: DeepSleepControl.DeepSleep,
                             hal: nat -> DeepSleepControl.Answer, deactivate: nat -> bool, calls: nat,
                             outcome: DeepSleepControl.Outcome, after: DeepSleepControl.DeepSleep,
                             between: seq<Action>, bootToStandby: bool)
    requires DeepSleepControl.Leaves(before, hal, deactivate, calls, outcome, after)
    requires NoNewSleep(between)
    requires var s := Reached(boot, actions + [DeepSleepBecomes(after)] + between);
             s.current == StandbyDeepSleep && s.selfLock == 1
    ensures var s := Reached(boot, actions + [DeepSleepBecomes(after)] + between);
            var s' := ReportStep(s, outcome, bootToStandby);
            if outcome == DeepSleepControl.GivenUp then s' == s
            else
              && calls > 0
              && var target := if hal(calls - 1) == DeepSleepControl.Answer(NoError, false) || bootToStandby
                               then StandbyLightSleep else On;
                 && (s'.lastId == s.lastId + 1
                     && s'.window == Some(Completion(StandbyDeepSleep, target, target == StandbyLightSleep))
                     <==> Entries(s) == [] || Entries(s)[|Entries(s)| - 1].to != target)
                 && (s'.lastId == s.lastId ==> s'.window == s.window)
  {
    hide Run, Audit, RequestStep, DeepSleepControl.Explains;
    var slept := actions + [DeepSleepBecomes(after)];
    RunAppend(Boot(boot.0, boot.1), actions, DeepSleepBecomes(after));
    StaysOut(boot, slept, between);
    ReachedKeeps(boot, slept + between);
    DeepSleepControl.WakeupFollowsAnswer(before, hal, deactivate, calls, outcome, after, bootToStandby);
    if outcome != DeepSleepControl.GivenUp {
      RequestOpensExactly(Reached(boot, slept + between), DeepSleepControl.WakeupTarget(outcome, bootToStandby).value);
    }
  }

  /**
    A wake-up can come too early: here it is accepted and applied after the sleep was submitted
    and before its job has run.  The job then calls the platform all the same, unless yet another
    deactivation reaches it at one of its first two abort points.
   */
  lemma EarlyWakeupDoesNotStopSleep(hal: nat -> DeepSleepControl.Answer, deactivate: nat -> bool, calls: nat,
                                    outcome: DeepSleepControl.Outcome, after: DeepSleepControl.DeepSleep)
    ensures var ok := Platform(true, false);
            var actions := [Request(StandbyDeepSleep), StartWait(ok), Request(On), StartWait(ok)];
            var s := Reached((On, On), actions);
            && Happened(Reached((On, On), actions[..2]).log, SleepSubmitted)
            && s.current == On && s.deepSleep.abortRequested && s.deepSleep.state != DeepSleepControl.InProgress
            && (DeepSleepControl.Leaves(DeepSleepControl.DeepSleep(DeepSleepControl.InProgress, Some(s.now), false, s.deepSleep.delayJob),
                                        hal, deactivate, calls, outcome, after) ==>
                  (calls > 0 <==> !deactivate(0) && !deactivate(1)))
  {
    hide Run, DeepSleepControl.Explains;
    var ok := Platform(true, false);
    var actions := [Request(StandbyDeepSleep), StartWait(ok), Request(On), StartWait(ok)];
    RunPrefixes((On, On), actions);
    var s1 := Reached((On, On), actions[..1]);
    RequestCases(Boot(On, On), StandbyDeepSleep);
    assert s1.window == Some(Completion(On, StandbyDeepSleep, false)) && s1.controller.value.pending == {};
    AppliedAtOnce(s1, ok);
    RequestCases(Reached((On, On), actions[..2]), On);
    var s3 := Reached((On, On), actions[..3]);
    assert s3.window == Some(Completion(StandbyDeepSleep, On, false)) && s3.controller.value.pending == {};
    AppliedAtOnce(s3, ok);
    if DeepSleepControl.Leaves(DeepSleepControl.DeepSleep(DeepSleepControl.InProgress, Some(s3.now), false, s3.deepSleep.delayJob), hal, deactivate, calls, outcome, after) {
      DeepSleepControl.PlatformIsCalledExactly(false, hal, deactivate, calls, outcome);
    }
  }

  // ----- Progress

  /** The action stops transition `id` from waiting for client `c`. */
  predicate Answers(a: Action, id: nat, c: nat) {
    || (a.Complete? && a.client == c && a.id == id)
    || (a.RemoveClient? && a.client == c)
  }

  /** One action either decides a running transition or leaves it running, waiting for fewer. */
  lemma RunningStep(s: State, boot: Change, a: Action)
    requires Inv(s, boot) && s.Running()
    ensures var s' := Step(s, a);
            (s'.lastId == s.lastId && s'.Running()) ==>
              && s'.controller.value.pending <= s.controller.value.pending
              && forall c :: Answers(a, s.lastId, c) ==> c !in s'.controller.value.pending
    ensures Step(s, a).lastId == s.lastId ==> Step(s, a).window.None?
  {
    hide Audit, RunHandler, AbortHandler;
    match a
    case Request(target) => RequestFrame(s, target);
    case StartWait(_) =>
    case Complete(client, id, hal) => HandlerFrame(hal);
    case RemoveClient(client, hal) => HandlerFrame(hal);
    case TimerFires(job, hal) => HandlerFrame(hal);
    case _ =>
  }

  /** A handler call touches neither the registry nor the controller. */
  lemma HandlerFrame(hal: Platform)
    ensures forall s: State, id, c, timedOut {:trigger RunHandler(s, id, c, timedOut, hal)} ::
              var s' := RunHandler(s, id, c, timedOut, hal);
              && (s'.clients, s'.lastClient) == (s.clients, s.lastClient)
              && (s'.controller, s'.lastId, s'.window) == (s.controller, s.lastId, s.window)
              && s'.deepSleep == s.deepSleep
  {
  }

  lemma SupersedeFrame(s: State)
    ensures var s' := Supersede(s);
            (s'.clients, s'.lastClient, s'.lastId, s'.current) == (s.clients, s.lastClient, s.lastId, s.current)
  {
  }

  lemma RequestFrame(s: State, target: PowerState)
    requires Locking(s)
    ensures var s' := RequestStep(s, target);
            && (s'.clients, s'.lastClient) == (s.clients, s.lastClient)
            && (s'.lastId == s.lastId ==> (s'.controller, s'.window) == (s.controller, s.window))
  {
    hide Supersede;
    if s.selfLock != 0 {
      RequestCases(s, target);
      SupersedeFrame(s.(selfLock := 0).Emit(Locked));
      SupersedeFrame(s.(selfLock := 0).Emit(Locked).(deepSleep := DeepSleepControl.Deactivated(s.deepSleep)));
    }
  }

  ghost predicate StillAwaits(s: State, id: nat, pending: set<nat>, more: seq<Action>) {
    && s.lastId == id && s.Running()
    && s.controller.value.pending <= pending
    && forall a, c :: a in more && Answers(a, id, c) ==> c !in s.controller.value.pending
  }

  lemma {:induction false} AnswersShrink(boot: Change, actions: seq<Action>, more: seq<Action>)
    requires Reached(boot, actions).Running()
    ensures var (s, s') := (Reached(boot, actions), Reached(boot, actions + more));
            EntryOf(s', s.lastId).calls == 1 || StillAwaits(s', s.lastId, s.controller.value.pending, more)
    decreases |more|
  {
    hide Run, Step, Audit, StepsTo;
    var s := Reached(boot, actions);
    if more == [] {
      assert actions + more == actions;
    } else {
      var n := |more| - 1;
      assert more == more[..n] + [more[n]];
      AnswersShrink(boot, actions, more[..n]);
      assert actions + more == actions + more[..n] + [more[n]];
      RunningOrDecided(boot, actions + more[..n], more[n], s.lastId);
    }
  }

  lemma RunningOrDecided(boot: Change, actions: seq<Action>, a: Action, id: nat)
    ensures var (s, s') := (Reached(boot, actions), Reached(boot, actions + [a]));
            && (EntryOf(s, id).calls == 1 ==> EntryOf(s', id).calls == 1)
            && (s.Running() && s.lastId == id ==>
                  || EntryOf(s', id).calls == 1
                  || (&& s'.Running() && s'.lastId == id
                      && s'.controller.value.pending <= s.controller.value.pending
                      && forall c :: Answers(a, id, c) ==> c !in s'.controller.value.pending))
  {
    hide Run, Step, Audit;
    StepFrom(boot, actions, a);
    var s := Reached(boot, actions);
    if s.Running() && s.lastId == id {
      RunningStep(s, boot, a);
    }
  }

  /**
    A running transition is decided by any sequence of actions in which each client it still
    waits for acknowledges it or is removed, whatever else happens in between.
   */
  lemma AnswersDecide(boot: Change, actions: seq<Action>, more: seq<Action>)
    requires Reached(boot, actions).Running()
    requires var s := Reached(boot, actions);
             forall c :: c in s.controller.value.pending ==> exists a :: a in more && Answers(a, s.lastId, c)
    ensures EntryOf(Reached(boot, actions + more), Reached(boot, actions).lastId).calls == 1
  {
    hide Run, Step, Audit;
    var s' := Reached(boot, actions + more);
    AnswersShrink(boot, actions, more);
    ReachedKeeps(boot, actions + more);
  }

  /** Without any answer, a running transition is decided as soon as its timer fires at its deadline. */
  lemma DueTimerDecides(boot: Change, actions: seq<Action>, hal: Platform)
    requires var s := Reached(boot, actions); s.Running() && EntryOf(s, s.lastId).deadline <= s.now
    ensures var s := Reached(boot, actions);
            var s' := Reached(boot, actions + [TimerFires(s.lastId, hal)]);
            var x' := EntryOf(s', s.lastId);
            && x'.calls == x'.timeouts == 1 && x'.failures + x'.successes == 1
            && s'.lastId == s.lastId && !s'.InTransition()
            && (s'.current == x'.to <==> hal.ok && !(hal.ignoreDeepSleep && x'.to == StandbyDeepSleep))
  {
    hide Run, Audit;
    var s := Reached(boot, actions);
    ReachedKeeps(boot, actions);
    RunAppend(Boot(boot.0, boot.1), actions, TimerFires(s.lastId, hal));
    var t := s.controller.value;
    var taken := s.(jobs := s.jobs - {t.id}, controller := Some(Stopped(t)));
    assert TimerStep(s, t.id, hal) == RunHandler(taken, t.id, t.handler.value, true, hal);
    RunHandlerLedger(taken, t.id, t.handler.value, true, hal);
  }

  // ----- The client registry

  /** Registering a known name changes nothing: the caller is given the id it already has. */
  lemma KnownNameKeepsId(boot: Change, actions: seq<Action>, id: nat)
    requires id in Reached(boot, actions).clients
    ensures var s := Reached(boot, actions);
            && Registered(s.clients, s.clients[id]) == Some(id)
            && AddClientStep(s, s.clients[id]) == s
  {
    ReachedKeeps(boot, actions);
  }

  lemma IdStaysOut(s: State, a: Action, id: nat)
    requires 0 < id <= s.lastClient && id !in s.clients && Locking(s)
    ensures id <= Step(s, a).lastClient && id !in Step(s, a).clients
  {
    hide RunHandler, AbortHandler;
    match a
    case Request(target) => RequestFrame(s, target);
    case StartWait(hal) => HandlerFrame(hal);
    case Complete(_, _, hal) => HandlerFrame(hal);
    case RemoveClient(_, hal) => HandlerFrame(hal);
    case TimerFires(_, hal) => HandlerFrame(hal);
    case _ =>
  }

  /** An id that has been issued and is no longer registered is never issued again. */
  lemma {:induction false} RemovedIdNeverReturns(boot: Change, actions: seq<Action>, more: seq<Action>, id: nat)
    requires var s := Reached(boot, actions); 0 < id <= s.lastClient && id !in s.clients
    ensures var s' := Reached(boot, actions + more); id <= s'.lastClient && id !in s'.clients
    decreases |more|
  {
    hide Run, Step;
    if more == [] {
      assert actions + more == actions;
    } else {
      var n := |more| - 1;
      RemovedIdNeverReturns(boot, actions, more[..n], id);
      assert actions + more == actions + more[..n] + [more[n]];
      RunAppend(Boot(boot.0, boot.1), actions + more[..n], more[n]);
      ReachedKeeps(boot, actions + more[..n]);
      IdStaysOut(Reached(boot, actions + more[..n]), more[n], id);
    }
  }
}
