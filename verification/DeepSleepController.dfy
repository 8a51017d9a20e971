/**
  Deep sleep: the latch taken at activation, the delayed entry, the bounded retry loop around
  the platform call and the report of its outcome.

  A run of the loop is driven by two environments.  `hal(i)` is the platform's answer to call
  number `i`.  `deactivate(k)` says whether another thread runs `Deactivate` at program point
  `k`: point 0 lies in the pre-delay, `3*i+1` before loop test `i`, `3*i+2` inside platform call
  `i`, and `3*i+3` after it (in the retry delay, or just before the outcome is reported).
 */
module DeepSleepControl {
  import opened PowerTypes

  datatype DeepSleepState = Failed | NotStarted | InProgress | Completed

  datatype DeepSleep = DeepSleep(
    state: DeepSleepState,
    startedAt: Option<nat>,
    abortRequested: bool,
    delayJob: bool)

  const RETRY_LIMIT: nat := 5
  const TRANSIENT_THRESHOLD_MS: int := 5000

  /** A start time equal to the clock's epoch counts as "never started". */
  function Elapsed(d: DeepSleep, now: nat): int {
    match d.startedAt
    case None => 0
    case Some(t) => if t == 0 then 0 else now - t
  }

  /** The window in which requests to leave deep sleep are ignored. */
  predicate IsTransient(d: DeepSleep, now: nat) {
    d.state == InProgress && Elapsed(d, now) < TRANSIENT_THRESHOLD_MS
  }

  function Deactivated(d: DeepSleep): DeepSleep {
    d.(state := NotStarted, abortRequested := true, delayJob := false)
  }

  datatype Answer = Answer(error: Error, userWakeup: bool)

  datatype Outcome =
    | GivenUp               // an abort was seen: nothing is reported
    | SleepFailed(error: Error)
    | UserWakeup
    | TimerWakeup

  /** The power state requested by the callback that reports an outcome, if one is made. */
  function WakeupTarget(outcome: Outcome, bootToStandby: bool): Option<PowerState> {
    match outcome
    case GivenUp => None
    case TimerWakeup => Some(StandbyLightSleep)
    case _ => Some(if bootToStandby then StandbyLightSleep else On)
  }

  /** An abort is outstanding at point `k`: requested before entry, or at some point up to `k`. */
  predicate AbortedBy(initially: bool, deactivate: nat -> bool, k: nat) {
    deactivate(k) || (if k == 0 then initially else AbortedBy(initially, deactivate, k - 1))
  }

  lemma {:induction false} AbortedByMeaning(initially: bool, deactivate: nat -> bool, k: nat)
    ensures AbortedBy(initially, deactivate, k) <==> initially || exists j: nat :: j <= k && deactivate(j)
  {
    if k > 0 {
      AbortedByMeaning(initially, deactivate, k - 1);
    }
  }

  /** `calls` calls were made: all but the last were answered ABORTED, and none was made after an abort. */
  ghost predicate Tried(initially: bool, hal: nat -> Answer, deactivate: nat -> bool, calls: nat) {
    && calls <= RETRY_LIMIT
    && (forall i: nat :: i + 1 < calls ==> hal(i).error == Aborted)
    && (calls > 0 ==> !AbortedBy(initially, deactivate, 3 * (calls - 1) + 1))
  }

  /** What the platform's last answer leads to. */
  function Report(answer: Answer): Outcome {
    if answer.error != NoError then SleepFailed(answer.error)
    else if answer.userWakeup then UserWakeup
    else TimerWakeup
  }

  /**
    What a run may report, without saying how it is found: how many platform calls were made,
    and why there was no further one.
   */
  ghost predicate Explains(initially: bool, hal: nat -> Answer, deactivate: nat -> bool, calls: nat, outcome: Outcome) {
    && Tried(initially, hal, deactivate, calls)
    && if outcome.GivenUp? then
         && calls < RETRY_LIMIT
         && (calls > 0 ==> hal(calls - 1).error == Aborted)
         && AbortedBy(initially, deactivate, 3 * calls + 1)
       else
         && calls > 0
         && outcome == Report(hal(calls - 1))
         && (hal(calls - 1).error == Aborted ==> calls == RETRY_LIMIT)
  }

  lemma NoTryYet(initially: bool, hal: nat -> Answer, deactivate: nat -> bool)
    ensures Tried(initially, hal, deactivate, 0)
  {
  }

  lemma OneMoreTry(initially: bool, hal: nat -> Answer, deactivate: nat -> bool, calls: nat)
    requires Tried(initially, hal, deactivate, calls) && calls < RETRY_LIMIT
    requires calls > 0 ==> hal(calls - 1).error == Aborted
    requires !AbortedBy(initially, deactivate, 3 * calls + 1)
    ensures Tried(initially, hal, deactivate, calls + 1)
  {
  }

  lemma {:induction false} AbortedByMonotone(initially: bool, deactivate: nat -> bool, j: nat, k: nat)
    requires j <= k && AbortedBy(initially, deactivate, j)
    ensures AbortedBy(initially, deactivate, k)
  {
    AbortedByMeaning(initially, deactivate, j);
    AbortedByMeaning(initially, deactivate, k);
  }

  lemma FewerCallsImpossible(initially: bool, hal: nat -> Answer, deactivate: nat -> bool,
                             c1: nat, o1: Outcome, c2: nat, o2: Outcome)
    requires Explains(initially, hal, deactivate, c1, o1) && Explains(initially, hal, deactivate, c2, o2)
    ensures c1 >= c2
  {
    if c1 < c2 {
      AbortedByMeaning(initially, deactivate, 3 * c1 + 1);
      AbortedByMeaning(initially, deactivate, 3 * (c2 - 1) + 1);
    }
  }

  /** The platform's answers and the abort points leave one number of calls and one outcome. */
  lemma OutcomeIsDetermined(initially: bool, hal: nat -> Answer, deactivate: nat -> bool,
                            c1: nat, o1: Outcome, c2: nat, o2: Outcome)
    requires Explains(initially, hal, deactivate, c1, o1) && Explains(initially, hal, deactivate, c2, o2)
    ensures c1 == c2 && o1 == o2
  {
    FewerCallsImpossible(initially, hal, deactivate, c1, o1, c2, o2);
    FewerCallsImpossible(initially, hal, deactivate, c2, o2, c1, o1);
  }

  lemma GivingUpIsExplained(initially: bool, hal: nat -> Answer, deactivate: nat -> bool, calls: nat)
    requires Tried(initially, hal, deactivate, calls) && calls < RETRY_LIMIT
    requires calls > 0 ==> hal(calls - 1).error == Aborted
    requires AbortedBy(initially, deactivate, 3 * calls + 1)
    ensures Explains(initially, hal, deactivate, calls, GivenUp)
  {
  }

  lemma ReportIsExplained(initially: bool, hal: nat -> Answer, deactivate: nat -> bool, calls: nat)
    requires Tried(initially, hal, deactivate, calls) && calls > 0
    requires hal(calls - 1).error == Aborted ==> calls == RETRY_LIMIT
    ensures Explains(initially, hal, deactivate, calls, Report(hal(calls - 1)))
  {
  }

  /** The platform is called at all exactly if no abort is outstanding before the first loop test. */
  lemma PlatformIsCalledExactly(initially: bool, hal: nat -> Answer, deactivate: nat -> bool, calls: nat, outcome: Outcome)
    requires Explains(initially, hal, deactivate, calls, outcome)
    ensures calls > 0 <==> !AbortedBy(initially, deactivate, 1)
  {
    if calls > 0 && AbortedBy(initially, deactivate, 1) {
      AbortedByMonotone(initially, deactivate, 1, 3 * (calls - 1) + 1);
    }
  }

  /** What a run of the loop entered in state `before` reports, and the state at its report. */
  ghost predicate Leaves(before: DeepSleep, hal: nat -> Answer, deactivate: nat -> bool,
                         calls: nat, outcome: Outcome, after: DeepSleep) {
    && Explains(before.abortRequested, hal, deactivate, calls, outcome)
    && after.startedAt == before.startedAt
    && (after.delayJob ==> before.delayJob)
    && after.state ==
         if outcome.GivenUp? || deactivate(3 * calls) then NotStarted
         else if outcome.SleepFailed? then Failed
         else Completed
  }

  /** The loop, told from the answers and the deactivations alone. */
  lemma LoopIsExact(before: DeepSleep, hal: nat -> Answer, deactivate: nat -> bool,
                    calls: nat, outcome: Outcome, after: DeepSleep)
    requires Leaves(before, hal, deactivate, calls, outcome, after)
    ensures calls <= 5
    ensures forall i: nat :: i + 1 < calls ==> hal(i).error == Aborted
    ensures calls > 0 ==> !before.abortRequested && forall j: nat :: j <= 3 * calls - 2 ==> !deactivate(j)
    ensures outcome == GivenUp <==>
              && calls < 5 && (calls > 0 ==> hal(calls - 1).error == Aborted)
              && (before.abortRequested || exists j: nat :: j <= 3 * calls + 1 && deactivate(j))
    ensures outcome != GivenUp ==>
              && calls > 0
              && (hal(calls - 1).error == Aborted ==> calls == 5)
              && outcome == (if hal(calls - 1).error != NoError then SleepFailed(hal(calls - 1).error)
                             else if hal(calls - 1).userWakeup then UserWakeup
                             else TimerWakeup)
    ensures after.state == if outcome == GivenUp || deactivate(3 * calls) then NotStarted
                           else if hal(calls - 1).error == NoError then Completed
                           else Failed
  {
    AbortedByMeaning(before.abortRequested, deactivate, 3 * calls + 1);
    if calls > 0 {
      AbortedByMeaning(before.abortRequested, deactivate, 3 * (calls - 1) + 1);
    }
  }

  /** A key press and a failure wake the box up fully, the timer only to light sleep. */
  lemma WakeupFollowsAnswer(before: DeepSleep, hal: nat -> Answer, deactivate: nat -> bool,
                            calls: nat, outcome: Outcome, after: DeepSleep, bootToStandby: bool)
    requires Leaves(before, hal, deactivate, calls, outcome, after)
    ensures outcome == GivenUp ==> WakeupTarget(outcome, bootToStandby) == None
    ensures outcome != GivenUp ==>
              && calls > 0
              && WakeupTarget(outcome, bootToStandby) ==
                   if hal(calls - 1) == Answer(NoError, false) || bootToStandby then Some(StandbyLightSleep) else Some(On)
  {
    hide AbortedBy;
  }

  /**
    A wake-up that comes between the submission of a sleep and its latch does not keep the
    platform from sleeping: the latch forgets it, and for that it takes another one, at point 0
    or 1.
   */
  lemma EarlyAbortIsForgottenExactly(now: nat, delayJob: bool, hal: nat -> Answer, deactivate: nat -> bool,
                                     calls: nat, outcome: Outcome, after: DeepSleep)
    requires Leaves(DeepSleep(InProgress, Some(now), false, delayJob), hal, deactivate, calls, outcome, after)
    ensures calls > 0 <==> !deactivate(0) && !deactivate(1)
  {
    PlatformIsCalledExactly(false, hal, deactivate, calls, outcome);
  }

  class DeepSleepController {
    var deepSleepState: DeepSleepState
    var startTime: Option<nat>
    var abortRequested: bool
    var delayJob: bool
    var nwStandbyMode: bool
    var wakeupTimeoutSec: nat
    var delaySec: nat
    var wakeups: nat  // calls of the platform's wake-up

    function View(): DeepSleep
      reads this
    {
      DeepSleep(deepSleepState, startTime, abortRequested, delayJob)
    }

    constructor ()
      ensures View() == DeepSleep(NotStarted, None, false, false) && wakeups == 0
    {
      deepSleepState, startTime, abortRequested, delayJob := NotStarted, None, false, false;
      nwStandbyMode, wakeupTimeoutSec, delaySec, wakeups := false, 0, 0, 0;
    }

    predicate IsDeepSleepInProgress()
      reads this
    {
      deepSleepState == InProgress
    }

    /** Calls the platform's wake-up, and returns its answer, which changes nothing here. */
    method Deactivate(answer: Error) returns (errorCode: Error)
      modifies this`abortRequested, this`delayJob, this`deepSleepState, this`wakeups
      ensures View() == DeepSleep(NotStarted, old(startTime), true, false)
      ensures errorCode == answer && wakeups == old(wakeups) + 1
    {
      abortRequested := true;
      if delayJob {
        delayJob := false;
      }
      wakeups := wakeups + 1;
      errorCode := answer;
      deepSleepState := NotStarted;
    }

    /** At this point another thread may deactivate. */
    method Interleave(point: nat, deactivate: nat -> bool, ghost initially: bool)
      requires abortRequested <==> if point == 0 then initially else AbortedBy(initially, deactivate, point - 1)
      modifies this`abortRequested, this`delayJob, this`deepSleepState, this`wakeups
      ensures abortRequested <==> AbortedBy(initially, deactivate, point)
      ensures View() == if deactivate(point) then Deactivated(old(View())) else old(View())
    {
      if deactivate(point) {
        var answer: Error := *;
        var ignored := Deactivate(answer);
      }
    }

    /** Call number `n` of the platform, during which another thread may deactivate. */
    method SetDeepSleep(n: nat, hal: nat -> Answer, deactivate: nat -> bool, ghost initially: bool)
      returns (errorCode: Error, userWakeup: bool)
      requires abortRequested <==> AbortedBy(initially, deactivate, 3 * n + 1)
      modifies this`abortRequested, this`delayJob, this`deepSleepState, this`wakeups
      ensures Answer(errorCode, userWakeup) == hal(n)
      ensures abortRequested <==> AbortedBy(initially, deactivate, 3 * n + 2)
      ensures deepSleepState == if errorCode != NoError then Failed else Completed
      ensures startTime == old(startTime) && (delayJob ==> old(delayJob))
    {
      Interleave(3 * n + 2, deactivate, initially);
      errorCode, userWakeup := hal(n).error, hal(n).userWakeup;
      deepSleepState := if errorCode != NoError then Failed else Completed;
    }

    /** After the loop: nothing if it gave up, otherwise one of the three callbacks. */
    method ReportOutcome(giveUp: bool, answer: Answer, calls: nat, hal: nat -> Answer, deactivate: nat -> bool,
                         ghost initially: bool)
      returns (outcome: Outcome)
      requires giveUp ==> Explains(initially, hal, deactivate, calls, GivenUp)
      requires !giveUp ==>
                 && calls > 0 && answer == hal(calls - 1)
                 && Explains(initially, hal, deactivate, calls, Report(answer))
                 && deepSleepState == (if answer.error != NoError then Failed else Completed)
                 && (abortRequested <==> AbortedBy(initially, deactivate, 3 * calls - 1))
      modifies this`abortRequested, this`delayJob, this`deepSleepState, this`wakeups
      ensures Explains(initially, hal, deactivate, calls, outcome)
      ensures startTime == old(startTime) && (delayJob ==> old(delayJob))
      ensures deepSleepState ==
                if outcome.GivenUp? || deactivate(3 * calls) then NotStarted
                else if outcome.SleepFailed? then Failed
                else Completed
    {
      hide AbortedBy, Explains;
      if giveUp {
        deepSleepState := NotStarted;
        outcome := GivenUp;
        return;
      }
      Interleave(3 * calls, deactivate, initially);
      if answer.error != NoError {
        outcome := SleepFailed(answer.error);
      } else if answer.userWakeup {
        outcome := UserWakeup;
      } else {
        outcome := TimerWakeup;
      }
    }

    /** The retry loop. */
    method EnterDeepSleepNow(hal: nat -> Answer, deactivate: nat -> bool) returns (calls: nat, outcome: Outcome)
      modifies this`abortRequested, this`delayJob, this`deepSleepState, this`wakeups
      ensures Leaves(old(View()), hal, deactivate, calls, outcome, View())
    {
      hide AbortedBy, Tried, Explains;
      ghost var initially := abortRequested;
      calls := 0;
      NoTryYet(initially, hal, deactivate);
      Interleave(0, deactivate, initially);
      if abortRequested {
        AbortedByMonotone(initially, deactivate, 0, 1);
        GivingUpIsExplained(initially, hal, deactivate, 0);
        deepSleepState := NotStarted;
        outcome := GivenUp;
        return;
      }
      var errorCode := NoError;
      var failed := true;
      var retryCount := RETRY_LIMIT;
      var userWakeup := false;
      var giveUp := false;
      while retryCount != 0 && failed
        invariant Tried(initially, hal, deactivate, calls)
        invariant retryCount == RETRY_LIMIT - calls + (if failed then 0 else 1)
        invariant !giveUp && startTime == old(startTime) && (delayJob ==> old(delayJob))
        invariant calls > 0 ==> Answer(errorCode, userWakeup) == hal(calls - 1)
        invariant failed ==> retryCount > 0 && (calls > 0 ==> errorCode == Aborted)
        invariant !failed ==> calls > 0 && errorCode == NoError && deepSleepState == Completed
        invariant abortRequested <==> AbortedBy(initially, deactivate, if failed then 3 * calls else 3 * calls - 1)
        decreases retryCount, failed
      {
        Interleave(3 * calls + 1, deactivate, initially);
        if abortRequested {
          GivingUpIsExplained(initially, hal, deactivate, calls);
          giveUp := true;
          break;
        }
        OneMoreTry(initially, hal, deactivate, calls);
        errorCode, userWakeup := SetDeepSleep(calls, hal, deactivate, initially);
        calls := calls + 1;
        failed := errorCode != NoError;
        if failed {
          retryCount := retryCount - 1;
          if errorCode == Aborted && retryCount > 0 {
            Interleave(3 * calls, deactivate, initially);
            if abortRequested {
              AbortedByMonotone(initially, deactivate, 3 * calls, 3 * calls + 1);
              GivingUpIsExplained(initially, hal, deactivate, calls);
              giveUp := true;
              break;
            }
          } else {
            break;
          }
        }
      }
      if !giveUp {
        ReportIsExplained(initially, hal, deactivate, calls);
      }
      outcome := ReportOutcome(giveUp, Answer(errorCode, userWakeup), calls, hal, deactivate, initially);
    }

    /** The delay job fires; an activation that was deactivated in time has no job left. */
    method EnterDeepSleepDelayed(hal: nat -> Answer, deactivate: nat -> bool) returns (calls: nat, outcome: Outcome)
      requires delayJob
      modifies this`abortRequested, this`delayJob, this`deepSleepState, this`wakeups
      ensures Leaves(old(View()).(delayJob := false), hal, deactivate, calls, outcome, View())
    {
      delayJob := false;
      calls, outcome := EnterDeepSleepNow(hal, deactivate);
    }

    /**
      Runs as a worker-pool job.  A delay override of zero means that there is none.  `None` is
      returned when the activation is refused or when entry is left to the delay job.
     */
    method PerformActivate(now: nat, timeOut: nat, nwStandby: bool, delayOverride: nat, wakeupOverride: nat,
                           hal: nat -> Answer, deactivate: nat -> bool)
      returns (calls: nat, outcome: Option<Outcome>)
      modifies this
      ensures outcome.None? <==> old(IsDeepSleepInProgress()) || delayOverride != 0
      ensures outcome.None? ==> calls == 0
      ensures old(IsDeepSleepInProgress()) ==> View() == old(View())
      ensures !old(IsDeepSleepInProgress()) && delayOverride != 0 ==>
                View() == DeepSleep(InProgress, Some(now), false, true)
      ensures !old(IsDeepSleepInProgress()) && delayOverride == 0 ==>
                && Leaves(DeepSleep(InProgress, Some(now), false, old(delayJob)), hal, deactivate, calls, outcome.value, View())
                && (calls > 0 <==> !deactivate(0) && !deactivate(1))
      ensures !old(IsDeepSleepInProgress()) ==>
                && delaySec == delayOverride && nwStandbyMode == nwStandby
                && wakeupTimeoutSec == if wakeupOverride != 0 then wakeupOverride else timeOut
    {
      hide Explains;
      calls, outcome := 0, None;
      if !IsDeepSleepInProgress() {
        abortRequested := false;
        deepSleepState := InProgress;
        startTime := Some(now);
        nwStandbyMode := nwStandby;
        wakeupTimeoutSec := timeOut;
        delaySec := 0;
        if delayOverride != 0 {
          delaySec := delayOverride;
        }
        if wakeupOverride != 0 {
          wakeupTimeoutSec := wakeupOverride;
        }
        if delaySec != 0 {
          delayJob := true;
        } else {
          var o;
          calls, o := EnterDeepSleepNow(hal, deactivate);
          PlatformIsCalledExactly(false, hal, deactivate, calls, o);
          outcome := Some(o);
        }
      }
    }
  }
}
