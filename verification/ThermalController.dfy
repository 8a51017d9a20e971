/**
  The thermal controller: one round of its polling thread, which feeds a temperature sample to
  the two zones and to the declocking machine.
 */
module ThermalControl {
  import opened PowerTypes
  import opened ThermalZones
  import opened ThermalDeclock

  datatype ThermalLevel = Normal | High | Critical | UnknownLevel

  /** What one round reports: a change of level, requests to sleep, and reboots. */
  datatype Round = Round(levelChange: Option<(ThermalLevel, ThermalLevel)>, sleeps: nat, reboots: nat)

  class ThermalController {
    const rebootThreshold: Thresholds
    const deepsleepThreshold: Thresholds
    const declockThreshold: Thresholds
    const speeds: Speeds
    const startSpeed: nat
    const declockGrace: int
    var rebootGrace: int
    var deepsleepGrace: int
    var rebootZone: bool
    var rebootMonitorTime: int
    var deepSleepZone: bool
    var deepSleepMonitorTime: int
    var curCpuSpeed: nat
    var declockMonitorTime: int
    var curThermalLevel: ThermalLevel
    var curThermalValue: int
    ghost var rebootHistory: seq<Sample>
    ghost var sleepHistory: seq<Sample>
    ghost var declockHistory: seq<Sample>

    /** The state that is updated in place is what the histories give. */
    ghost predicate Valid()
      reads this
    {
      && Zone(rebootZone, rebootMonitorTime) == ZoneRun(rebootThreshold, rebootHistory)
      && Zone(deepSleepZone, deepSleepMonitorTime) == ZoneRun(deepsleepThreshold, sleepHistory)
      && Declock(curCpuSpeed, declockMonitorTime) == DeclockFrom(startSpeed, declockThreshold, speeds, declockHistory)
      && forall s :: s in declockHistory ==> s.grace == declockGrace
    }

    /**
      Speeds that are configured (not zero) are kept, the others are discovered.  Declocking is
      disabled if one of the three is still not known.
     */
    constructor (reboot: Thresholds, deepsleep: Thresholds, declock: Thresholds, configured: Speeds,
                 grace: int, declockGrace: int, frequencies: Option<seq<nat>>)
      ensures Valid() && rebootHistory == sleepHistory == declockHistory == []
      ensures (rebootThreshold, deepsleepThreshold, declockThreshold) == (reboot, deepsleep, declock)
      ensures rebootGrace == deepsleepGrace == grace && curThermalLevel == Normal && curThermalValue == 0
      ensures speeds == if declockGrace > 0 && frequencies.Some? && frequencies.value != [] then
                          var found := Selected(frequencies.value);
                          Speeds(if configured.normal != 0 then configured.normal else found.normal,
                                 if configured.scaled != 0 then configured.scaled else found.scaled,
                                 if configured.minimal != 0 then configured.minimal else found.minimal)
                        else configured
      ensures curCpuSpeed == startSpeed == (if declockGrace > 0 then speeds.normal else 0)
      ensures this.declockGrace == if declockGrace <= 0 || 0 !in {speeds.normal, speeds.scaled, speeds.minimal}
                                   then declockGrace else 0
    {
      rebootThreshold, deepsleepThreshold, declockThreshold := reboot, deepsleep, declock;
      rebootGrace, deepsleepGrace := grace, grace;
      rebootZone, rebootMonitorTime, deepSleepZone, deepSleepMonitorTime := false, 0, false, 0;
      curThermalLevel, curThermalValue := Normal, 0;
      rebootHistory, sleepHistory, declockHistory := [], [], [];
      var found := configured;
      var g := declockGrace;
      if declockGrace > 0 {
        var status;
        status, found := DetermineClockSpeeds(frequencies, found);
        if found.normal == 0 || found.scaled == 0 || found.minimal == 0 {
          g := 0;
        }
      }
      speeds, this.declockGrace := found, g;
      startSpeed := if declockGrace > 0 then found.normal else 0;
      curCpuSpeed, declockMonitorTime := startSpeed, 0;
    }

    /** Sets the grace interval of both zones, not that of declocking. */
    method SetOvertempGraceInterval(graceInterval: int) returns (status: Error)
      requires Valid()
      modifies this`rebootGrace, this`deepsleepGrace
      ensures Valid()
      ensures status == if graceInterval >= 0 then NoError else InvalidParameter
      ensures (rebootGrace, deepsleepGrace) ==
              if status.NoError? then (graceInterval, graceInterval) else (old(rebootGrace), old(deepsleepGrace))
    {
      if graceInterval >= 0 {
        rebootGrace := graceInterval;
        deepsleepGrace := graceInterval;
        status := NoError;
      } else {
        status := InvalidParameter;
      }
    }

    method RebootIfNeeded(now: int) returns (reboots: nat)
      requires Valid()
      modifies this`rebootZone, this`rebootMonitorTime, this`rebootHistory
      ensures Valid()
      ensures var s := Sample(curThermalValue, now, rebootGrace);
              && rebootHistory == old(rebootHistory) + [s]
              && reboots == ActionsTaken(rebootThreshold, ZoneRun(rebootThreshold, rebootHistory), s)
    {
      reboots := 0;
      rebootHistory := rebootHistory + [Sample(curThermalValue, now, rebootGrace)];
      assert rebootHistory[..|rebootHistory| - 1] == old(rebootHistory);
      if rebootGrace == 0 {
        return;
      }
      if curThermalValue >= rebootThreshold.critical {
        reboots := reboots + 1;
      } else if !rebootZone && curThermalValue >= rebootThreshold.concern {
        rebootMonitorTime := now;
        rebootZone := true;
      } else if rebootZone && curThermalValue < rebootThreshold.safe {
        rebootZone := false;
      }
      if rebootZone {
        var difftime := now - rebootMonitorTime;
        if difftime >= rebootGrace {
          reboots := reboots + 1;
        }
      }
    }

    method DeepSleepIfNeeded(now: int) returns (sleeps: nat)
      requires Valid()
      modifies this`deepSleepZone, this`deepSleepMonitorTime, this`sleepHistory
      ensures Valid()
      ensures var s := Sample(curThermalValue, now, deepsleepGrace);
              && sleepHistory == old(sleepHistory) + [s]
              && sleeps == ActionsTaken(deepsleepThreshold, ZoneRun(deepsleepThreshold, sleepHistory), s)
    {
      sleeps := 0;
      sleepHistory := sleepHistory + [Sample(curThermalValue, now, deepsleepGrace)];
      assert sleepHistory[..|sleepHistory| - 1] == old(sleepHistory);
      if deepsleepGrace == 0 {
        return;
      }
      if curThermalValue >= deepsleepThreshold.critical {
        sleeps := sleeps + 1;
      } else if !deepSleepZone && curThermalValue >= deepsleepThreshold.concern {
        deepSleepMonitorTime := now;
        deepSleepZone := true;
      } else if deepSleepZone && curThermalValue < deepsleepThreshold.safe {
        deepSleepZone := false;
      }
      if deepSleepZone {
        var difftime := now - deepSleepMonitorTime;
        if difftime >= deepsleepGrace {
          sleeps := sleeps + 1;
        }
      }
    }

    method DeclockIfNeeded(now: int)
      requires Valid()
      modifies this`curCpuSpeed, this`declockMonitorTime, this`declockHistory
      ensures Valid()
      ensures declockHistory == old(declockHistory) + [Sample(curThermalValue, now, declockGrace)]
    {
      declockHistory := declockHistory + [Sample(curThermalValue, now, declockGrace)];
      assert declockHistory[..|declockHistory| - 1] == old(declockHistory);
      if declockGrace == 0 {
        return;
      }
      if curThermalValue >= declockThreshold.critical {
        if curCpuSpeed != speeds.minimal {
          curCpuSpeed := speeds.minimal;
        }
        declockMonitorTime := now;
      } else if curThermalValue >= declockThreshold.concern {
        if curCpuSpeed == speeds.normal {
          curCpuSpeed := speeds.scaled;
        }
        declockMonitorTime := now;
      } else if curThermalValue > declockThreshold.safe {
        if curCpuSpeed == speeds.minimal {
          var difftime := now - declockMonitorTime;
          if difftime >= declockGrace {
            curCpuSpeed := speeds.scaled;
            declockMonitorTime := now;
          }
        } else {
          declockMonitorTime := now;
        }
      } else {
        if curCpuSpeed != speeds.normal {
          var difftime := now - declockMonitorTime;
          if difftime >= declockGrace {
            curCpuSpeed := speeds.normal;
          }
        }
      }
    }

    /**
      One round of the polling loop.  Nothing is sampled in deep sleep, or when the platform
      cannot tell the temperature.
     */
    method Poll(power: Option<PowerState>, reading: Option<(ThermalLevel, int)>, now: int) returns (round: Round)
      requires Valid()
      modifies this
      ensures Valid() && rebootGrace == old(rebootGrace) && deepsleepGrace == old(deepsleepGrace)
      ensures var sampled := power != Some(StandbyDeepSleep) && reading.Some?;
              if !sampled then
                && round == Round(None, 0, 0)
                && (rebootHistory, sleepHistory, declockHistory) == old((rebootHistory, sleepHistory, declockHistory))
              else
                var (level, t) := reading.value;
                var (r, s) := (Sample(t, now, rebootGrace), Sample(t, now, deepsleepGrace));
                && curThermalLevel == level && curThermalValue == t
                && rebootHistory == old(rebootHistory) + [r]
                && sleepHistory == old(sleepHistory) + [s]
                && declockHistory == old(declockHistory) + [Sample(t, now, declockGrace)]
                && round == Round(if level == old(curThermalLevel) then None else Some((old(curThermalLevel), level)),
                                  ActionsTaken(deepsleepThreshold, ZoneRun(deepsleepThreshold, sleepHistory), s),
                                  ActionsTaken(rebootThreshold, ZoneRun(rebootThreshold, rebootHistory), r))
    {
      hide ZoneRun, DeclockFrom, ActionsTaken;
      round := Round(None, 0, 0);
      if power == Some(StandbyDeepSleep) || reading.None? {
        return;
      }
      var (level, t) := reading.value;
      if curThermalLevel != level {
        round := round.(levelChange := Some((curThermalLevel, level)));
        curThermalLevel := level;
      }
      curThermalValue := t;
      var sleeps := DeepSleepIfNeeded(now);
      var reboots := RebootIfNeeded(now);
      DeclockIfNeeded(now);
      round := round.(sleeps := sleeps, reboots := reboots);
    }
  }
}
