/**
  The reboot zone and the deep-sleep zone: hysteresis with a grace timer, specified over the
  whole history of temperature samples.  Times are wall-clock seconds and may go backwards.
 */
module ThermalZones {

  datatype Thresholds = Thresholds(critical: int, concern: int, safe: int)

  /** A temperature, when it was read, and the grace interval in force; zero disables the check. */
  datatype Sample = Sample(temperature: int, time: int, grace: int)

  datatype Zone = Zone(on: bool, monitorTime: int)

  function ZoneStep(th: Thresholds, z: Zone, s: Sample): Zone {
    if s.grace == 0 then z
    else if s.temperature >= th.critical then z
    else if !z.on && s.temperature >= th.concern then Zone(true, s.time)
    else if z.on && s.temperature < th.safe then z.(on := false)
    else z
  }

  function ZoneRun(th: Thresholds, history: seq<Sample>): Zone {
    if history == [] then Zone(false, 0)
    else ZoneStep(th, ZoneRun(th, history[..|history| - 1]), history[|history| - 1])
  }

  /** How often the action is taken for a sample, given the zone it leaves behind. */
  function ActionsTaken(th: Thresholds, after: Zone, s: Sample): nat {
    if s.grace == 0 then 0
    else
      (if s.temperature >= th.critical then 1 else 0)
      + (if after.on && s.time - after.monitorTime >= s.grace then 1 else 0)
  }

  predicate Counts(s: Sample) {
    s.grace != 0
  }

  predicate InBand(th: Thresholds, s: Sample) {
    Counts(s) && th.concern <= s.temperature < th.critical
  }

  /** Sample `i` is in the band between concern and critical, and no later one was below safe. */
  ghost predicate Enters(th: Thresholds, history: seq<Sample>, i: int) {
    && 0 <= i < |history|
    && InBand(th, history[i])
    && forall j :: i < j < |history| && Counts(history[j]) ==> history[j].temperature >= th.safe
  }

  ghost predicate EntersFirst(th: Thresholds, history: seq<Sample>, i: int) {
    Enters(th, history, i) && forall k :: 0 <= k < i ==> !Enters(th, history, k)
  }

  /** The zone is on exactly when some sample entered it, and is timed from the first that did. */
  ghost predicate Refines(th: Thresholds, history: seq<Sample>) {
    var z := ZoneRun(th, history);
    && (z.on <==> exists i :: Enters(th, history, i))
    && (z.on ==> exists i :: EntersFirst(th, history, i) && z.monitorTime == history[i].time)
  }

  lemma EntersExtends(th: Thresholds, history: seq<Sample>, s: Sample, i: int)
    requires 0 <= i < |history|
    ensures Enters(th, history + [s], i) <==>
            Enters(th, history, i) && (Counts(s) ==> s.temperature >= th.safe)
  {
    var longer := history + [s];
    assert longer[|history|] == s;
    assert forall j :: 0 <= j < |history| ==> longer[j] == history[j];
  }

  lemma {:induction false} ZoneRefinesHistory(th: Thresholds, history: seq<Sample>)
    requires th.safe <= th.concern || th.critical <= th.concern
    ensures Refines(th, history)
  {
    if history != [] {
      var n := |history| - 1;
      var (before, s) := (history[..n], history[n]);
      assert history == before + [s];
      ZoneRefinesHistory(th, before);
      ZoneRefinesStep(th, before, s);
    }
  }

  lemma ZoneRefinesStep(th: Thresholds, before: seq<Sample>, s: Sample)
    requires th.safe <= th.concern || th.critical <= th.concern
    requires Refines(th, before)
    ensures Refines(th, before + [s])
  {
    var history := before + [s];
    var n := |before|;
    assert history[..n] == before && history[n] == s;
    var (z, z') := (ZoneRun(th, before), ZoneRun(th, history));
    forall i | 0 <= i < n
      ensures Enters(th, history, i) <==> Enters(th, before, i) && (Counts(s) ==> s.temperature >= th.safe)
    {
      EntersExtends(th, before, s, i);
    }
    assert Enters(th, history, n) <==> InBand(th, s);
    if z.on {
      var i :| EntersFirst(th, before, i) && z.monitorTime == before[i].time;
      if z'.on {
        assert EntersFirst(th, history, i);
      } else {
        assert !(th.concern <= s.temperature < th.critical);
      }
    } else {
      assert forall i :: 0 <= i < n ==> !Enters(th, before, i);
      if z'.on {
        assert EntersFirst(th, history, n);
      }
    }
  }

  /** With the safe threshold above the concern threshold, two samples at concern tell the two apart. */
  lemma InvertedThresholdsFail(th: Thresholds)
    requires th.concern < th.safe && th.concern < th.critical
    ensures !Refines(th, [Sample(th.concern, 0, 1), Sample(th.concern, 0, 1)])
  {
    var s := Sample(th.concern, 0, 1);
    assert [s, s][..1] == [s] && [s][..0] == [];
    assert ZoneRun(th, [s]) == Zone(true, 0);
    assert !ZoneRun(th, [s, s]).on;
    assert Enters(th, [s, s], 1);
  }

  /** The thresholds for which the zone follows the history, whatever is sampled. */
  lemma ZoneRefinementExactly(th: Thresholds)
    ensures (forall history :: Refines(th, history)) <==> th.safe <= th.concern || th.critical <= th.concern
  {
    if th.safe <= th.concern || th.critical <= th.concern {
      forall history
        ensures Refines(th, history)
      {
        ZoneRefinesHistory(th, history);
      }
    } else {
      InvertedThresholdsFail(th);
    }
  }

  /**
    The action is taken at a sample exactly when it is at or above critical, or the zone has
    lasted at least the grace interval since the first sample that entered it; for both reasons,
    it is taken twice, and with a grace interval of zero not at all.
   */
  lemma ActionExactly(th: Thresholds, before: seq<Sample>, s: Sample)
    requires th.safe <= th.concern || th.critical <= th.concern
    ensures var history := before + [s];
            var critical := s.temperature >= th.critical;
            var overdue := exists i :: EntersFirst(th, history, i) && s.time - history[i].time >= s.grace;
            ActionsTaken(th, ZoneRun(th, history), s) ==
              if s.grace == 0 then 0 else (if critical then 1 else 0) + (if overdue then 1 else 0)
  {
    var history := before + [s];
    ZoneRefinesHistory(th, history);
    var z := ZoneRun(th, history);
    if z.on {
      var i :| EntersFirst(th, history, i) && z.monitorTime == history[i].time;
      forall k | EntersFirst(th, history, k)
        ensures k == i
      {
      }
    }
  }

  /** A sample in the band, and a critical one when the grace interval is over: the action is taken twice. */
  lemma ActionTakenTwice()
    ensures var (th, s) := (Thresholds(100, 80, 60), Sample(100, 10, 10));
            ActionsTaken(th, ZoneRun(th, [Sample(80, 0, 10), s]), s) == 2
  {
    var (th, first, s) := (Thresholds(100, 80, 60), Sample(80, 0, 10), Sample(100, 10, 10));
    assert [first, s][..1] == [first] && [first][..0] == [];
    assert ZoneRun(th, [first]) == Zone(true, 0);
  }
}
