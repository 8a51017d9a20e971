/**
  Declocking: three CPU speeds, driven by the history of temperature samples, and the selection
  of the three speeds from the platform's list of frequencies.
 */
module ThermalDeclock {
  import opened PowerTypes
  import opened ThermalZones

  datatype Speeds = Speeds(normal: nat, scaled: nat, minimal: nat)

  datatype Declock = Declock(speed: nat, monitorTime: int)

  /** The new state, and the platform's answer does not matter: a failing change of speed is only logged. */
  function DeclockStep(th: Thresholds, v: Speeds, d: Declock, s: Sample): Declock {
    if s.grace == 0 then d
    else if s.temperature >= th.critical then
      Declock(v.minimal, s.time)
    else if s.temperature >= th.concern then
      Declock(if d.speed == v.normal then v.scaled else d.speed, s.time)
    else if s.temperature > th.safe then
      if d.speed == v.minimal then
        if s.time - d.monitorTime >= s.grace then Declock(v.scaled, s.time) else d
      else
        d.(monitorTime := s.time)
    else if d.speed != v.normal && s.time - d.monitorTime >= s.grace then
      d.(speed := v.normal)
    else
      d
  }

  function DeclockFrom(start: nat, th: Thresholds, v: Speeds, history: seq<Sample>): Declock {
    if history == [] then Declock(start, 0)
    else DeclockStep(th, v, DeclockFrom(start, th, v, history[..|history| - 1]), history[|history| - 1])
  }

  /** Where declocking is enabled it starts at normal speed. */
  function DeclockRun(th: Thresholds, v: Speeds, history: seq<Sample>): Declock {
    DeclockFrom(v.normal, th, v, history)
  }

  /** Sample `i` is the latest one hotter than `limit`. */
  ghost predicate LatestAbove(history: seq<Sample>, limit: int, i: int) {
    && 0 <= i < |history| && history[i].temperature > limit
    && forall j :: i < j < |history| ==> history[j].temperature <= limit
  }

  predicate Ordered(th: Thresholds) {
    th.safe < th.concern < th.critical
  }

  predicate Distinct(v: Speeds) {
    v.normal != v.scaled && v.scaled != v.minimal && v.normal != v.minimal
  }

  predicate AlwaysEnabled(history: seq<Sample>, grace: int) {
    grace != 0 && forall s :: s in history ==> s.grace == grace
  }

  /** What the monitor time means: it is that of the latest sample that forbids the next speed-up. */
  ghost predicate Timed(th: Thresholds, v: Speeds, history: seq<Sample>) {
    var d := DeclockRun(th, v, history);
    && d.speed in {v.normal, v.scaled, v.minimal}
    && (d.speed == v.scaled ==> exists i :: LatestAbove(history, th.safe, i) && d.monitorTime == history[i].time)
    && (d.speed == v.minimal ==> exists i :: LatestAbove(history, th.concern - 1, i) && d.monitorTime == history[i].time)
  }

  lemma LatestAboveExtends(history: seq<Sample>, s: Sample, limit: int)
    ensures s.temperature > limit ==> LatestAbove(history + [s], limit, |history|)
    ensures forall i :: s.temperature <= limit && LatestAbove(history, limit, i) ==> LatestAbove(history + [s], limit, i)
  {
  }

  lemma {:induction false} MonitorTimeMeaning(th: Thresholds, v: Speeds, grace: int, history: seq<Sample>)
    requires Ordered(th) && Distinct(v) && AlwaysEnabled(history, grace)
    ensures Timed(th, v, history)
  {
    if history != [] {
      var n := |history| - 1;
      var (before, s) := (history[..n], history[n]);
      assert history == before + [s] && s in history;
      MonitorTimeMeaning(th, v, grace, before);
      LatestAboveExtends(before, s, th.safe);
      LatestAboveExtends(before, s, th.concern - 1);
      var d := DeclockRun(th, v, before);
      if d.speed == v.scaled {
        var i :| LatestAbove(before, th.safe, i) && d.monitorTime == before[i].time;
        assert history[i] == before[i];
      } else if d.speed == v.minimal {
        var i :| LatestAbove(before, th.concern - 1, i) && d.monitorTime == before[i].time;
        assert history[i] == before[i];
      }
    }
  }

  /** The latest sample hotter than `limit` is at least the grace interval old. */
  ghost predicate CooledFor(history: seq<Sample>, limit: int, now: int, grace: int) {
    exists i :: LatestAbove(history, limit, i) && now - history[i].time >= grace
  }

  /**
    The speed after any further sample, told from the speed before it and the history alone.  It
    slows down at once, to minimal if critical and off normal if at or above concern.  Otherwise
    it speeds up as soon as it may: from scaled to normal when the sample is at or below safe and
    the latest one above safe is old enough; from minimal, when the latest one at or above concern
    is old enough, to normal if the sample is at or below safe and to scaled if not.
   */
  lemma SpeedExactly(th: Thresholds, v: Speeds, grace: int, before: seq<Sample>, s: Sample)
    requires Ordered(th) && Distinct(v) && AlwaysEnabled(before + [s], grace)
    ensures var (speed, speed') := (DeclockRun(th, v, before).speed, DeclockRun(th, v, before + [s]).speed);
            && speed in {v.normal, v.scaled, v.minimal}
            && speed' ==
                 if s.temperature >= th.critical then v.minimal
                 else if s.temperature >= th.concern then (if speed == v.normal then v.scaled else speed)
                 else if speed == v.scaled then
                   (if s.temperature <= th.safe && CooledFor(before, th.safe, s.time, grace) then v.normal else v.scaled)
                 else if speed == v.minimal then
                   (if !CooledFor(before, th.concern - 1, s.time, grace) then v.minimal
                    else if s.temperature <= th.safe then v.normal
                    else v.scaled)
                 else v.normal
  {
    assert (before + [s])[..|before|] == before && s in before + [s];
    assert forall x :: x in before ==> x in before + [s];
    MonitorTimeMeaning(th, v, grace, before);
    var d := DeclockRun(th, v, before);
    if d.speed == v.scaled {
      CooledForMonitorTime(before, th.safe, d.monitorTime, s.time, grace);
    } else if d.speed == v.minimal {
      CooledForMonitorTime(before, th.concern - 1, d.monitorTime, s.time, grace);
    }
  }

  lemma CooledForMonitorTime(history: seq<Sample>, limit: int, monitorTime: int, now: int, grace: int)
    requires exists i :: LatestAbove(history, limit, i) && monitorTime == history[i].time
    ensures CooledFor(history, limit, now, grace) <==> now - monitorTime >= grace
  {
    var i :| LatestAbove(history, limit, i) && monitorTime == history[i].time;
    forall k | LatestAbove(history, limit, k)
      ensures k == i
    {
    }
  }

  /** Declocking starts at normal speed, and a sample with no grace interval in force changes nothing. */
  lemma SpeedStartsNormal(th: Thresholds, v: Speeds, before: seq<Sample>, s: Sample)
    ensures DeclockRun(th, v, []).speed == v.normal
    ensures s.grace == 0 ==> DeclockRun(th, v, before + [s]) == DeclockRun(th, v, before)
  {
    assert (before + [s])[..|before|] == before;
  }

  /**
    When a sample makes the CPU faster: from minimal, the latest sample at or above concern is at
    least the grace interval old, and this one is cooler than that; from scaled, the same is true
    of the latest sample above safe.
   */
  lemma SpeedUpIsEarned(th: Thresholds, v: Speeds, grace: int, before: seq<Sample>, s: Sample)
    requires Ordered(th) && Distinct(v) && AlwaysEnabled(before + [s], grace)
    ensures var (d, d') := (DeclockRun(th, v, before), DeclockRun(th, v, before + [s]));
            && (d.speed == v.minimal && d'.speed != v.minimal ==>
                  && s.temperature < th.concern
                  && exists i :: LatestAbove(before, th.concern - 1, i) && s.time - before[i].time >= grace)
            && (d.speed == v.scaled && d'.speed == v.normal ==>
                  && s.temperature <= th.safe
                  && exists i :: LatestAbove(before, th.safe, i) && s.time - before[i].time >= grace)
  {
    assert (before + [s])[..|before|] == before && s in before + [s];
    assert forall x :: x in before ==> x in before + [s];
    MonitorTimeMeaning(th, v, grace, before);
  }

  /** If the clock does not go backwards, no speed-up comes sooner than the grace interval after any hot sample. */
  lemma NoSpeedUpWhileHot(th: Thresholds, v: Speeds, grace: int, before: seq<Sample>, s: Sample, k: nat)
    requires Ordered(th) && Distinct(v) && AlwaysEnabled(before + [s], grace)
    requires forall i, j :: 0 <= i < j < |before| ==> before[i].time <= before[j].time
    requires k < |before| && before[k].temperature >= th.concern
    requires var (d, d') := (DeclockRun(th, v, before), DeclockRun(th, v, before + [s]));
             || (d.speed == v.minimal && d'.speed != v.minimal)
             || (d.speed == v.scaled && d'.speed == v.normal)
    ensures s.time - before[k].time >= grace
  {
    hide DeclockRun, AlwaysEnabled;
    SpeedUpIsEarned(th, v, grace, before, s);
    var d := DeclockRun(th, v, before);
    if d.speed == v.minimal {
      var i :| LatestAbove(before, th.concern - 1, i) && s.time - before[i].time >= grace;
      assert k <= i;
    } else {
      var i :| LatestAbove(before, th.safe, i) && s.time - before[i].time >= grace;
      assert k <= i;
    }
  }

  /** A critical sample leaves the CPU at its slowest, one at or above concern not at its fastest. */
  lemma HotSamplesSlowDown(th: Thresholds, v: Speeds, grace: int, before: seq<Sample>, s: Sample)
    requires Ordered(th) && Distinct(v) && AlwaysEnabled(before + [s], grace)
    ensures s.temperature >= th.critical ==> DeclockRun(th, v, before + [s]).speed == v.minimal
    ensures s.temperature >= th.concern ==> DeclockRun(th, v, before + [s]).speed != v.normal
  {
    assert (before + [s])[..|before|] == before && s in before + [s];
  }

  // ----- Where the speeds come from

  const MAX_FREQUENCIES: nat := 32

  function Inserted(x: nat, sorted: seq<nat>): seq<nat> {
    if sorted == [] || x <= sorted[0] then [x] + sorted else [sorted[0]] + Inserted(x, sorted[1..])
  }

  /** The library's sort. */
  function Sorted(s: seq<nat>): seq<nat> {
    if s == [] then [] else Inserted(s[0], Sorted(s[1..]))
  }

  predicate Ascending(s: seq<nat>) {
    forall i, j :: 0 <= i < j < |s| ==> s[i] <= s[j]
  }

  lemma {:induction false} InsertedPermutes(x: nat, s: seq<nat>)
    ensures multiset(Inserted(x, s)) == multiset(s) + multiset{x}
  {
    if s != [] && x > s[0] {
      InsertedPermutes(x, s[1..]);
      assert s == [s[0]] + s[1..];
    }
  }

  lemma {:induction false} InsertedIsAscending(x: nat, s: seq<nat>)
    requires Ascending(s)
    ensures Ascending(Inserted(x, s))
  {
    if s != [] && x > s[0] {
      var t := Inserted(x, s[1..]);
      InsertedIsAscending(x, s[1..]);
      InsertedPermutes(x, s[1..]);
      forall k | 0 <= k < |t|
        ensures s[0] <= t[k]
      {
        assert t[k] in multiset(t);
      }
    }
  }

  lemma {:induction false} SortedIsAscending(s: seq<nat>)
    ensures Ascending(Sorted(s)) && multiset(Sorted(s)) == multiset(s) && |Sorted(s)| == |s|
  {
    if s != [] {
      SortedIsAscending(s[1..]);
      InsertedIsAscending(s[0], Sorted(s[1..]));
      InsertedPermutes(s[0], Sorted(s[1..]));
      assert s == [s[0]] + s[1..];
    }
    assert |multiset(Sorted(s))| == |multiset(s)|;
  }

  /** The slowest, the middle and the fastest of the frequencies that fit into the list. */
  function Selected(available: seq<nat>): Speeds
    requires available != []
  {
    var list := if |available| > MAX_FREQUENCIES then available[..MAX_FREQUENCIES] else available;
    SortedIsAscending(list);
    var f := Sorted(list);
    Speeds(f[|f| - 1], f[|f| / 2], f[0])
  }

  /** How many elements of a list are below, or not above, a value. */
  function Below(s: seq<nat>, x: nat): nat {
    if s == [] then 0 else (if s[0] < x then 1 else 0) + Below(s[1..], x)
  }

  function UpTo(s: seq<nat>, x: nat): nat {
    if s == [] then 0 else (if s[0] <= x then 1 else 0) + UpTo(s[1..], x)
  }

  lemma {:induction false} InsertedCounts(y: nat, s: seq<nat>, x: nat)
    ensures Below(Inserted(y, s), x) == Below([y], x) + Below(s, x)
    ensures UpTo(Inserted(y, s), x) == UpTo([y], x) + UpTo(s, x)
  {
    var t := Inserted(y, s);
    if s == [] || y <= s[0] {
      assert t[1..] == s;
    } else {
      assert t[1..] == Inserted(y, s[1..]);
      InsertedCounts(y, s[1..], x);
    }
  }

  lemma {:induction false} SortedCounts(s: seq<nat>, x: nat)
    ensures Below(Sorted(s), x) == Below(s, x) && UpTo(Sorted(s), x) == UpTo(s, x)
  {
    if s != [] {
      SortedCounts(s[1..], x);
      InsertedCounts(s[0], Sorted(s[1..]), x);
    }
  }

  /** In an ascending list, at most the elements before position `k` are below the one there. */
  lemma {:induction false} RankInAscending(f: seq<nat>, x: nat, k: nat)
    requires Ascending(f) && k < |f| && f[k] == x
    ensures Below(f, x) <= k < UpTo(f, x)
  {
    if k == 0 {
      NoneBelow(f, x);
    } else {
      RankInAscending(f[1..], x, k - 1);
    }
  }

  lemma {:induction false} NoneBelow(f: seq<nat>, x: nat)
    requires forall i :: 0 <= i < |f| ==> x <= f[i]
    ensures Below(f, x) == 0
  {
    if f != [] {
      NoneBelow(f[1..], x);
    }
  }

  /**
    The three speeds are frequencies among the first 32 of the list: the lowest, the highest, and
    one with at most half of them below it and more than half not above it.
   */
  lemma SelectedExactly(available: seq<nat>)
    requires available != []
    ensures var (v, list) := (Selected(available), if |available| > 32 then available[..32] else available);
            && v.minimal in list && v.scaled in list && v.normal in list
            && (forall x :: x in list ==> v.minimal <= x <= v.normal)
            && Below(list, v.scaled) <= |list| / 2 < UpTo(list, v.scaled)
  {
    var list := if |available| > 32 then available[..32] else available;
    SortedIsAscending(list);
    SortedKeepsElements(list);
    var f := Sorted(list);
    assert Selected(available) == Speeds(f[|f| - 1], f[|f| / 2], f[0]);
    hide Selected, Sorted, Below, UpTo;
    SortedCounts(list, f[|f| / 2]);
    RanksExactly(list, f);
  }

  lemma RanksExactly(list: seq<nat>, f: seq<nat>)
    requires f != [] && |f| == |list| && Ascending(f) && forall x :: x in f <==> x in list
    requires Below(f, f[|f| / 2]) == Below(list, f[|f| / 2]) && UpTo(f, f[|f| / 2]) == UpTo(list, f[|f| / 2])
    ensures f[0] in list && f[|f| / 2] in list && f[|f| - 1] in list
    ensures forall x :: x in list ==> f[0] <= x <= f[|f| - 1]
    ensures Below(list, f[|f| / 2]) <= |list| / 2 < UpTo(list, f[|f| / 2])
  {
    hide Below, UpTo;
    RankInAscending(f, f[|f| / 2], |f| / 2);
    assert f[0] in f && f[|f| / 2] in f && f[|f| - 1] in f;
    forall x | x in list
      ensures f[0] <= x <= f[|f| - 1]
    {
      var k :| 0 <= k < |f| && f[k] == x;
    }
  }

  lemma SortedKeepsElements(s: seq<nat>)
    ensures forall x :: x in Sorted(s) <==> x in s
  {
    SortedIsAscending(s);
    forall x
      ensures x in Sorted(s) <==> x in s
    {
      assert x in Sorted(s) <==> x in multiset(Sorted(s));
      assert x in s <==> x in multiset(s);
    }
  }

  lemma DistinctSortedIsStrict(s: seq<nat>)
    requires forall i, j :: 0 <= i < j < |s| ==> s[i] != s[j]
    ensures |Sorted(s)| == |s| && forall i, j :: 0 <= i < j < |s| ==> Sorted(s)[i] < Sorted(s)[j]
  {
    SortedIsAscending(s);
    var f := Sorted(s);
    forall i, j | 0 <= i < j < |f|
      ensures f[i] < f[j]
    {
      if f[i] == f[j] {
        TwiceInMultiset(f, i, j);
        DistinctCountsOnce(s, f[i]);
      }
    }
  }

  lemma TwiceInMultiset(f: seq<nat>, i: nat, j: nat)
    requires i < j < |f| && f[i] == f[j]
    ensures multiset(f)[f[i]] >= 2
  {
    assert f == f[..i] + [f[i]] + f[i + 1..j] + [f[j]] + f[j + 1..];
  }

  lemma {:induction false} DistinctCountsOnce(s: seq<nat>, x: nat)
    requires forall i, j :: 0 <= i < j < |s| ==> s[i] != s[j]
    ensures multiset(s)[x] <= 1
  {
    if s != [] {
      DistinctCountsOnce(s[1..], x);
      assert s == [s[0]] + s[1..];
      assert s[0] !in s[1..];
    }
  }

  /** Three or more different frequencies give three different speeds, in order. */
  lemma EnoughFrequenciesGiveDistinctSpeeds(available: seq<nat>)
    requires |available| >= 3 && forall i, j :: 0 <= i < j < |available| ==> available[i] != available[j]
    ensures var v := Selected(available);
            v.minimal < v.scaled < v.normal && Distinct(v)
  {
    DistinctSortedIsStrict(if |available| > MAX_FREQUENCIES then available[..MAX_FREQUENCIES] else available);
  }

  /** Sorts the first `n` elements of a buffer, as the library does. */
  method SortBuffer(buffer: array<nat>, n: nat)
    requires n <= buffer.Length
    modifies buffer
    ensures buffer[..n] == Sorted(old(buffer[..n]))
  {
    SortedIsAscending(buffer[..n]);
    var sorted := Sorted(buffer[..n]);
    for i := 0 to n
      invariant buffer[..i] == sorted[..i]
    {
      buffer[i] := sorted[i];
    }
  }

  /**
    Reads the available frequencies, as many as fit, and fills in those of the three speeds that
    are still zero.  `None` is a list that cannot be opened.
   */
  method DetermineClockSpeeds(available: Option<seq<nat>>, known: Speeds) returns (status: Error, v: Speeds)
    ensures status.NoError? <==> available.Some? && available.value != []
    ensures v == if status.NoError? then
                   var found := Selected(available.value);
                   Speeds(if known.normal != 0 then known.normal else found.normal,
                          if known.scaled != 0 then known.scaled else found.scaled,
                          if known.minimal != 0 then known.minimal else found.minimal)
                 else known
  {
    hide Sorted, Ascending;
    if available.None? {
      return General, known;
    }
    var freqList := new nat[MAX_FREQUENCIES](_ => 0);
    var numFreqs := 0;
    while numFreqs < freqList.Length && numFreqs < |available.value|
      invariant numFreqs <= freqList.Length && numFreqs <= |available.value|
      invariant freqList[..numFreqs] == available.value[..numFreqs]
    {
      freqList[numFreqs] := available.value[numFreqs];
      numFreqs := numFreqs + 1;
    }
    if numFreqs == 0 {
      return General, known;
    }
    ghost var list := freqList[..numFreqs];
    SortBuffer(freqList, numFreqs);
    assert available.value[..|available.value|] == available.value;
    SortedIsAscending(list);
    assert forall k :: 0 <= k < numFreqs ==> freqList[k] == freqList[..numFreqs][k] == Sorted(list)[k];
    var minimal := freqList[0];
    var scaled := freqList[numFreqs / 2];
    var normal := freqList[numFreqs - 1];
    status := NoError;
    v := Speeds(if known.normal == 0 then normal else known.normal,
                if known.scaled == 0 then scaled else known.scaled,
                if known.minimal == 0 then minimal else known.minimal);
  }
}
