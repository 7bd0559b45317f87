/**
 * One session of a driver's lap history (`SessionLapSummary` in `openf1-driver.ts`): the laps
 * collected for the session and `finalizeSessionMetrics`, which sorts them by lap number in
 * place, records the best and the average lap time, and fills each lap's delta to the best lap
 * and to the nearest earlier timed lap.
 */
module SessionLaps {
  import opened Wrappers
  import opened Normalizers
  import opened Sorting
  import opened Stats
  import opened Lists
  import Summary

  /** A lap with its two deltas; `createLapDeltaFromNormalized` leaves both deltas null. */
  datatype LapDelta = LapDelta(
    lapNumber: real,
    lapTimeSeconds: Option<real>,
    rawLapTime: Option<string>,
    deltaToBestSeconds: Option<real>,
    deltaToPreviousSeconds: Option<real>,
    sector1Seconds: Option<real>,
    sector2Seconds: Option<real>,
    sector3Seconds: Option<real>,
    rawSector1: Option<string>,
    rawSector2: Option<string>,
    rawSector3: Option<string>,
    position: Option<real>,
    isPit: bool)

  /** `createLapDeltaFromNormalized`: the lap's timing fields, with no delta yet. */
  function LapDeltaOf(lap: Lap): (d: LapDelta)
    ensures d.deltaToBestSeconds.None? && d.deltaToPreviousSeconds.None?
    ensures d.lapNumber == lap.lapNumber && d.lapTimeSeconds == lap.lapTimeSeconds && d.isPit == lap.isPit
    ensures Cleared(d) == d
  {
    LapDelta(lap.lapNumber, lap.lapTimeSeconds, lap.rawLapTime, None, None,
      lap.sector1Seconds, lap.sector2Seconds, lap.sector3Seconds,
      lap.rawSector1, lap.rawSector2, lap.rawSector3, lap.position, lap.isPit)
  }

  /** The lap with both deltas reset: what finalising may not change. */
  function Cleared(lap: LapDelta): LapDelta {
    lap.(deltaToBestSeconds := None, deltaToPreviousSeconds := None)
  }

  /** The comparator `a.lapNumber - b.lapNumber`, read as "may come first". */
  predicate LapNumberLe(a: LapDelta, b: LapDelta) {
    a.lapNumber - b.lapNumber <= 0.0
  }

  lemma LapNumberLeIsOrder()
    ensures Total(LapNumberLe) && Transitive(LapNumberLe)
  {
  }

  /** The laps in ascending lap-number order, equal numbers kept in arrival order. */
  function SortedLaps(laps: seq<LapDelta>): (r: seq<LapDelta>)
    ensures |r| == |laps| && multiset(r) == multiset(laps)
  {
    SortBy(laps, LapNumberLe)
  }

  /** The sorted laps are in ascending lap-number order, laps with equal numbers in arrival order. */
  lemma SortedLapsInOrder(laps: seq<LapDelta>)
    ensures SortedBy(SortedLaps(laps), LapNumberLe)
    ensures forall x :: Peers(SortedLaps(laps), x, LapNumberLe) == Peers(laps, x, LapNumberLe)
  {
    LapNumberLeIsOrder();
    SortBySorted(laps, LapNumberLe);
    forall x ensures Peers(SortedLaps(laps), x, LapNumberLe) == Peers(laps, x, LapNumberLe) {
      TransitiveTies(laps, x, LapNumberLe);
      SortByStable(laps, x, LapNumberLe);
    }
  }

  /** The lap times that are numbers, in lap order. */
  function ValidLapTimes(laps: seq<LapDelta>): (times: seq<real>)
    ensures |times| <= |laps|
  {
    if laps == [] then []
    else
      var last := laps[|laps| - 1];
      ValidLapTimes(laps[..|laps| - 1]) + (if last.lapTimeSeconds.Some? then [last.lapTimeSeconds.value] else [])
  }

  /** `Math.min` of the valid lap times, null when there is none. */
  function BestLap(laps: seq<LapDelta>): Option<real> {
    var times := ValidLapTimes(laps);
    if |times| > 0 then Some(MinOf(times)) else None
  }

  /** The mean of the valid lap times, null when there is none. */
  function AverageLap(laps: seq<LapDelta>): Option<real> {
    var times := ValidLapTimes(laps);
    if |times| > 0 then Some(Mean(times)) else None
  }

  /** The time of the nearest lap before position `i` that has a time. */
  function PreviousTime(laps: seq<LapDelta>, i: nat): Option<real>
    requires i <= |laps|
  {
    if i == 0 then None
    else if laps[i - 1].lapTimeSeconds.Some? then laps[i - 1].lapTimeSeconds
    else PreviousTime(laps, i - 1)
  }

  /** The deltas of the lap at position `i`: to the best lap, and to the nearest earlier timed lap. */
  function WithDelta(laps: seq<LapDelta>, best: Option<real>, i: nat): LapDelta
    requires i < |laps|
  {
    var lap := laps[i];
    var previous := PreviousTime(laps, i);
    lap.(
      deltaToBestSeconds :=
        if lap.lapTimeSeconds.Some? && best.Some? then Some(lap.lapTimeSeconds.value - best.value) else None,
      deltaToPreviousSeconds :=
        if lap.lapTimeSeconds.Some? && previous.Some? then Some(lap.lapTimeSeconds.value - previous.value) else None)
  }

  /** The laps after `finalizeSessionMetrics`. */
  function Finalized(laps: seq<LapDelta>): seq<LapDelta> {
    var sorted := SortedLaps(laps);
    seq(|sorted|, i requires 0 <= i < |sorted| => WithDelta(sorted, BestLap(sorted), i))
  }

  /** The fields of a session summary that are fixed when it is created. */
  datatype SessionHeader = SessionHeader(
    sessionId: string,
    raceId: Option<string>,
    name: string,
    sessionType: Summary.SessionType,
    startedAt: Option<string>)

  class SessionLapSummary {
    const sessionId: string
    const raceId: Option<string>
    const name: string
    const sessionType: Summary.SessionType
    const startedAt: Option<string>
    var bestLapSeconds: Option<real>
    var averageLapSeconds: Option<real>
    var laps: seq<LapDelta>

    /** A summary with no lap yet and no metrics. */
    constructor (sessionId: string, raceId: Option<string>, name: string, sessionType: Summary.SessionType, startedAt: Option<string>)
      ensures this.sessionId == sessionId && this.raceId == raceId && this.name == name
      ensures this.sessionType == sessionType && this.startedAt == startedAt
      ensures bestLapSeconds == None && averageLapSeconds == None && laps == []
    {
      this.sessionId := sessionId;
      this.raceId := raceId;
      this.name := name;
      this.sessionType := sessionType;
      this.startedAt := startedAt;
      bestLapSeconds := None;
      averageLapSeconds := None;
      laps := [];
    }

    function Header(): SessionHeader {
      SessionHeader(sessionId, raceId, name, sessionType, startedAt)
    }

    /** What finalising laps `before` leaves in the summary. */
    predicate FinalizedFrom(before: seq<LapDelta>)
      reads this
    {
      laps == Finalized(before) && bestLapSeconds == BestLap(before) && averageLapSeconds == AverageLap(before)
    }

    /** `summary.laps.push(lap)`. */
    method PushLap(lap: LapDelta)
      modifies this
      ensures laps == old(laps) + [lap]
      ensures bestLapSeconds == old(bestLapSeconds) && averageLapSeconds == old(averageLapSeconds)
    {
      laps := laps + [lap];
    }

    /** `finalizeSessionMetrics`. */
    method Finalize()
      modifies this
      ensures laps == Finalized(old(laps))
      ensures bestLapSeconds == BestLap(old(laps)) && averageLapSeconds == AverageLap(old(laps))
    {
      ghost var original := laps;
      laps := SortedLaps(laps);
      ghost var sorted := laps;
      BestAndAverageOfSorted(original);

      var validLapTimes := ValidLapTimes(laps);
      var best := if |validLapTimes| > 0 then Some(MinOf(validLapTimes)) else None;
      var average := if |validLapTimes| > 0 then Some(Sum(validLapTimes) / |validLapTimes| as real) else None;
      bestLapSeconds := best;
      averageLapSeconds := average;

      FillDeltas(best);
    }

    /** The delta loop of `finalizeSessionMetrics`, over laps already in lap order. */
    method FillDeltas(best: Option<real>)
      modifies this
      ensures laps == seq(|old(laps)|, i requires 0 <= i < |old(laps)| => WithDelta(old(laps), best, i))
      ensures bestLapSeconds == old(bestLapSeconds) && averageLapSeconds == old(averageLapSeconds)
    {
      ghost var sorted := laps;
      var index := 0;
      while index < |laps|
        invariant |laps| == |sorted| && 0 <= index <= |laps|
        invariant forall k :: 0 <= k < index ==> laps[k] == WithDelta(sorted, best, k)
        invariant forall k :: index <= k < |laps| ==> laps[k] == sorted[k]
        invariant forall k :: 0 <= k < |laps| ==> laps[k].lapTimeSeconds == sorted[k].lapTimeSeconds
        invariant bestLapSeconds == old(bestLapSeconds) && averageLapSeconds == old(averageLapSeconds)
      {
        var lap := laps[index];
        var currentSeconds := lap.lapTimeSeconds;
        var deltaToBest := if currentSeconds.Some? && best.Some? then Some(currentSeconds.value - best.value) else None;
        var deltaToPrevious := None;
        if currentSeconds.Some? {
          var previousSeconds := None;
          var previousIndex := index - 1;
          while previousIndex >= 0
            invariant -1 <= previousIndex < index
            invariant forall k :: previousIndex < k < index ==> sorted[k].lapTimeSeconds.None?
            invariant previousSeconds.None?
            modifies {}
          {
            if laps[previousIndex].lapTimeSeconds.Some? {
              previousSeconds := laps[previousIndex].lapTimeSeconds;
              PreviousTimeAt(sorted, index, previousIndex);
              break;
            }
            previousIndex := previousIndex - 1;
          }
          if previousSeconds.None? {
            PreviousTimeNone(sorted, index);
          }
          deltaToPrevious := if previousSeconds.Some? then Some(currentSeconds.value - previousSeconds.value) else None;
          assert previousSeconds == PreviousTime(sorted, index);
        }
        laps := laps[index := lap.(deltaToBestSeconds := deltaToBest, deltaToPreviousSeconds := deltaToPrevious)];
        index := index + 1;
      }
    }
  }

  // ---------------------------------------------------------------------------
  // The nearest earlier timed lap
  // ---------------------------------------------------------------------------

  /** With lap `j` timed and no timed lap between it and `i`, lap `j` is the previous timed lap. */
  lemma {:induction false} PreviousTimeAt(laps: seq<LapDelta>, i: nat, j: nat)
    requires j < i <= |laps| && laps[j].lapTimeSeconds.Some?
    requires forall k :: j < k < i ==> laps[k].lapTimeSeconds.None?
    ensures PreviousTime(laps, i) == laps[j].lapTimeSeconds
    decreases i - j
  {
    if j < i - 1 {
      PreviousTimeAt(laps, i - 1, j);
    }
  }

  /** With no timed lap before `i`, there is no previous time. */
  lemma {:induction false} PreviousTimeNone(laps: seq<LapDelta>, i: nat)
    requires i <= |laps| && forall k :: 0 <= k < i ==> laps[k].lapTimeSeconds.None?
    ensures PreviousTime(laps, i).None?
  {
    if i > 0 {
      PreviousTimeNone(laps, i - 1);
    }
  }

  /**
   * The previous time is the time of an earlier lap with no timed lap after it before `i`, and
   * it is missing exactly when no earlier lap has a time.
   */
  lemma {:induction false} PreviousTimeIsNearest(laps: seq<LapDelta>, i: nat) returns (j: nat)
    requires i <= |laps| && PreviousTime(laps, i).Some?
    ensures j < i && laps[j].lapTimeSeconds == PreviousTime(laps, i)
    ensures forall k :: j < k < i ==> laps[k].lapTimeSeconds.None?
  {
    if laps[i - 1].lapTimeSeconds.Some? {
      j := i - 1;
    } else {
      j := PreviousTimeIsNearest(laps, i - 1);
    }
  }

  lemma {:induction false} PreviousTimeMissing(laps: seq<LapDelta>, i: nat, k: nat)
    requires k < i <= |laps| && PreviousTime(laps, i).None?
    ensures laps[k].lapTimeSeconds.None?
  {
    if k < i - 1 {
      PreviousTimeMissing(laps, i - 1, k);
    }
  }

  // ---------------------------------------------------------------------------
  // Valid lap times
  // ---------------------------------------------------------------------------

  lemma ValidLapTimesSnoc(laps: seq<LapDelta>, lap: LapDelta)
    ensures ValidLapTimes(laps + [lap]) == ValidLapTimes(laps) + (if lap.lapTimeSeconds.Some? then [lap.lapTimeSeconds.value] else [])
  {
    assert (laps + [lap])[..|laps|] == laps;
  }

  /** The times of a concatenation. */
  lemma {:induction false} ValidLapTimesAppend(a: seq<LapDelta>, b: seq<LapDelta>)
    ensures ValidLapTimes(a + b) == ValidLapTimes(a) + ValidLapTimes(b)
    decreases |b|
  {
    if b == [] {
      assert a + b == a;
    } else {
      var init := b[..|b| - 1];
      assert a + b == (a + init) + [b[|b| - 1]];
      ValidLapTimesSnoc(a + init, b[|b| - 1]);
      ValidLapTimesAppend(a, init);
      assert b == init + [b[|b| - 1]];
      ValidLapTimesSnoc(init, b[|b| - 1]);
    }
  }

  /** A timed lap contributes its time. */
  lemma {:induction false} ValidLapTimeIncluded(laps: seq<LapDelta>, i: nat)
    requires i < |laps| && laps[i].lapTimeSeconds.Some?
    ensures laps[i].lapTimeSeconds.value in ValidLapTimes(laps)
  {
    var init := laps[..|laps| - 1];
    if i < |init| {
      assert init[i] == laps[i];
      ValidLapTimeIncluded(init, i);
    }
  }

  /** Every valid time is the time of some lap. */
  lemma {:induction false} ValidLapTimeSource(laps: seq<LapDelta>, x: real) returns (i: nat)
    requires x in ValidLapTimes(laps)
    ensures i < |laps| && laps[i].lapTimeSeconds == Some(x)
  {
    var init := laps[..|laps| - 1];
    if x in ValidLapTimes(init) {
      i := ValidLapTimeSource(init, x);
      assert init[i] == laps[i];
    } else {
      i := |laps| - 1;
    }
  }

  /** The valid times of laps in another order are the same times in another order. */
  lemma {:induction false} ValidLapTimesPermutation(a: seq<LapDelta>, b: seq<LapDelta>)
    requires multiset(a) == multiset(b)
    ensures multiset(ValidLapTimes(a)) == multiset(ValidLapTimes(b))
    decreases |a|
  {
    if a != [] {
      var x, init := a[|a| - 1], a[..|a| - 1];
      FrontLast(a);
      assert x in multiset(b);
      var m :| 0 <= m < |b| && b[m] == x;
      var rest := RemoveAt(b, m);
      ValidLapTimesPermutation(init, rest);
      ValidLapTimesSnoc(init, x);
      ValidLapTimesRemoveAt(b, m, rest);
    }
  }

  /** Taking lap `m` out takes its time, if it has one, out of the times. */
  lemma ValidLapTimesRemoveAt(b: seq<LapDelta>, m: nat, rest: seq<LapDelta>)
    requires m < |b| && rest == b[..m] + b[m + 1..]
    ensures multiset(ValidLapTimes(b)) ==
      multiset(ValidLapTimes(rest)) + multiset(if b[m].lapTimeSeconds.Some? then [b[m].lapTimeSeconds.value] else [])
  {
    assert b == (b[..m] + [b[m]]) + b[m + 1..];
    ValidLapTimesAppend(b[..m] + [b[m]], b[m + 1..]);
    ValidLapTimesSnoc(b[..m], b[m]);
    ValidLapTimesAppend(b[..m], b[m + 1..]);
  }

  // ---------------------------------------------------------------------------
  // What finalising promises
  // ---------------------------------------------------------------------------

  /** Finalising sorts the laps by lap number and changes nothing in them but the deltas. */
  lemma FinalizedIsSortedPermutation(laps: seq<LapDelta>)
    ensures |Finalized(laps)| == |laps|
    ensures forall i, j :: 0 <= i < j < |laps| ==> Finalized(laps)[i].lapNumber <= Finalized(laps)[j].lapNumber
    ensures forall i :: 0 <= i < |laps| ==> Cleared(Finalized(laps)[i]) == Cleared(SortedLaps(laps)[i])
    ensures multiset(SortedLaps(laps)) == multiset(laps)
  {
    SortedLapsInOrder(laps);
  }

  /** The best and the average are missing exactly when no lap has a time. */
  lemma {:induction false} MetricsMissingIffUntimed(laps: seq<LapDelta>)
    ensures BestLap(laps).None? <==> forall i :: 0 <= i < |laps| ==> laps[i].lapTimeSeconds.None?
    ensures AverageLap(laps).None? <==> BestLap(laps).None?
  {
    if BestLap(laps).None? {
      forall i | 0 <= i < |laps| ensures laps[i].lapTimeSeconds.None? {
        if laps[i].lapTimeSeconds.Some? {
          ValidLapTimeIncluded(laps, i);
        }
      }
    } else {
      var i := ValidLapTimeSource(laps, ValidLapTimes(laps)[0]);
    }
  }

  /** The best lap is the time of some lap and no lap is faster; the average lies between. */
  lemma {:induction false} BestLapIsFastest(laps: seq<LapDelta>)
    requires BestLap(laps).Some?
    ensures exists i :: 0 <= i < |laps| && laps[i].lapTimeSeconds == BestLap(laps)
    ensures forall i :: 0 <= i < |laps| && laps[i].lapTimeSeconds.Some? ==> BestLap(laps).value <= laps[i].lapTimeSeconds.value
    ensures BestLap(laps).value <= AverageLap(laps).value
  {
    var times := ValidLapTimes(laps);
    var i := ValidLapTimeSource(laps, MinOf(times));
    forall k | 0 <= k < |laps| && laps[k].lapTimeSeconds.Some?
      ensures BestLap(laps).value <= laps[k].lapTimeSeconds.value
    {
      ValidLapTimeIncluded(laps, k);
    }
    MeanBetweenMinAndMax(times);
  }

  /** Sorting does not change the best or the average. */
  lemma BestAndAverageOfSorted(laps: seq<LapDelta>)
    ensures BestLap(SortedLaps(laps)) == BestLap(laps)
    ensures AverageLap(SortedLaps(laps)) == AverageLap(laps)
  {
    var sorted := SortedLaps(laps);
    ValidLapTimesPermutation(laps, sorted);
    var a, b := ValidLapTimes(laps), ValidLapTimes(sorted);
    if |a| > 0 {
      assert |b| == |a| by {
        assert |multiset(a)| == |multiset(b)|;
      }
      MinOfPermutation(a, b);
      SumPermutation(a, b);
    } else {
      assert |b| == 0 by {
        assert |multiset(a)| == |multiset(b)|;
      }
    }
  }

  lemma MinOfPermutation(a: seq<real>, b: seq<real>)
    requires |a| > 0 && multiset(a) == multiset(b)
    ensures |b| > 0 && MinOf(a) == MinOf(b)
  {
    assert |multiset(a)| == |multiset(b)|;
    var ma, mb := MinOf(a), MinOf(b);
    assert ma in multiset(b) && mb in multiset(a);
    var i :| 0 <= i < |b| && b[i] == ma;
    var j :| 0 <= j < |a| && a[j] == mb;
  }

  lemma {:induction false} SumPermutation(a: seq<real>, b: seq<real>)
    requires multiset(a) == multiset(b)
    ensures Sum(a) == Sum(b)
    decreases |a|
  {
    if a != [] {
      var x := a[|a| - 1];
      var init := a[..|a| - 1];
      assert a == init + [x];
      assert x in multiset(b);
      var m :| 0 <= m < |b| && b[m] == x;
      var rest := b[..m] + b[m + 1..];
      assert b == b[..m] + [x] + b[m + 1..];
      assert multiset(b) == multiset(b[..m]) + multiset{x} + multiset(b[m + 1..]);
      assert multiset(rest) == multiset(b) - multiset{x};
      assert multiset(init) == multiset(a) - multiset{x};
      SumPermutation(init, rest);
      SumAppend(init, [x]);
      SumAppend(b[..m] + [x], b[m + 1..]);
      SumAppend(b[..m], [x]);
      SumAppend(b[..m], b[m + 1..]);
    }
  }

  /** A timed lap's delta to the best is never negative; an untimed lap has no deltas. */
  lemma DeltaToBestNonNegative(laps: seq<LapDelta>, i: nat)
    requires i < |laps|
    ensures Finalized(laps)[i].lapTimeSeconds.Some? ==>
      Finalized(laps)[i].deltaToBestSeconds.Some? && Finalized(laps)[i].deltaToBestSeconds.value >= 0.0
    ensures Finalized(laps)[i].lapTimeSeconds.None? ==>
      Finalized(laps)[i].deltaToBestSeconds.None? && Finalized(laps)[i].deltaToPreviousSeconds.None?
  {
    var sorted := SortedLaps(laps);
    if sorted[i].lapTimeSeconds.Some? {
      ValidLapTimeIncluded(sorted, i);
      BestLapIsFastest(sorted);
    }
  }

  /** When some lap has a time, the fastest lap has a delta of zero to the best. */
  lemma SomeLapAtBest(laps: seq<LapDelta>, i: nat) returns (j: nat)
    requires i < |laps| && laps[i].lapTimeSeconds.Some?
    ensures j < |laps| && Finalized(laps)[j].deltaToBestSeconds == Some(0.0)
  {
    var sorted := SortedLaps(laps);
    assert laps[i] in multiset(sorted);
    var k :| 0 <= k < |sorted| && sorted[k] == laps[i];
    ValidLapTimeIncluded(sorted, k);
    BestLapIsFastest(sorted);
    j :| 0 <= j < |sorted| && sorted[j].lapTimeSeconds == BestLap(sorted);
    FinalizedAt(laps, j);
    DeltaAtBest(sorted, BestLap(sorted), j);
  }

  /** Lap `j` of the finalised laps is lap `j` of the sorted laps with its deltas. */
  lemma FinalizedAt(laps: seq<LapDelta>, j: nat)
    requires j < |laps|
    ensures j < |SortedLaps(laps)| && Finalized(laps)[j] == WithDelta(SortedLaps(laps), BestLap(SortedLaps(laps)), j)
  {
  }

  /** A lap whose time is the best time is zero behind the best. */
  lemma DeltaAtBest(sorted: seq<LapDelta>, best: Option<real>, j: nat)
    requires j < |sorted| && best.Some? && sorted[j].lapTimeSeconds == best
    ensures WithDelta(sorted, best, j).deltaToBestSeconds == Some(0.0)
  {
  }

  /**
   * A timed lap's delta to the previous lap is its time minus the time of the nearest earlier
   * timed lap in lap order, and is missing when no earlier lap has a time.
   */
  lemma DeltaToPreviousMeaning(laps: seq<LapDelta>, i: nat, j: nat)
    requires j < i < |laps|
    requires SortedLaps(laps)[i].lapTimeSeconds.Some? && SortedLaps(laps)[j].lapTimeSeconds.Some?
    requires forall k :: j < k < i ==> SortedLaps(laps)[k].lapTimeSeconds.None?
    ensures Finalized(laps)[i].deltaToPreviousSeconds ==
      Some(SortedLaps(laps)[i].lapTimeSeconds.value - SortedLaps(laps)[j].lapTimeSeconds.value)
  {
    PreviousTimeAt(SortedLaps(laps), i, j);
  }

  lemma FirstTimedLapHasNoPrevious(laps: seq<LapDelta>, i: nat)
    requires i < |laps|
    requires forall k :: 0 <= k < i ==> SortedLaps(laps)[k].lapTimeSeconds.None?
    ensures Finalized(laps)[i].deltaToPreviousSeconds.None?
  {
    PreviousTimeNone(SortedLaps(laps), i);
  }
}
