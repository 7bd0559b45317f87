/**
 * The race-summary normalisers and metrics: session-type classification, the race location,
 * stints and pit stops with their composite ids, and the lap metrics with per-driver averages.
 */
module Summary {
  import opened Wrappers
  import opened JsText
  import opened JsValues
  import opened OpenF1
  import opened OpenF1Utils
  import opened Normalizers
  import opened Stats

  datatype SessionType = Practice | Qualifying | Race

  // ---------------------------------------------------------------------------
  // resolveSessionType
  // ---------------------------------------------------------------------------

  /** `session_type`, else `session_name`, else the empty text, lower-cased. */
  function SessionTypeText(session: RawRecord): string {
    ToLower(GetFirstDefined(PickString(session, ["session_type"]), GetFirstDefined(PickString(session, ["session_name"]), "")))
  }

  predicate LooksLikePractice(text: string) {
    Contains(text, "practice") || StartsWith(text, "fp")
  }

  predicate LooksLikeQualifying(text: string) {
    Contains(text, "qual") || StartsWith(text, "q")
  }

  /**
   * `resolveSessionType`: practice when the text mentions practice or starts with "fp", else
   * qualifying when it mentions "qual" or starts with "q", else race.
   */
  function ResolveSessionType(session: RawRecord): (t: SessionType)
    ensures t == Practice <==> LooksLikePractice(SessionTypeText(session))
    ensures t == Qualifying <==> !LooksLikePractice(SessionTypeText(session)) && LooksLikeQualifying(SessionTypeText(session))
    ensures t == Race <==> !LooksLikePractice(SessionTypeText(session)) && !LooksLikeQualifying(SessionTypeText(session))
  {
    var combined := SessionTypeText(session);
    if LooksLikePractice(combined) then Practice
    else if LooksLikeQualifying(combined) then Qualifying
    else Race
  }

  /** A resolvable `session_type` decides alone; `session_name` is read only without one. */
  lemma SessionTypeTextPrefersType(session: RawRecord)
    ensures CoerceString(Field(session, "session_type")).Some? ==>
      SessionTypeText(session) == ToLower(CoerceString(Field(session, "session_type")).value)
    ensures CoerceString(Field(session, "session_type")).None? && CoerceString(Field(session, "session_name")).Some? ==>
      SessionTypeText(session) == ToLower(CoerceString(Field(session, "session_name")).value)
    ensures CoerceString(Field(session, "session_type")).None? && CoerceString(Field(session, "session_name")).None? ==>
      ResolveSessionType(session) == Race
  {
    PickSingle(session, "session_type");
    PickSingle(session, "session_name");
  }

  // ---------------------------------------------------------------------------
  // resolveRaceLocation
  // ---------------------------------------------------------------------------

  /** `resolveRaceLocation`: `location, country`, or whichever of the two resolves, or nothing. */
  function ResolveRaceLocation(race: RawRecord): (r: string)
    ensures var location, country := CoerceString(Field(race, "location")), CoerceString(Field(race, "country"));
      (location.Some? && country.Some? ==> r == location.value + ", " + country.value)
      && (location.Some? && country.None? ==> r == location.value)
      && (location.None? && country.Some? ==> r == country.value)
      && (location.None? && country.None? ==> r == "")
  {
    PickSingle(race, "location");
    PickSingle(race, "country");
    var parts := PresentParts([PickString(race, ["location"]), PickString(race, ["country"])]);
    if |parts| == 0 then ""
    else if |parts| == 1 then parts[0]
    else parts[0] + ", " + parts[1]
  }

  /** `.filter((part) => typeof part === "string" && part.length > 0)`. */
  function PresentParts(parts: seq<Option<string>>): (r: seq<string>)
    ensures |r| <= |parts|
    ensures |parts| == 2 ==> r == (if Truthy(parts[0]) then [parts[0].value] else []) + (if Truthy(parts[1]) then [parts[1].value] else [])
  {
    if parts == [] then []
    else (if Truthy(parts[0]) then [parts[0].value] else []) + PresentParts(parts[1..])
  }

  // ---------------------------------------------------------------------------
  // normalizeStint and normalizePitStop
  // ---------------------------------------------------------------------------

  datatype Stint = Stint(
    id: string,
    sessionId: string,
    driverId: string,
    stintNumber: real,
    compound: string,
    startLap: real,
    endLap: Option<real>)

  datatype PitStop = PitStop(
    id: string,
    sessionId: string,
    driverId: string,
    lapNumber: real,
    durationSeconds: Option<real>,
    rawDuration: Option<string>,
    stopTime: Option<string>,
    reason: Option<string>)

  /** `normalizeStint` for the stint at `index` of its session's list. */
  function NormalizeStint(sessionKey: string, raw: RawRecord, index: nat): (s: Stint)
    ensures s.sessionId == sessionKey && s.driverId == NumberText(DriverNumber(raw))
    ensures s.id == sessionKey + "-" + s.driverId + "-" + NumberText(s.stintNumber)
    ensures PickNumber(raw, ["stint", "stint_number"]).None? ==> s.stintNumber == (index + 1) as real
    ensures CoerceString(Field(raw, "compound")).None? ==> s.compound == "Unknown"
    ensures PickNumber(raw, ["lap_start", "start_lap"]).None? ==> s.startLap == 0.0
    ensures s.endLap.None? <==> CoerceNumber(Field(raw, "lap_end")).None? && CoerceNumber(Field(raw, "end_lap")).None?
  {
    PickSingle(raw, "compound");
    var keys := ["lap_end", "end_lap"];
    PickNumberPair(raw, "lap_end", "end_lap");
    var driverNumber := DriverNumber(raw);
    var stintNumber := GetFirstDefined(PickNumber(raw, ["stint", "stint_number"]), (index + 1) as real);
    Stint(
      sessionKey + "-" + NumberString(Finite(driverNumber)) + "-" + NumberString(Finite(stintNumber)),
      sessionKey,
      NumberString(Finite(driverNumber)),
      stintNumber,
      GetFirstDefined(PickString(raw, ["compound"]), "Unknown"),
      GetFirstDefined(PickNumber(raw, ["lap_start", "start_lap"]), 0.0),
      PickNumber(raw, keys))
  }

  /** `normalizePitStop` for the stop at `index` of its session's list. */
  function NormalizePitStop(sessionKey: string, raw: RawRecord, index: nat): (p: PitStop)
    ensures p.sessionId == sessionKey && p.driverId == NumberText(DriverNumber(raw))
    ensures p.id == sessionKey + "-" + p.driverId + "-" + NumberText(p.lapNumber) + "-" + NatText(index)
    ensures CoerceNumber(Field(raw, "lap_number")).None? ==> p.lapNumber == (index + 1) as real
    ensures p.rawDuration.None? <==> p.durationSeconds.None?
    ensures p.durationSeconds == PickNumber(raw, ["pit_duration", "duration", "pit_total", "total"])
    ensures p.stopTime == PickString(raw, ["pit_time", "time", "stopped"])
    ensures p.reason == CoerceString(Field(raw, "reason"))
  {
    PickSingle(raw, "lap_number");
    PickSingle(raw, "reason");
    NumberTextOfInt(index);
    var driverNumber := DriverNumber(raw);
    var lapNumber := GetFirstDefined(PickNumber(raw, ["lap_number"]), (index + 1) as real);
    var duration := PickNumber(raw, ["pit_duration", "duration", "pit_total", "total"]);
    PitStop(
      sessionKey + "-" + NumberString(Finite(driverNumber)) + "-" + NumberString(Finite(lapNumber)) + "-" + NumberString(Finite(index as real)),
      sessionKey,
      NumberString(Finite(driverNumber)),
      lapNumber,
      duration,
      ToSecondsString(SecondsNumber(duration)),
      PickString(raw, ["pit_time", "time", "stopped"]),
      PickString(raw, ["reason"]))
  }

  /**
   * Pit-stop ids made from different list positions never collide, whatever the session key,
   * driver and lap: each id ends in its index after the last dash.
   */
  lemma PitStopIdsDistinct(keyA: string, a: RawRecord, i: nat, keyB: string, b: RawRecord, j: nat)
    requires NormalizePitStop(keyA, a, i).id == NormalizePitStop(keyB, b, j).id
    ensures i == j
  {
    var p, q := NormalizePitStop(keyA, a, i), NormalizePitStop(keyB, b, j);
    var x := keyA + "-" + p.driverId + "-" + NumberText(p.lapNumber);
    var y := keyB + "-" + q.driverId + "-" + NumberText(q.lapNumber);
    assert x + "-" + NatText(i) == y + "-" + NatText(j);
    DashSuffix(x, y, i, j);
  }

  /** `x-i` and `y-j` (i, j naturals in decimal) are equal only when `i` and `j` are. */
  lemma DashSuffix(x: string, y: string, i: nat, j: nat)
    requires x + "-" + NatText(i) == y + "-" + NatText(j)
    ensures i == j
  {
    var s := x + "-" + NatText(i);
    var u, v := NatText(i), NatText(j);
    DigitsAfterDash(x, u);
    DigitsAfterDash(y, v);
    if |u| < |v| {
      assert false;
    } else if |v| < |u| {
      assert false;
    } else {
      assert u == s[|s| - |u|..] == v;
      NatTextInjective(i, j);
    }
  }

  lemma DigitsAfterDash(x: string, u: string)
    requires AllDigits(u)
    ensures (x + "-" + u)[|x|] == '-'
    ensures forall k :: |x| < k < |x + "-" + u| ==> IsDigit((x + "-" + u)[k])
  {
    assert forall k :: |x| < k < |x + "-" + u| ==> (x + "-" + u)[k] == u[k - |x| - 1];
  }

  // ---------------------------------------------------------------------------
  // calculateMetrics
  // ---------------------------------------------------------------------------

  datatype DriverAverage = DriverAverage(
    driverId: string,
    lapCount: nat,
    averageLapSeconds: Option<real>,
    bestLapSeconds: real)

  datatype Metrics = Metrics(
    totalLaps: nat,
    fastestLapSeconds: Option<real>,
    averageLapSeconds: Option<real>,
    driverAverages: seq<DriverAverage>)

  /** The lap times that are numbers, in lap order. */
  function TimedLapTimes(laps: seq<Lap>): (times: seq<real>)
    ensures |times| <= |laps|
  {
    if laps == [] then []
    else TimedLapTimes(laps[..|laps| - 1]) + TimesOf(laps[|laps| - 1])
  }

  function TimesOf(lap: Lap): seq<real> {
    if lap.lapTimeSeconds.Some? then [lap.lapTimeSeconds.value] else []
  }

  /** The lap times of one driver that are numbers, in lap order. */
  function DriverTimes(laps: seq<Lap>, driverId: string): seq<real> {
    if laps == [] then []
    else
      var last := laps[|laps| - 1];
      DriverTimes(laps[..|laps| - 1], driverId) + (if last.driverId == driverId then TimesOf(last) else [])
  }

  lemma DriverTimesStep(laps: seq<Lap>, i: nat)
    requires i < |laps|
    ensures laps[..i + 1][..i] == laps[..i]
    ensures forall id ::
      DriverTimes(laps[..i + 1], id) == DriverTimes(laps[..i], id) + (if laps[i].driverId == id then TimesOf(laps[i]) else [])
  {
    assert laps[..i + 1][..i] == laps[..i];
  }

  /** The drivers with at least one timed lap, once each, in order of their first timed lap. */
  function TimedDrivers(laps: seq<Lap>): (ids: seq<string>)
    ensures forall id :: id in ids <==> DriverTimes(laps, id) != []
    ensures forall k, l :: 0 <= k < l < |ids| ==> ids[k] != ids[l]
  {
    if laps == [] then []
    else
      var last := laps[|laps| - 1];
      var ids := TimedDrivers(laps[..|laps| - 1]);
      if last.lapTimeSeconds.Some? && last.driverId !in ids then ids + [last.driverId] else ids
  }

  /** The entry `calculateMetrics` reports for one driver's times. */
  function AverageOf(driverId: string, values: seq<real>): DriverAverage
    requires |values| > 0
  {
    DriverAverage(driverId, |values|, if |values| > 0 then Some(Mean(values)) else None, MinOf(values))
  }

  /** The metrics of a list of laps, as a specification. */
  function MetricsOf(laps: seq<Lap>): Metrics {
    var times := TimedLapTimes(laps);
    var ids := TimedDrivers(laps);
    Metrics(
      |laps|,
      if |times| > 0 then Some(MinOf(times)) else None,
      if |times| > 0 then Some(Mean(times)) else None,
      seq(|ids|, k requires 0 <= k < |ids| => AverageOf(ids[k], DriverTimes(laps, ids[k]))))
  }

  /**
   * `calculateMetrics`: the minimum and mean of the timed laps, and one entry per driver with
   * a timed lap, in order of first appearance.
   */
  method CalculateMetrics(laps: seq<Lap>) returns (metrics: Metrics)
    ensures metrics == MetricsOf(laps)
  {
    var times := TimedLapTimes(laps);
    var fastest := if |times| > 0 then Some(MinOf(times)) else None;
    var average := if |times| > 0 then Some(Mean(times)) else None;
    var order, lapsByDriver := GroupTimesByDriver(laps);
    var driverAverages := seq(|order|, k requires 0 <= k < |order| => AverageOf(order[k], lapsByDriver[order[k]]));
    metrics := Metrics(|laps|, fastest, average, driverAverages);
  }

  /**
   * The `lapsByDriver` map of `calculateMetrics`, filled lap by lap: the timed laps' times per
   * driver, with the drivers in insertion order.
   */
  method GroupTimesByDriver(laps: seq<Lap>) returns (order: seq<string>, lapsByDriver: map<string, seq<real>>)
    ensures order == TimedDrivers(laps)
    ensures forall id :: id in lapsByDriver <==> id in order
    ensures forall id :: id in lapsByDriver ==> lapsByDriver[id] == DriverTimes(laps, id)
  {
    order := [];
    lapsByDriver := map[];
    for i := 0 to |laps|
      invariant order == TimedDrivers(laps[..i])
      invariant forall id :: id in lapsByDriver <==> id in order
      invariant forall id :: id in lapsByDriver ==> lapsByDriver[id] == DriverTimes(laps[..i], id)
    {
      var lap := laps[i];
      DriverTimesStep(laps, i);
      if lap.lapTimeSeconds.Some? {
        if lap.driverId in lapsByDriver {
          lapsByDriver := lapsByDriver[lap.driverId := lapsByDriver[lap.driverId] + [lap.lapTimeSeconds.value]];
        } else {
          order := order + [lap.driverId];
          lapsByDriver := lapsByDriver[lap.driverId := [lap.lapTimeSeconds.value]];
        }
      }
    }
    assert laps[..|laps|] == laps;
  }

  // Properties of the metrics

  /** Every timed lap contributes its time. */
  lemma {:induction false} TimedLapTimeIncluded(laps: seq<Lap>, i: nat)
    requires i < |laps| && laps[i].lapTimeSeconds.Some?
    ensures laps[i].lapTimeSeconds.value in TimedLapTimes(laps)
  {
    if i < |laps| - 1 {
      var init := laps[..|laps| - 1];
      assert init[i] == laps[i];
      TimedLapTimeIncluded(init, i);
    }
  }

  /** Every timed lap time comes from a lap. */
  lemma {:induction false} TimedLapTimeSource(laps: seq<Lap>, x: real) returns (i: nat)
    requires x in TimedLapTimes(laps)
    ensures i < |laps| && laps[i].lapTimeSeconds == Some(x)
  {
    var init, last := laps[..|laps| - 1], laps[|laps| - 1];
    if x in TimedLapTimes(init) {
      i := TimedLapTimeSource(init, x);
      assert init[i] == laps[i];
    } else {
      i := |laps| - 1;
    }
  }

  /** No lap has a time exactly when the list of timed lap times is empty. */
  lemma TimedLapTimesEmpty(laps: seq<Lap>)
    ensures TimedLapTimes(laps) == [] <==> forall i :: 0 <= i < |laps| ==> laps[i].lapTimeSeconds.None?
  {
    var times := TimedLapTimes(laps);
    if times != [] {
      var i := TimedLapTimeSource(laps, times[0]);
    } else {
      forall i | 0 <= i < |laps|
        ensures laps[i].lapTimeSeconds.None?
      {
        if laps[i].lapTimeSeconds.Some? {
          TimedLapTimeIncluded(laps, i);
        }
      }
    }
  }

  /** All laps are counted; fastest and average lap are null exactly when no lap has a time. */
  lemma MetricsNullIffUntimed(laps: seq<Lap>)
    ensures MetricsOf(laps).totalLaps == |laps|
    ensures MetricsOf(laps).fastestLapSeconds.None? <==> forall i :: 0 <= i < |laps| ==> laps[i].lapTimeSeconds.None?
    ensures MetricsOf(laps).averageLapSeconds.None? <==> forall i :: 0 <= i < |laps| ==> laps[i].lapTimeSeconds.None?
  {
    TimedLapTimesEmpty(laps);
  }

  /** The fastest lap is the time of some lap, and no timed lap is faster. */
  lemma FastestIsMinimum(laps: seq<Lap>)
    requires MetricsOf(laps).fastestLapSeconds.Some?
    ensures exists i :: 0 <= i < |laps| && laps[i].lapTimeSeconds == MetricsOf(laps).fastestLapSeconds
    ensures forall i :: 0 <= i < |laps| && laps[i].lapTimeSeconds.Some? ==>
      MetricsOf(laps).fastestLapSeconds.value <= laps[i].lapTimeSeconds.value
  {
    var times := TimedLapTimes(laps);
    assert MetricsOf(laps).fastestLapSeconds == Some(MinOf(times));
    var j := TimedLapTimeSource(laps, MinOf(times));
    forall i | 0 <= i < |laps| && laps[i].lapTimeSeconds.Some?
      ensures MinOf(times) <= laps[i].lapTimeSeconds.value
    {
      TimedLapTimeIncluded(laps, i);
    }
  }

  /** The average lap lies between the fastest and the slowest timed lap. */
  lemma AverageBetweenFastestAndSlowest(laps: seq<Lap>)
    requires MetricsOf(laps).averageLapSeconds.Some?
    ensures var times := TimedLapTimes(laps);
      |times| > 0 && MinOf(times) <= MetricsOf(laps).averageLapSeconds.value <= MaxOf(times)
  {
    var times := TimedLapTimes(laps);
    MeanBetweenMinAndMax(times);
  }

  /** The timed lap times of one driver are members of that driver's timed laps, and vice versa. */
  lemma {:induction false} DriverTimesMembers(laps: seq<Lap>, driverId: string)
    ensures forall x :: x in DriverTimes(laps, driverId) <==>
      exists i :: 0 <= i < |laps| && laps[i].driverId == driverId && laps[i].lapTimeSeconds == Some(x)
  {
    if laps != [] {
      var init := laps[..|laps| - 1];
      DriverTimesMembers(init, driverId);
      assert forall i :: 0 <= i < |init| ==> init[i] == laps[i];
    }
  }

  /**
   * Each driver entry belongs to a driver with a timed lap, once; it counts that driver's timed
   * laps, its best is the fastest of them and its average their mean.
   */
  lemma DriverAveragesShape(laps: seq<Lap>)
    ensures var entries := MetricsOf(laps).driverAverages;
      (forall k, l :: 0 <= k < l < |entries| ==> entries[k].driverId != entries[l].driverId)
      && (forall k :: 0 <= k < |entries| ==>
            entries[k].lapCount >= 1
            && entries[k].lapCount == |DriverTimes(laps, entries[k].driverId)|
            && entries[k].bestLapSeconds == MinOf(DriverTimes(laps, entries[k].driverId))
            && entries[k].averageLapSeconds == Some(Mean(DriverTimes(laps, entries[k].driverId))))
    ensures forall i :: 0 <= i < |laps| && laps[i].lapTimeSeconds.Some? ==>
      exists k :: 0 <= k < |MetricsOf(laps).driverAverages| && MetricsOf(laps).driverAverages[k].driverId == laps[i].driverId
  {
    var ids := TimedDrivers(laps);
    forall i | 0 <= i < |laps| && laps[i].lapTimeSeconds.Some?
      ensures laps[i].driverId in ids
    {
      var id, x := laps[i].driverId, laps[i].lapTimeSeconds.value;
      DriverTimesMembers(laps, id);
      assert laps[i].driverId == id && laps[i].lapTimeSeconds == Some(x);
      assert x in DriverTimes(laps, id);
    }
    forall i | 0 <= i < |laps| && laps[i].lapTimeSeconds.Some?
      ensures exists k :: 0 <= k < |MetricsOf(laps).driverAverages| && MetricsOf(laps).driverAverages[k].driverId == laps[i].driverId
    {
      var k :| 0 <= k < |ids| && ids[k] == laps[i].driverId;
      assert MetricsOf(laps).driverAverages[k].driverId == laps[i].driverId;
    }
  }

  /** The lap counts over a list of drivers. */
  function CountOver(laps: seq<Lap>, ids: seq<string>): nat {
    if ids == [] then 0 else CountOver(laps, ids[..|ids| - 1]) + |DriverTimes(laps, ids[|ids| - 1])|
  }

  function LapCountSum(entries: seq<DriverAverage>): nat {
    if entries == [] then 0 else LapCountSum(entries[..|entries| - 1]) + entries[|entries| - 1].lapCount
  }

  /** The lap counts of the driver entries add up to the number of timed laps. */
  lemma LapCountsSumToTimedLaps(laps: seq<Lap>)
    ensures LapCountSum(MetricsOf(laps).driverAverages) == |TimedLapTimes(laps)|
  {
    var entries := MetricsOf(laps).driverAverages;
    var ids := TimedDrivers(laps);
    LapCountSumIsCountOver(laps, entries, ids);
    CountOverTimedDrivers(laps);
  }

  lemma {:induction false} LapCountSumIsCountOver(laps: seq<Lap>, entries: seq<DriverAverage>, ids: seq<string>)
    requires |entries| == |ids|
    requires forall k :: 0 <= k < |ids| ==> entries[k].lapCount == |DriverTimes(laps, ids[k])|
    ensures LapCountSum(entries) == CountOver(laps, ids)
  {
    if ids != [] {
      LapCountSumIsCountOver(laps, entries[..|entries| - 1], ids[..|ids| - 1]);
    }
  }

  lemma {:induction false} CountOverTimedDrivers(laps: seq<Lap>)
    ensures CountOver(laps, TimedDrivers(laps)) == |TimedLapTimes(laps)|
  {
    if laps != [] {
      var init, last := laps[..|laps| - 1], laps[|laps| - 1];
      var ids := TimedDrivers(init);
      CountOverTimedDrivers(init);
      assert forall id :: DriverTimes(laps, id) == DriverTimes(init, id) + (if last.driverId == id then TimesOf(last) else []);
      if last.lapTimeSeconds.None? {
        CountOverSame(laps, init, ids);
      } else if last.driverId in ids {
        CountOverBump(laps, init, ids, last.driverId);
      } else {
        CountOverSame(laps, init, ids);
        assert (ids + [last.driverId])[..|ids|] == ids;
        assert DriverTimes(init, last.driverId) == [];
      }
    }
  }

  /** Counting over drivers whose times agree in two lap lists gives the same total. */
  lemma {:induction false} CountOverSame(a: seq<Lap>, b: seq<Lap>, ids: seq<string>)
    requires forall k :: 0 <= k < |ids| ==> |DriverTimes(a, ids[k])| == |DriverTimes(b, ids[k])|
    ensures CountOver(a, ids) == CountOver(b, ids)
  {
    if ids != [] {
      CountOverSame(a, b, ids[..|ids| - 1]);
    }
  }

  /** One more lap for one of the (distinct) drivers adds one to the total. */
  lemma {:induction false} CountOverBump(a: seq<Lap>, b: seq<Lap>, ids: seq<string>, id: string)
    requires id in ids && forall k, l :: 0 <= k < l < |ids| ==> ids[k] != ids[l]
    requires forall x :: x != id ==> |DriverTimes(a, x)| == |DriverTimes(b, x)|
    requires |DriverTimes(a, id)| == |DriverTimes(b, id)| + 1
    ensures CountOver(a, ids) == CountOver(b, ids) + 1
  {
    var init, last := ids[..|ids| - 1], ids[|ids| - 1];
    if last == id {
      assert id !in init;
      assert forall k :: 0 <= k < |init| ==> init[k] != id;
      CountOverSame(a, b, init);
    } else {
      CountOverBump(a, b, init, id);
    }
  }
}
