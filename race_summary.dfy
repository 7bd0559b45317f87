/**
 * The steps of `fetchRaceSummary` after each fetch: the race lookup and its not-found rule,
 * the session filter and ordering, the timing collection over the kept sessions, the
 * first-wins driver merge with placeholder drivers, and the race header with its fallbacks.
 * The timing API is a parameter: `fetch(resource, params)` is the list it answers with.
 */
module RaceSummary {
  import opened Wrappers
  import opened JsText
  import opened JsValues
  import opened OpenF1
  import opened OpenF1Utils
  import opened Normalizers
  import opened Sorting
  import opened Summary
  import opened Lists

  /** The timing API as already answered: the records returned for a resource and its parameters. */
  type Fetch = (string, Params) -> seq<RawRecord>

  /** Stands for `Date.parse` followed by `toISOString` (None for an unparsable text). */
  type DateParser = string -> Option<string>

  // ---------------------------------------------------------------------------
  // Race lookup
  // ---------------------------------------------------------------------------

  /** The query that selects the race: the key as a number when `Number(raceKey)` is finite. */
  function RaceParams(raceKey: string): Params {
    match JsNumber(raceKey)
    case Some(x) => [("race_key", QScalar(QNum(Finite(x))))]
    case None => [("race_key", QScalar(QStr(raceKey)))]
  }

  /** A key that is not a number is sent as it is. */
  lemma RaceParamsOfText(raceKey: string)
    requires JsNumber(raceKey).None?
    ensures ExpandParams(RaceParams(raceKey)) == [("race_key", raceKey)]
  {
  }

  /** A key in canonical decimal form is sent as a number whose text is the key again. */
  lemma RaceParamsOfCanonicalKey(n: nat)
    ensures ExpandParams(RaceParams(NatText(n))) == [("race_key", NatText(n))]
  {
    JsNumberOfIntText(n);
    NumberTextOfInt(n);
  }

  function RaceStart(race: RawRecord, parseDate: DateParser): Option<string> {
    CombineDateAndTime(Field(race, "start_date"), Field(race, "start_time"), parseDate)
  }

  function RaceEnd(race: RawRecord, parseDate: DateParser): Option<string> {
    CombineDateAndTime(Field(race, "end_date"), Field(race, "end_time"), parseDate)
  }

  /** The message of the error raised when no race has the key. */
  function RaceNotFound(raceKey: string): Error {
    NotFound("Race with key " + raceKey + " was not found")
  }

  // ---------------------------------------------------------------------------
  // Sessions
  // ---------------------------------------------------------------------------

  datatype Session = Session(
    id: string,
    raceId: string,
    sessionType: SessionType,
    name: string,
    startedAt: string,
    endedAt: Option<string>)

  /** `options.sessionTypes` lets a type through: an empty filter lets every type through. */
  predicate Allowed(allowed: seq<SessionType>, t: SessionType) {
    |allowed| == 0 || t in allowed
  }

  /**
   * The summary of one session: its key as id, the race key as race id, the resolved type, the
   * name or `Session <key>`, the start falling back to the race start and then to the epoch, and
   * the end falling back to the race end.
   */
  function SessionSummaryOf(race: RawRecord, session: RawRecord, parseDate: DateParser): (s: Session)
    ensures s.id == ValueString(Field(session, "session_key"))
    ensures s.raceId == ValueString(Field(race, "race_key"))
    ensures s.sessionType == ResolveSessionType(session)
    ensures CoerceString(Field(session, "session_name")).Some? ==> s.name == CoerceString(Field(session, "session_name")).value
    ensures CoerceString(Field(session, "session_name")).None? ==> s.name == "Session " + s.id
    ensures var own := CombineDateAndTime(Field(session, "start_date"), Field(session, "start_time"), parseDate);
      (own.Some? ==> s.startedAt == own.value)
      && (own.None? && RaceStart(race, parseDate).Some? ==> s.startedAt == RaceStart(race, parseDate).value)
      && (own.None? && RaceStart(race, parseDate).None? ==> s.startedAt == EpochIso)
    ensures var own := CombineDateAndTime(Field(session, "end_date"), Field(session, "end_time"), parseDate);
      (own.Some? ==> s.endedAt == own) && (own.None? ==> s.endedAt == RaceEnd(race, parseDate))
  {
    PickSingle(session, "session_name");
    var key := ValueString(Field(session, "session_key"));
    var startedAt := CombineDateAndTime(Field(session, "start_date"), Field(session, "start_time"), parseDate);
    var endedAt := CombineDateAndTime(Field(session, "end_date"), Field(session, "end_time"), parseDate);
    Session(
      key,
      ValueString(Field(race, "race_key")),
      ResolveSessionType(session),
      GetFirstDefined(PickString(session, ["session_name"]), "Session " + key),
      GetFirstDefined(startedAt, GetFirstDefined(RaceStart(race, parseDate), EpochIso)),
      if endedAt.Some? then endedAt else RaceEnd(race, parseDate))
  }

  function KeepSession(allowed: seq<SessionType>): RawRecord -> bool {
    session => Allowed(allowed, ResolveSessionType(session))
  }

  function SummariseSession(race: RawRecord, parseDate: DateParser): RawRecord -> Session {
    session => SessionSummaryOf(race, session, parseDate)
  }

  /** The summaries of the sessions the filter lets through, in response order. */
  function KeptSessions(race: RawRecord, sessions: seq<RawRecord>, allowed: seq<SessionType>, parseDate: DateParser): seq<Session> {
    FilterMap(sessions, KeepSession(allowed), SummariseSession(race, parseDate))
  }

  /** The ids of a list of session summaries, in order. */
  function SessionIds(sessions: seq<Session>): (ids: seq<string>)
    ensures |ids| == |sessions|
  {
    seq(|sessions|, i requires 0 <= i < |sessions| => sessions[i].id)
  }

  lemma SessionIdsSnoc(sessions: seq<Session>, s: Session)
    ensures SessionIds(sessions + [s]) == SessionIds(sessions) + [s.id]
  {
  }

  /**
   * The session loop of `fetchRaceSummary`: skips the sessions the filter rejects and records
   * a summary and the key of every other one, in response order.
   */
  method CollectSessions(race: RawRecord, sessions: seq<RawRecord>, allowed: seq<SessionType>, parseDate: DateParser)
    returns (summaries: seq<Session>, keys: seq<string>)
    ensures summaries == KeptSessions(race, sessions, allowed, parseDate)
    ensures keys == SessionIds(summaries)
  {
    ghost var keep, summarise := KeepSession(allowed), SummariseSession(race, parseDate);
    summaries, keys := [], [];
    for i := 0 to |sessions|
      invariant summaries == FilterMap(sessions[..i], keep, summarise)
      invariant keys == SessionIds(summaries)
    {
      FilterMapSnoc(sessions, i, keep, summarise);
      var session := sessions[i];
      var sessionKey := ValueString(Field(session, "session_key"));
      var sessionType := ResolveSessionType(session);
      if !Allowed(allowed, sessionType) {
        continue;
      }
      var summary := SessionSummaryOf(race, session, parseDate);
      SessionIdsSnoc(summaries, summary);
      summaries := summaries + [summary];
      keys := keys + [sessionKey];
    }
    TakeAll(sessions);
  }

  /** Every kept session comes from a session whose type the filter lets through. */
  lemma KeptSessionsAllowed(race: RawRecord, sessions: seq<RawRecord>, allowed: seq<SessionType>, parseDate: DateParser, k: nat)
    requires k < |KeptSessions(race, sessions, allowed, parseDate)|
    ensures Allowed(allowed, KeptSessions(race, sessions, allowed, parseDate)[k].sessionType)
    ensures exists i :: 0 <= i < |sessions| && KeptSessions(race, sessions, allowed, parseDate)[k] == SessionSummaryOf(race, sessions[i], parseDate)
  {
    var i := FilterMapSource(sessions, KeepSession(allowed), SummariseSession(race, parseDate), k);
  }

  /** Every session whose type the filter lets through is kept. */
  lemma AllowedSessionKept(race: RawRecord, sessions: seq<RawRecord>, allowed: seq<SessionType>, parseDate: DateParser, i: nat)
    requires i < |sessions| && Allowed(allowed, ResolveSessionType(sessions[i]))
    ensures SessionSummaryOf(race, sessions[i], parseDate) in KeptSessions(race, sessions, allowed, parseDate)
  {
    FilterMapIncludes(sessions, KeepSession(allowed), SummariseSession(race, parseDate), i);
  }

  /** With no filter every session is kept, in response order. */
  lemma UnfilteredSessions(race: RawRecord, sessions: seq<RawRecord>, parseDate: DateParser)
    ensures var kept := KeptSessions(race, sessions, [], parseDate);
      |kept| == |sessions| && forall k :: 0 <= k < |kept| ==> kept[k] == SessionSummaryOf(race, sessions[k], parseDate)
  {
    FilterMapAll(sessions, KeepSession([]), SummariseSession(race, parseDate));
  }

  /** The comparator of the session sort: `a.startedAt.localeCompare(b.startedAt) <= 0`. */
  predicate StartsNoLater(a: Session, b: Session) {
    StrLe(a.startedAt, b.startedAt)
  }

  lemma StartsNoLaterIsOrder()
    ensures Total(StartsNoLater) && Transitive(StartsNoLater)
  {
    forall a: Session, b: Session
      ensures StartsNoLater(a, b) || StartsNoLater(b, a)
    {
      StrLeTotal(a.startedAt, b.startedAt);
    }
    forall a: Session, b: Session, c: Session | StartsNoLater(a, b) && StartsNoLater(b, c)
      ensures StartsNoLater(a, c)
    {
      StrLeTransitive(a.startedAt, b.startedAt, c.startedAt);
    }
  }

  /** The session order: a stable sort by start text, with no tie-break of its own. */
  function OrderSessions(sessions: seq<Session>): seq<Session> {
    SortBy(sessions, StartsNoLater)
  }

  /**
   * The ordered sessions are the same sessions, each starting no later than the next; sessions
   * with the same start keep their input order.
   */
  lemma OrderedSessions(sessions: seq<Session>)
    ensures multiset(OrderSessions(sessions)) == multiset(sessions)
    ensures var r := OrderSessions(sessions);
      forall i, j :: 0 <= i < j < |r| ==> StrLe(r[i].startedAt, r[j].startedAt)
    ensures forall x :: Peers(OrderSessions(sessions), x, StartsNoLater) == Peers(sessions, x, StartsNoLater)
  {
    StartsNoLaterIsOrder();
    SortBySorted(sessions, StartsNoLater);
    forall x ensures Peers(OrderSessions(sessions), x, StartsNoLater) == Peers(sessions, x, StartsNoLater) {
      TransitiveTies(sessions, x, StartsNoLater);
      SortByStable(sessions, x, StartsNoLater);
    }
  }

  // ---------------------------------------------------------------------------
  // Timing data of the kept sessions
  // ---------------------------------------------------------------------------

  /** The query of a per-session resource. */
  function SessionQuery(sessionKey: string): Params {
    [("session_key", QScalar(QStr(sessionKey)))]
  }

  function StintOfSession(sessionKey: string): (RawRecord, nat) -> Stint {
    (raw: RawRecord, i: nat) => NormalizeStint(sessionKey, raw, i)
  }

  function PitStopOfSession(sessionKey: string): (RawRecord, nat) -> PitStop {
    (raw: RawRecord, i: nat) => NormalizePitStop(sessionKey, raw, i)
  }

  function LapOfSession(sessionKey: string): (RawRecord, nat) -> Lap {
    (raw: RawRecord, i: nat) => NormalizeLap(sessionKey, raw)
  }

  /** A session's stints, each normalised with its position in the response. */
  function StintsOf(sessionKey: string, raws: seq<RawRecord>): seq<Stint> {
    MapIndexed(raws, StintOfSession(sessionKey))
  }

  function PitStopsOf(sessionKey: string, raws: seq<RawRecord>): seq<PitStop> {
    MapIndexed(raws, PitStopOfSession(sessionKey))
  }

  function LapsOf(sessionKey: string, raws: seq<RawRecord>): seq<Lap> {
    MapIndexed(raws, LapOfSession(sessionKey))
  }

  function StintDriverId(s: Stint): string { s.driverId }
  function PitStopDriverId(p: PitStop): string { p.driverId }
  function LapDriverId(l: Lap): string { l.driverId }

  /** What the timing loop has gathered: stints, pit stops, laps and the driver ids seen. */
  datatype Timing = Timing(stints: seq<Stint>, pitStops: seq<PitStop>, laps: seq<Lap>, driverIds: seq<string>)

  /** One session's step of the timing loop: stints, then pit stops, then laps. */
  function SessionTiming(before: Timing, sessionKey: string, fetch: Fetch): Timing {
    var stints := StintsOf(sessionKey, fetch("stints", SessionQuery(sessionKey)));
    var pitStops := PitStopsOf(sessionKey, fetch("pit", SessionQuery(sessionKey)));
    var laps := LapsOf(sessionKey, fetch("laps", SessionQuery(sessionKey)));
    Timing(
      before.stints + stints,
      before.pitStops + pitStops,
      before.laps + laps,
      AddAll(AddAll(AddAll(before.driverIds, Map(stints, StintDriverId)), Map(pitStops, PitStopDriverId)), Map(laps, LapDriverId)))
  }

  /** The timing data of the sessions with the given keys, session after session. */
  function TimingOf(sessionKeys: seq<string>, fetch: Fetch): Timing {
    if sessionKeys == [] then Timing([], [], [], [])
    else SessionTiming(TimingOf(sessionKeys[..|sessionKeys| - 1], fetch), sessionKeys[|sessionKeys| - 1], fetch)
  }

  lemma AddAllSnoc<T(!new)>(s: seq<T>, xs: seq<T>, x: T)
    ensures AddAll(s, xs + [x]) == Add(AddAll(s, xs), x)
  {
    assert (xs + [x])[..|xs|] == xs;
  }

  /** Normalising record `j` extends what records `..j` gave by one item and, if new, its driver id. */
  lemma PushStep<T>(items: seq<T>, driverIds: seq<string>, raws: seq<RawRecord>,
                    normalize: (RawRecord, nat) -> T, driverId: T -> string, j: nat)
    requires j < |raws|
    ensures items + MapIndexed(raws[..j + 1], normalize) == (items + MapIndexed(raws[..j], normalize)) + [normalize(raws[j], j)]
    ensures AddAll(driverIds, Map(MapIndexed(raws[..j + 1], normalize), driverId))
      == Add(AddAll(driverIds, Map(MapIndexed(raws[..j], normalize), driverId)), driverId(normalize(raws[j], j)))
  {
    var normalized := normalize(raws[j], j);
    MapIndexedSnoc(raws, j, normalize);
    MapSnoc(MapIndexed(raws[..j], normalize), normalized, driverId);
    AddAllSnoc(driverIds, Map(MapIndexed(raws[..j], normalize), driverId), driverId(normalized));
  }

  /**
   * One `forEach` of the timing loop: pushes each record of a response, normalised with its
   * position, and adds its driver id to the set of ids seen.
   */
  method PushNormalized<T>(items: seq<T>, driverIds: seq<string>, raws: seq<RawRecord>,
                           normalize: (RawRecord, nat) -> T, driverId: T -> string)
    returns (allItems: seq<T>, allIds: seq<string>)
    ensures allItems == items + MapIndexed(raws, normalize)
    ensures allIds == AddAll(driverIds, Map(MapIndexed(raws, normalize), driverId))
  {
    allItems, allIds := items, driverIds;
    for j := 0 to |raws|
      invariant allItems == items + MapIndexed(raws[..j], normalize)
      invariant allIds == AddAll(driverIds, Map(MapIndexed(raws[..j], normalize), driverId))
    {
      var normalized := normalize(raws[j], j);
      PushStep(items, driverIds, raws, normalize, driverId, j);
      allItems := allItems + [normalized];
      allIds := Add(allIds, driverId(normalized));
    }
    TakeAll(raws);
  }

  /**
   * The timing loop of `fetchRaceSummary`: for every kept session in key order, its stints,
   * pit stops and laps are normalised and appended, and every driver id met is recorded once.
   */
  method CollectTiming(sessionKeys: seq<string>, fetch: Fetch) returns (timing: Timing)
    ensures timing == TimingOf(sessionKeys, fetch)
  {
    var stints: seq<Stint> := [];
    var pitStops: seq<PitStop> := [];
    var laps: seq<Lap> := [];
    var driverNumbers: seq<string> := [];
    for i := 0 to |sessionKeys|
      invariant Timing(stints, pitStops, laps, driverNumbers) == TimingOf(sessionKeys[..i], fetch)
    {
      assert sessionKeys[..i + 1][..i] == sessionKeys[..i];
      var sessionKey := sessionKeys[i];
      stints, driverNumbers := PushNormalized(stints, driverNumbers, fetch("stints", SessionQuery(sessionKey)),
        StintOfSession(sessionKey), StintDriverId);
      pitStops, driverNumbers := PushNormalized(pitStops, driverNumbers, fetch("pit", SessionQuery(sessionKey)),
        PitStopOfSession(sessionKey), PitStopDriverId);
      laps, driverNumbers := PushNormalized(laps, driverNumbers, fetch("laps", SessionQuery(sessionKey)),
        LapOfSession(sessionKey), LapDriverId);
    }
    TakeAll(sessionKeys);
    timing := Timing(stints, pitStops, laps, driverNumbers);
  }

  /**
   * The driver ids the timing loop records are distinct, and they are exactly the drivers of
   * the stints, pit stops and laps gathered.
   */
  lemma {:induction false} TimingDriverIds(sessionKeys: seq<string>, fetch: Fetch)
    ensures var t := TimingOf(sessionKeys, fetch);
      Distinct(t.driverIds)
      && forall id :: id in t.driverIds <==>
        id in Map(t.stints, StintDriverId) || id in Map(t.pitStops, PitStopDriverId) || id in Map(t.laps, LapDriverId)
  {
    if sessionKeys != [] {
      var key := sessionKeys[|sessionKeys| - 1];
      var before := TimingOf(sessionKeys[..|sessionKeys| - 1], fetch);
      TimingDriverIds(sessionKeys[..|sessionKeys| - 1], fetch);
      MapAppend(before.stints, StintsOf(key, fetch("stints", SessionQuery(key))), StintDriverId);
      MapAppend(before.pitStops, PitStopsOf(key, fetch("pit", SessionQuery(key))), PitStopDriverId);
      MapAppend(before.laps, LapsOf(key, fetch("laps", SessionQuery(key))), LapDriverId);
    }
  }

  /** Every stint, pit stop and lap belongs to one of the sessions. */
  predicate FromSessions(t: Timing, sessionKeys: seq<string>) {
    (forall k :: 0 <= k < |t.stints| ==> t.stints[k].sessionId in sessionKeys)
    && (forall k :: 0 <= k < |t.pitStops| ==> t.pitStops[k].sessionId in sessionKeys)
    && (forall k :: 0 <= k < |t.laps| ==> t.laps[k].sessionId in sessionKeys)
  }

  /** Every stint, pit stop and lap gathered belongs to one of the kept sessions. */
  lemma {:induction false} TimingSessions(sessionKeys: seq<string>, fetch: Fetch)
    ensures FromSessions(TimingOf(sessionKeys, fetch), sessionKeys)
  {
    if sessionKeys != [] {
      var init, key := sessionKeys[..|sessionKeys| - 1], sessionKeys[|sessionKeys| - 1];
      TimingSessions(init, fetch);
      TimingSessionsStep(sessionKeys, fetch);
    }
  }

  /** The step of `TimingSessions`: the last session's records keep the property. */
  lemma TimingSessionsStep(sessionKeys: seq<string>, fetch: Fetch)
    requires sessionKeys != []
    requires FromSessions(TimingOf(sessionKeys[..|sessionKeys| - 1], fetch), sessionKeys[..|sessionKeys| - 1])
    ensures FromSessions(TimingOf(sessionKeys, fetch), sessionKeys)
  {
    var init, key := sessionKeys[..|sessionKeys| - 1], sessionKeys[|sessionKeys| - 1];
    FrontLast(sessionKeys);
    FromSessionsStep(TimingOf(init, fetch), key, fetch("stints", SessionQuery(key)), fetch("pit", SessionQuery(key)),
      fetch("laps", SessionQuery(key)), TimingOf(sessionKeys, fetch), init);
  }

  /** Appending one more session's records keeps every record tied to a session so far. */
  lemma FromSessionsStep(before: Timing, key: string, rawStints: seq<RawRecord>, rawPitStops: seq<RawRecord>,
                         rawLaps: seq<RawRecord>, t: Timing, init: seq<string>)
    requires FromSessions(before, init)
    requires t.stints == before.stints + StintsOf(key, rawStints)
    requires t.pitStops == before.pitStops + PitStopsOf(key, rawPitStops)
    requires t.laps == before.laps + LapsOf(key, rawLaps)
    ensures FromSessions(t, init + [key])
  {
    OfSession(key, rawStints, rawPitStops, rawLaps);
    AppendedFromSessions(before.stints, StintsOf(key, rawStints), (s: Stint) => s.sessionId, init, key);
    AppendedFromSessions(before.pitStops, PitStopsOf(key, rawPitStops), (p: PitStop) => p.sessionId, init, key);
    AppendedFromSessions(before.laps, LapsOf(key, rawLaps), (l: Lap) => l.sessionId, init, key);
  }

  /** Records of the earlier sessions followed by records of one more session belong to the sessions so far. */
  lemma AppendedFromSessions<R>(before: seq<R>, added: seq<R>, sessionOf: R -> string, init: seq<string>, key: string)
    requires forall k :: 0 <= k < |before| ==> sessionOf(before[k]) in init
    requires forall k :: 0 <= k < |added| ==> sessionOf(added[k]) == key
    ensures forall k :: 0 <= k < |before + added| ==> sessionOf((before + added)[k]) in init + [key]
  {
    forall k | 0 <= k < |before + added| ensures sessionOf((before + added)[k]) in init + [key] {
      if k < |before| {
        assert (before + added)[k] == before[k];
      } else {
        assert (before + added)[k] == added[k - |before|];
      }
    }
  }

  /** The records normalised for a session carry its key. */
  lemma OfSession(key: string, stints: seq<RawRecord>, pitStops: seq<RawRecord>, laps: seq<RawRecord>)
    ensures forall k :: 0 <= k < |StintsOf(key, stints)| ==> StintsOf(key, stints)[k].sessionId == key
    ensures forall k :: 0 <= k < |PitStopsOf(key, pitStops)| ==> PitStopsOf(key, pitStops)[k].sessionId == key
    ensures forall k :: 0 <= k < |LapsOf(key, laps)| ==> LapsOf(key, laps)[k].sessionId == key
  {
  }

  // ---------------------------------------------------------------------------
  // Driver merge
  // ---------------------------------------------------------------------------

  /** The driver map of `fetchRaceSummary`: ids in insertion order and the driver entered for each. */
  datatype Registry = Registry(order: seq<string>, entries: map<string, Driver>)

  const EmptyRegistry := Registry([], map[])

  /** Each id entered once, and entered under the id of its driver. */
  predicate WellFormed(r: Registry) {
    Distinct(r.order)
    && (forall id :: id in r.order ==> id in r.entries)
    && (forall id :: id in r.entries ==> id in r.order)
    && (forall id :: id in r.entries ==> r.entries[id].id == id)
  }

  /** `if (!driverMap.has(d.id)) driverMap.set(d.id, d)`: the first driver entered under an id stays. */
  function Register(r: Registry, d: Driver): (result: Registry)
    ensures WellFormed(r) ==> WellFormed(result)
    ensures d.id in result.entries
  {
    if d.id in r.entries then r else Registry(r.order + [d.id], r.entries[d.id := d])
  }

  /** Entering a list of drivers one after the other. */
  function RegisterAll(r: Registry, ds: seq<Driver>): (result: Registry)
    ensures WellFormed(r) ==> WellFormed(result)
  {
    if ds == [] then r else Register(RegisterAll(r, ds[..|ds| - 1]), ds[|ds| - 1])
  }

  lemma RegisterAllSnoc(r: Registry, ds: seq<Driver>, d: Driver)
    ensures RegisterAll(r, ds + [d]) == Register(RegisterAll(r, ds), d)
  {
    assert (ds + [d])[..|ds|] == ds;
  }

  /** The placeholder entered for a driver met only in timing data. */
  function Placeholder(id: string): Driver {
    Driver(id, id, id, id, PlaceholderNumber(id), None, None, None)
  }

  /** `Number(id) || 0`: NaN and zero both give 0. */
  function PlaceholderNumber(id: string): real {
    match JsNumber(id)
    case Some(x) => x
    case None => 0.0
  }

  /** A placeholder for a driver number in canonical decimal form carries that number. */
  lemma PlaceholderNumberOfKey(n: nat)
    ensures Placeholder(NatText(n)).number == n as real
  {
    JsNumberOfIntText(n);
  }

  function DriversOf(raws: seq<RawRecord>): seq<Driver> {
    Map(raws, NormalizedDriverOf)
  }

  /** The normalised drivers of all driver responses, response after response. */
  function AllDrivers(responses: seq<seq<RawRecord>>): seq<Driver> {
    Flatten(Map(responses, DriversOf))
  }

  /** The driver map after the driver responses and then the placeholders for the ids seen. */
  function MergedRegistry(responses: seq<seq<RawRecord>>, seen: seq<string>): (r: Registry)
    ensures WellFormed(r)
  {
    RegisterAll(RegisterAll(EmptyRegistry, AllDrivers(responses)), Map(seen, Placeholder))
  }

  /** `Array.from(driverMap.values())`. */
  function Values(r: Registry): (values: seq<Driver>)
    requires WellFormed(r)
    ensures |values| == |r.order|
  {
    seq(|r.order|, k requires 0 <= k < |r.order| => r.entries[r.order[k]])
  }

  /** The comparator of the driver sort: `a.number - b.number <= 0`. */
  predicate NumberLe(a: Driver, b: Driver) {
    a.number <= b.number
  }

  /** The merged drivers, sorted by number. */
  function MergedDrivers(responses: seq<seq<RawRecord>>, seen: seq<string>): seq<Driver> {
    SortBy(Values(MergedRegistry(responses, seen)), NumberLe)
  }

  lemma {:induction false} RegisterAllAppend(r: Registry, a: seq<Driver>, b: seq<Driver>)
    ensures RegisterAll(r, a + b) == RegisterAll(RegisterAll(r, a), b)
  {
    if b == [] {
      assert a + b == a;
    } else {
      RegisterAllAppend(r, a, b[..|b| - 1]);
      assert (a + b)[..|a + b| - 1] == a + b[..|b| - 1];
      assert (a + b)[|a + b| - 1] == b[|b| - 1];
    }
  }

  /** One session's `drivers.forEach`: enters each normalised driver whose id is not yet in the map. */
  method EnterDrivers(order: seq<string>, entries: map<string, Driver>, raws: seq<RawRecord>)
    returns (newOrder: seq<string>, newEntries: map<string, Driver>)
    ensures Registry(newOrder, newEntries) == RegisterAll(Registry(order, entries), DriversOf(raws))
  {
    newOrder, newEntries := order, entries;
    for j := 0 to |raws|
      invariant Registry(newOrder, newEntries) == RegisterAll(Registry(order, entries), DriversOf(raws[..j]))
    {
      var normalized := NormalizeDriver(raws[j]);
      MapTakeSnoc(raws, j, NormalizedDriverOf);
      RegisterAllSnoc(Registry(order, entries), DriversOf(raws[..j]), normalized);
      if normalized.id !in newEntries {
        newOrder := newOrder + [normalized.id];
        newEntries := newEntries[normalized.id := normalized];
      }
    }
    TakeAll(raws);
  }

  /** `driverNumbers.forEach`: enters a placeholder for each id seen that has no driver yet. */
  method EnterPlaceholders(order: seq<string>, entries: map<string, Driver>, seen: seq<string>)
    returns (newOrder: seq<string>, newEntries: map<string, Driver>)
    ensures Registry(newOrder, newEntries) == RegisterAll(Registry(order, entries), Map(seen, Placeholder))
  {
    newOrder, newEntries := order, entries;
    for k := 0 to |seen|
      invariant Registry(newOrder, newEntries) == RegisterAll(Registry(order, entries), Map(seen[..k], Placeholder))
    {
      var driverId := seen[k];
      MapTakeSnoc(seen, k, Placeholder);
      RegisterAllSnoc(Registry(order, entries), Map(seen[..k], Placeholder), Placeholder(driverId));
      if driverId !in newEntries {
        newOrder := newOrder + [driverId];
        newEntries := newEntries[driverId := Placeholder(driverId)];
      }
    }
    TakeAll(seen);
  }

  lemma AllDriversSnoc(responses: seq<seq<RawRecord>>, i: nat)
    requires i < |responses|
    ensures AllDrivers(responses[..i + 1]) == AllDrivers(responses[..i]) + DriversOf(responses[i])
  {
    MapTakeSnoc(responses, i, DriversOf);
    assert Map(responses[..i + 1], DriversOf)[..i] == Map(responses[..i], DriversOf);
  }

  /**
   * The driver merge of `fetchRaceSummary`: the first normalised driver of each id is entered,
   * response after response; every id seen in timing data without a driver gets a placeholder;
   * the drivers are then sorted by number.
   */
  method MergeDrivers(responses: seq<seq<RawRecord>>, seen: seq<string>) returns (drivers: seq<Driver>)
    ensures drivers == MergedDrivers(responses, seen)
  {
    var order: seq<string> := [];
    var entries: map<string, Driver> := map[];
    for i := 0 to |responses|
      invariant Registry(order, entries) == RegisterAll(EmptyRegistry, AllDrivers(responses[..i]))
    {
      AllDriversSnoc(responses, i);
      RegisterAllAppend(EmptyRegistry, AllDrivers(responses[..i]), DriversOf(responses[i]));
      order, entries := EnterDrivers(order, entries, responses[i]);
    }
    TakeAll(responses);
    order, entries := EnterPlaceholders(order, entries, seen);
    assert Registry(order, entries) == MergedRegistry(responses, seen);
    var values := seq(|order|, k requires 0 <= k < |order| => entries[order[k]]);
    assert values == Values(MergedRegistry(responses, seen));
    drivers := SortBy(values, NumberLe);
  }

  /** An id in the map keeps its driver whatever is entered after it. */
  lemma {:induction false} RegisterAllKeeps(r: Registry, ds: seq<Driver>, id: string)
    requires id in r.entries
    ensures id in RegisterAll(r, ds).entries && RegisterAll(r, ds).entries[id] == r.entries[id]
  {
    if ds != [] {
      RegisterAllKeeps(r, ds[..|ds| - 1], id);
    }
  }

  /** Every driver entered has its id in the map afterwards. */
  lemma {:induction false} RegisterAllIncludes(r: Registry, ds: seq<Driver>, i: nat)
    requires i < |ds|
    ensures ds[i].id in RegisterAll(r, ds).entries
  {
    var init := ds[..|ds| - 1];
    if i < |init| {
      assert init[i] == ds[i];
      RegisterAllIncludes(r, init, i);
    }
  }

  /** An id none of the drivers has stays out of the map. */
  lemma {:induction false} RegisterAllExcludes(r: Registry, ds: seq<Driver>, id: string)
    requires id !in r.entries && forall j :: 0 <= j < |ds| ==> ds[j].id != id
    ensures id !in RegisterAll(r, ds).entries
  {
    if ds != [] {
      RegisterAllExcludes(r, ds[..|ds| - 1], id);
    }
  }

  /** An id new to the map is entered with the first driver of the list that has it. */
  lemma {:induction false} RegisterAllSource(r: Registry, ds: seq<Driver>, id: string) returns (i: nat)
    requires id in RegisterAll(r, ds).entries && id !in r.entries
    ensures i < |ds| && ds[i].id == id && RegisterAll(r, ds).entries[id] == ds[i]
    ensures forall j :: 0 <= j < i ==> ds[j].id != id
  {
    var init := ds[..|ds| - 1];
    if id in RegisterAll(r, init).entries {
      i := RegisterAllSource(r, init, id);
      assert init[i] == ds[i];
      assert forall j :: 0 <= j < i ==> init[j] == ds[j];
    } else {
      i := |ds| - 1;
      forall j | 0 <= j < i
        ensures ds[j].id != id
      {
        assert init[j] == ds[j];
        RegisterAllIncludes(r, init, j);
      }
    }
  }

  lemma InValues(r: Registry, id: string)
    requires WellFormed(r) && id in r.entries
    ensures r.entries[id] in Values(r)
  {
    var k :| 0 <= k < |r.order| && r.order[k] == id;
    assert Values(r)[k] == r.entries[id];
  }

  /** The first normalised driver of each id is the one the merge keeps. */
  lemma FirstDriverKept(responses: seq<seq<RawRecord>>, seen: seq<string>, i: nat)
    requires i < |AllDrivers(responses)|
    requires forall j :: 0 <= j < i ==> AllDrivers(responses)[j].id != AllDrivers(responses)[i].id
    ensures AllDrivers(responses)[i] in MergedDrivers(responses, seen)
  {
    var ds := AllDrivers(responses);
    var id := ds[i].id;
    var first := RegisterAll(EmptyRegistry, ds);
    RegisterAllIncludes(EmptyRegistry, ds, i);
    var source := RegisterAllSource(EmptyRegistry, ds, id);
    assert source == i;
    RegisterAllKeeps(first, Map(seen, Placeholder), id);
    var r := MergedRegistry(responses, seen);
    InValues(r, id);
    assert r.entries[id] in multiset(Values(r));
  }

  /** Every driver id met in timing data has a driver in the result. */
  lemma SeenDriverPresent(responses: seq<seq<RawRecord>>, seen: seq<string>, id: string)
    requires id in seen
    ensures exists d :: d in MergedDrivers(responses, seen) && d.id == id
  {
    var first := RegisterAll(EmptyRegistry, AllDrivers(responses));
    var k :| 0 <= k < |seen| && seen[k] == id;
    RegisterAllIncludes(first, Map(seen, Placeholder), k);
    var r := MergedRegistry(responses, seen);
    InValues(r, id);
    assert r.entries[id] in multiset(Values(r));
  }

  /** An id met in timing data that no driver response has gets the placeholder. */
  lemma PlaceholderForUnknownDriver(responses: seq<seq<RawRecord>>, seen: seq<string>, id: string)
    requires id in seen
    requires forall j :: 0 <= j < |AllDrivers(responses)| ==> AllDrivers(responses)[j].id != id
    ensures Placeholder(id) in MergedDrivers(responses, seen)
  {
    var ds := AllDrivers(responses);
    var first := RegisterAll(EmptyRegistry, ds);
    var placeholders := Map(seen, Placeholder);
    RegisterAllExcludes(EmptyRegistry, ds, id);
    var k :| 0 <= k < |seen| && seen[k] == id;
    RegisterAllIncludes(first, placeholders, k);
    var i := RegisterAllSource(first, placeholders, id);
    var r := MergedRegistry(responses, seen);
    assert r.entries[id] == Placeholder(seen[i]) && seen[i] == id;
    InValues(r, id);
    assert r.entries[id] in multiset(Values(r));
  }

  /**
   * Every driver of the result is either the first normalised driver of its id, or the
   * placeholder of an id met in timing data that no driver response has.
   */
  lemma MergedDriverOrigin(responses: seq<seq<RawRecord>>, seen: seq<string>, d: Driver)
    requires d in MergedDrivers(responses, seen)
    ensures var ds := AllDrivers(responses);
      (exists i :: 0 <= i < |ds| && ds[i] == d && forall j :: 0 <= j < i ==> ds[j].id != d.id)
      || (d.id in seen && d == Placeholder(d.id) && forall j :: 0 <= j < |ds| ==> ds[j].id != d.id)
  {
    var ds := AllDrivers(responses);
    var first := RegisterAll(EmptyRegistry, ds);
    var placeholders := Map(seen, Placeholder);
    var r := MergedRegistry(responses, seen);
    assert d in multiset(Values(r));
    var k :| 0 <= k < |r.order| && Values(r)[k] == d;
    var id := r.order[k];
    assert d == r.entries[id] && d.id == id;
    if id in first.entries {
      RegisterAllKeeps(first, placeholders, id);
      var i := RegisterAllSource(EmptyRegistry, ds, id);
    } else {
      var i := RegisterAllSource(first, placeholders, id);
      assert d == Placeholder(seen[i]) && seen[i] == id;
      forall j | 0 <= j < |ds|
        ensures ds[j].id != id
      {
        RegisterAllIncludes(EmptyRegistry, ds, j);
      }
    }
  }

  /** The merged drivers are sorted by number, and are exactly the drivers of the map. */
  lemma MergedDriversSorted(responses: seq<seq<RawRecord>>, seen: seq<string>)
    ensures var drivers := MergedDrivers(responses, seen);
      (forall i, j :: 0 <= i < j < |drivers| ==> drivers[i].number <= drivers[j].number)
      && multiset(drivers) == multiset(Values(MergedRegistry(responses, seen)))
  {
    assert Total(NumberLe) && Transitive(NumberLe);
    SortBySorted(Values(MergedRegistry(responses, seen)), NumberLe);
  }

  // ---------------------------------------------------------------------------
  // Race header
  // ---------------------------------------------------------------------------

  datatype RaceInfo = RaceInfo(
    id: string,
    season: real,
    round: real,
    name: string,
    circuit: string,
    location: string,
    startedAt: string,
    completedAt: Option<string>)

  /**
   * The race header: name from `grand_prix`/`event_name` or `Race <key>`; circuit or "";
   * season and round default to 0; the start falls back to the first ordered session and then
   * to the epoch, the end to the last ordered session's end.
   */
  function RaceInfoOf(race: RawRecord, sessions: seq<Session>, parseDate: DateParser): (r: RaceInfo)
    ensures r.id == ValueString(Field(race, "race_key"))
    ensures PickString(race, ["grand_prix", "event_name"]).None? ==> r.name == "Race " + r.id
    ensures PickString(race, ["grand_prix", "event_name"]).Some? ==> r.name == PickString(race, ["grand_prix", "event_name"]).value
    ensures CoerceString(Field(race, "circuit")).None? ==> r.circuit == ""
    ensures CoerceNumber(Field(race, "year")).None? ==> r.season == 0.0
    ensures CoerceNumber(Field(race, "round")).None? ==> r.round == 0.0
    ensures RaceStart(race, parseDate).Some? ==> r.startedAt == RaceStart(race, parseDate).value
    ensures RaceStart(race, parseDate).None? && |sessions| > 0 ==> r.startedAt == sessions[0].startedAt
    ensures RaceStart(race, parseDate).None? && |sessions| == 0 ==> r.startedAt == EpochIso
    ensures RaceEnd(race, parseDate).Some? ==> r.completedAt == RaceEnd(race, parseDate)
    ensures RaceEnd(race, parseDate).None? && |sessions| > 0 ==> r.completedAt == sessions[|sessions| - 1].endedAt
    ensures RaceEnd(race, parseDate).None? && |sessions| == 0 ==> r.completedAt.None?
  {
    PickSingle(race, "circuit");
    var key := ValueString(Field(race, "race_key"));
    var raceEnd := RaceEnd(race, parseDate);
    RaceInfo(
      key,
      GetFirstDefined(CoerceNumber(Field(race, "year")), 0.0),
      GetFirstDefined(CoerceNumber(Field(race, "round")), 0.0),
      GetFirstDefined(PickString(race, ["grand_prix", "event_name"]), "Race " + key),
      GetFirstDefined(PickString(race, ["circuit"]), ""),
      ResolveRaceLocation(race),
      GetFirstDefined(RaceStart(race, parseDate), if |sessions| > 0 then sessions[0].startedAt else EpochIso),
      if raceEnd.Some? then raceEnd else if |sessions| > 0 then sessions[|sessions| - 1].endedAt else None)
  }

  /**
   * Without a race start of its own, the race starts with its earliest session: no ordered
   * session starts before it.
   */
  lemma RaceStartsWithEarliestSession(race: RawRecord, sessions: seq<Session>, parseDate: DateParser)
    requires RaceStart(race, parseDate).None? && |sessions| > 0
    ensures var ordered := OrderSessions(sessions);
      forall k :: 0 <= k < |ordered| ==> StrLe(RaceInfoOf(race, ordered, parseDate).startedAt, ordered[k].startedAt)
  {
    var ordered := OrderSessions(sessions);
    OrderedSessions(sessions);
    StrLeReflexive(ordered[0].startedAt);
  }

  // ---------------------------------------------------------------------------
  // The whole summary
  // ---------------------------------------------------------------------------

  datatype RaceReport = RaceReport(
    race: RaceInfo,
    sessions: seq<Session>,
    drivers: seq<Driver>,
    stints: seq<Stint>,
    pitStops: seq<PitStop>,
    laps: seq<Lap>,
    metrics: Metrics)

  /** The driver response of a session. */
  function DriverResponse(fetch: Fetch): string -> seq<RawRecord> {
    sessionKey => fetch("drivers", SessionQuery(sessionKey))
  }

  /**
   * The summary of a found race: the kept sessions ordered by start; timing and drivers
   * gathered over the kept sessions in response order; the metrics of the gathered laps.
   */
  function ReportOf(race: RawRecord, raceKey: string, allowed: seq<SessionType>, fetch: Fetch, parseDate: DateParser): RaceReport {
    var kept := KeptSessions(race, fetch("sessions", RaceParams(raceKey)), allowed, parseDate);
    var keys := SessionIds(kept);
    var sessions := OrderSessions(kept);
    var timing := TimingOf(keys, fetch);
    RaceReport(
      RaceInfoOf(race, sessions, parseDate),
      sessions,
      MergedDrivers(Map(keys, DriverResponse(fetch)), timing.driverIds),
      timing.stints,
      timing.pitStops,
      timing.laps,
      MetricsOf(timing.laps))
  }

  /**
   * `fetchRaceSummary`: not found when the race query answers with no race; otherwise the
   * summary of the first race answered.
   */
  method FetchRaceSummary(raceKey: string, allowed: seq<SessionType>, fetch: Fetch, parseDate: DateParser)
    returns (result: Result<RaceReport, Error>)
    ensures fetch("races", RaceParams(raceKey)) == [] ==> result == Err(RaceNotFound(raceKey))
    ensures fetch("races", RaceParams(raceKey)) != [] ==>
      result == Ok(ReportOf(fetch("races", RaceParams(raceKey))[0], raceKey, allowed, fetch, parseDate))
  {
    var raceParams := RaceParams(raceKey);
    var races := fetch("races", raceParams);
    if |races| == 0 {
      return Err(RaceNotFound(raceKey));
    }
    var race := races[0];
    var sessionSummaries, sessionKeyList := CollectSessions(race, fetch("sessions", raceParams), allowed, parseDate);
    sessionSummaries := OrderSessions(sessionSummaries);
    var timing := CollectTiming(sessionKeyList, fetch);
    var driverResponses := Map(sessionKeyList, DriverResponse(fetch));
    var drivers := MergeDrivers(driverResponses, timing.driverIds);
    var metrics := CalculateMetrics(timing.laps);
    var info := RaceInfoOf(race, sessionSummaries, parseDate);
    result := Ok(RaceReport(info, sessionSummaries, drivers, timing.stints, timing.pitStops, timing.laps, metrics));
  }

  /** Every driver met in the stints, pit stops or laps of the summary has a driver entry. */
  lemma ReportDriversCoverTiming(race: RawRecord, raceKey: string, allowed: seq<SessionType>, fetch: Fetch, parseDate: DateParser)
    ensures var report := ReportOf(race, raceKey, allowed, fetch, parseDate);
      forall id :: id in Map(report.stints, StintDriverId) || id in Map(report.pitStops, PitStopDriverId) || id in Map(report.laps, LapDriverId) ==>
        exists d :: d in report.drivers && d.id == id
  {
    var kept := KeptSessions(race, fetch("sessions", RaceParams(raceKey)), allowed, parseDate);
    var keys := SessionIds(kept);
    var timing := TimingOf(keys, fetch);
    TimingDriverIds(keys, fetch);
    forall id | id in timing.driverIds
      ensures exists d :: d in MergedDrivers(Map(keys, DriverResponse(fetch)), timing.driverIds) && d.id == id
    {
      SeenDriverPresent(Map(keys, DriverResponse(fetch)), timing.driverIds, id);
    }
  }

  /** Every stint, pit stop and lap of the summary belongs to one of its sessions. */
  lemma ReportTimingFromSessions(race: RawRecord, raceKey: string, allowed: seq<SessionType>, fetch: Fetch, parseDate: DateParser)
    ensures var report := ReportOf(race, raceKey, allowed, fetch, parseDate);
      FromSessions(Timing(report.stints, report.pitStops, report.laps, []), SessionIds(report.sessions))
  {
    var kept := KeptSessions(race, fetch("sessions", RaceParams(raceKey)), allowed, parseDate);
    var keys := SessionIds(kept);
    var timing := TimingOf(keys, fetch);
    TimingSessions(keys, fetch);
    OrderedSessions(kept);
    SessionIdsOfPermutation(kept, OrderSessions(kept));
    FromMoreSessions(Timing(timing.stints, timing.pitStops, timing.laps, []), keys, SessionIds(OrderSessions(kept)));
  }

  lemma FromMoreSessions(t: Timing, keys: seq<string>, more: seq<string>)
    requires FromSessions(t, keys) && forall id :: id in keys ==> id in more
    ensures FromSessions(t, more)
  {
  }

  /** Reordering sessions keeps their ids. */
  lemma SessionIdsOfPermutation(a: seq<Session>, b: seq<Session>)
    requires multiset(a) == multiset(b)
    ensures forall id :: id in SessionIds(a) ==> id in SessionIds(b)
  {
    forall id | id in SessionIds(a)
      ensures id in SessionIds(b)
    {
      var k :| 0 <= k < |a| && SessionIds(a)[k] == id;
      assert a[k] in multiset(b);
      var m :| 0 <= m < |b| && b[m] == a[k];
      assert SessionIds(b)[m] == id;
    }
  }

  // ---------------------------------------------------------------------------
  // resolveDriverName
  // ---------------------------------------------------------------------------

  /** `resolveDriverName`: the trimmed `first last` of the driver with the id, or the id itself. */
  function ResolveDriverName(drivers: map<string, Driver>, driverId: string): (name: string)
    ensures driverId !in drivers ==> name == driverId
    ensures IsTrimmed(name) || driverId !in drivers
  {
    if driverId !in drivers then driverId
    else Trim(drivers[driverId].firstName + " " + drivers[driverId].lastName)
  }

  /** Trimmed, non-empty names are joined by a single space and nothing is cut off. */
  lemma ResolveDriverNameJoins(drivers: map<string, Driver>, driverId: string)
    requires driverId in drivers
    requires var d := drivers[driverId]; d.firstName != [] && d.lastName != [] && IsTrimmed(d.firstName) && IsTrimmed(d.lastName)
    ensures ResolveDriverName(drivers, driverId) == drivers[driverId].firstName + " " + drivers[driverId].lastName
  {
    var d := drivers[driverId];
    var joined := d.firstName + " " + d.lastName;
    assert joined[0] == d.firstName[0] && joined[|joined| - 1] == d.lastName[|d.lastName| - 1];
    TrimOfTrimmed(joined);
  }
}
