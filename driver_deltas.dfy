/**
 * `fetchDriverLapDeltas` (`openf1-driver.ts`): the driver's query filters, the choice of the
 * driver record, the fallback driver, the not-found rule, the grouping of the laps into one
 * summary per session, the session order and the finalisation of every session. The timing
 * API is a parameter: `fetch(resource, params)` is the list it answers with.
 */
module DriverDeltas {
  import opened Wrappers
  import opened JsText
  import opened JsValues
  import opened OpenF1
  import opened OpenF1Utils
  import opened Normalizers
  import opened Sorting
  import opened Lists
  import opened SessionLaps
  import Summary
  import RaceSummary

  /** `DriverLapDeltaOptions`: every field may be absent. */
  datatype Options = Options(year: Option<real>, season: Option<real>, raceKey: Option<string>, sessionKey: Option<string>)

  // ---------------------------------------------------------------------------
  // mergeOptions
  // ---------------------------------------------------------------------------

  /** The driver filter: `Number(param)` when that is finite, else the text itself. */
  function DriverFilter(param: string): (f: QueryScalar)
    ensures f.QStr? <==> JsNumber(param).None?
    ensures f.QStr? ==> f.s == param
    ensures f.QNum? ==> f == QNum(Finite(JsNumber(param).value))
  {
    match JsNumber(param)
    case Some(x) => QNum(Finite(x))
    case None => QStr(param)
  }

  /** A driver number written in canonical decimal form is sent back as the same digits. */
  lemma DriverFilterOfNumber(n: nat)
    ensures DriverFilter(NatText(n)) == QNum(Finite(n as real))
    ensures ScalarText(DriverFilter(NatText(n))) == NatText(n)
  {
    JsNumberOfIntText(n);
    NumberTextOfInt(n);
  }

  /** `options.year ?? options.season`. */
  function Season(options: Options): Option<real> {
    if options.year.Some? then options.year else options.season
  }

  /** The value stored under `key` in a parameter record, if any. */
  function Lookup(params: Params, key: string): Option<QueryValue> {
    if params == [] then None
    else if params[0].0 == key then Some(params[0].1)
    else Lookup(params[1..], key)
  }

  function SessionFilter(options: Options): Params {
    if Truthy(options.sessionKey) then [("session_key", QScalar(QStr(options.sessionKey.value)))] else []
  }

  function RaceFilter(options: Options): Params {
    if Truthy(options.raceKey) then [("race_key", QScalar(QStr(options.raceKey.value)))] else []
  }

  function YearFilter(options: Options): Params {
    if Season(options).Some? then [("year", QScalar(QNum(Finite(Season(options).value))))] else []
  }

  /** The filters shared by the driver and the lap queries, in the order the code assigns them. */
  function MergedFilters(param: string, options: Options): (filters: Params)
    ensures |filters| >= 1 && filters[0] == ("driver_number", QScalar(DriverFilter(param)))
  {
    [("driver_number", QScalar(DriverFilter(param)))] + (SessionFilter(options) + (RaceFilter(options) + YearFilter(options)))
  }

  /** A record without the key does not hold it. */
  lemma {:induction false} LookupAbsent(params: Params, key: string)
    requires forall i :: 0 <= i < |params| ==> params[i].0 != key
    ensures Lookup(params, key).None?
  {
    if params != [] {
      assert params[0].0 != key;
      LookupAbsent(params[1..], key);
    }
  }

  /** The first entry under the key wins. */
  lemma LookupFirst(entry: (string, QueryValue), rest: Params, key: string)
    ensures Lookup([entry] + rest, key) == if entry.0 == key then Some(entry.1) else Lookup(rest, key)
  {
    assert ([entry] + rest)[1..] == rest;
  }

  lemma {:induction false} LookupAppend(a: Params, b: Params, key: string)
    requires forall i :: 0 <= i < |a| ==> a[i].0 != key
    ensures Lookup(a + b, key) == Lookup(b, key)
  {
    if a != [] {
      assert a[0].0 != key;
      LookupFirst(a[0], a[1..] + b, key);
      assert a + b == [a[0]] + (a[1..] + b);
      LookupAppend(a[1..], b, key);
    } else {
      assert a + b == b;
    }
  }

  /**
   * The filter record holds the session key and the race key when they are non-empty text, and
   * the year (else the season) when one is given.
   */
  lemma MergedFiltersLookup(param: string, options: Options)
    ensures Lookup(MergedFilters(param, options), "session_key") ==
      if Truthy(options.sessionKey) then Some(QScalar(QStr(options.sessionKey.value))) else None
    ensures Lookup(MergedFilters(param, options), "race_key") ==
      if Truthy(options.raceKey) then Some(QScalar(QStr(options.raceKey.value))) else None
    ensures Lookup(MergedFilters(param, options), "year") ==
      if Season(options).Some? then Some(QScalar(QNum(Finite(Season(options).value)))) else None
  {
    var head := ("driver_number", QScalar(DriverFilter(param)));
    var rest := SessionFilter(options) + (RaceFilter(options) + YearFilter(options));
    assert |"driver_number"| == 13 && |"session_key"| == 11 && |"race_key"| == 8 && |"year"| == 4;
    LookupFirst(head, rest, "session_key");
    LookupFirst(head, rest, "race_key");
    LookupFirst(head, rest, "year");
    LookupsOfRest(options);
  }

  lemma LookupsOfRest(options: Options)
    ensures Lookup(SessionFilter(options) + (RaceFilter(options) + YearFilter(options)), "session_key") ==
      if Truthy(options.sessionKey) then Some(QScalar(QStr(options.sessionKey.value))) else None
    ensures Lookup(SessionFilter(options) + (RaceFilter(options) + YearFilter(options)), "race_key") ==
      if Truthy(options.raceKey) then Some(QScalar(QStr(options.raceKey.value))) else None
    ensures Lookup(SessionFilter(options) + (RaceFilter(options) + YearFilter(options)), "year") ==
      if Season(options).Some? then Some(QScalar(QNum(Finite(Season(options).value)))) else None
  {
    var session, race, year := SessionFilter(options), RaceFilter(options), YearFilter(options);
    assert |"session_key"| == 11 && |"race_key"| == 8 && |"year"| == 4;
    LookupAbsent(year, "session_key");
    LookupAbsent(year, "race_key");
    LookupAbsent([], "year");
    LookupAppend(session, race + year, "race_key");
    LookupAppend(session, race + year, "year");
    LookupAppend(race, year, "year");
    LookupAppend(race, year, "session_key");
    if session != [] {
      LookupFirst(session[0], race + year, "session_key");
      assert session + (race + year) == [session[0]] + (race + year);
    } else {
      assert session + (race + year) == race + year;
    }
    if race != [] {
      LookupFirst(race[0], year, "race_key");
      assert race + year == [race[0]] + year;
    } else {
      assert race + year == year;
    }
    if year != [] {
      LookupFirst(year[0], [], "year");
      assert year == [year[0]] + [];
    }
  }

  /** `mergeOptions`: the driver filter and the filter record, assigned field by field. */
  method MergeOptions(driverNumberParam: string, options: Options) returns (driverFilter: QueryScalar, filters: Params)
    ensures driverFilter == DriverFilter(driverNumberParam)
    ensures filters == MergedFilters(driverNumberParam, options)
  {
    var numericDriver := ParseNumber(driverNumberParam);
    driverFilter := if numericDriver.Finite? then QNum(numericDriver) else QStr(driverNumberParam);
    filters := [("driver_number", QScalar(driverFilter))];
    ghost var head := filters;
    if Truthy(options.sessionKey) {
      filters := filters + [("session_key", QScalar(QStr(options.sessionKey.value)))];
    }
    assert filters == head + SessionFilter(options);
    if Truthy(options.raceKey) {
      filters := filters + [("race_key", QScalar(QStr(options.raceKey.value)))];
    }
    assert filters == (head + SessionFilter(options)) + RaceFilter(options);
    var season := if options.year.Some? then options.year else options.season;
    if season.Some? {
      filters := filters + [("year", QScalar(QNum(Finite(season.value))))];
    }
    ghost var session, race, year := SessionFilter(options), RaceFilter(options), YearFilter(options);
    assert filters == ((head + session) + race) + year;
    AppendAssoc(head + session, race, year);
    AppendAssoc(head, session, race + year);
  }

  // ---------------------------------------------------------------------------
  // createFallbackDriver
  // ---------------------------------------------------------------------------

  /**
   * The driver made up when no driver record answers: every name is the id; the code is the
   * number padded to two characters when the id is numeric, else the id; the number is 0 for
   * a non-numeric id.
   */
  function CreateFallbackDriver(driverId: string): (d: Driver)
    ensures d.id == driverId && d.firstName == driverId && d.lastName == driverId
    ensures d.country.None? && d.teamId.None? && d.team.None?
    ensures JsNumber(driverId).None? ==> d.code == driverId && d.number == 0.0
    ensures JsNumber(driverId).Some? ==> d.number == JsNumber(driverId).value && |d.code| >= 2
  {
    var number := ParseNumber(driverId);
    Driver(
      driverId, driverId, driverId,
      if number.Finite? then PadStart(NumberString(number), 2, '0') else driverId,
      if number.Finite? then number.value else 0.0,
      None, None, None)
  }

  /** For a driver number the code is the number with a leading zero below ten. */
  lemma FallbackDriverOfNumber(n: nat)
    ensures CreateFallbackDriver(NatText(n)).number == n as real
    ensures CreateFallbackDriver(NatText(n)).code == if n < 10 then "0" + NatText(n) else NatText(n)
  {
    JsNumberOfIntText(n);
    NumberTextOfInt(n);
    if n >= 10 {
      assert |NatText(n)| >= 2;
    }
  }

  // ---------------------------------------------------------------------------
  // The driver record
  // ---------------------------------------------------------------------------

  /**
   * The test `find` applies to a driver record: the session key when one is given, else the
   * race key when one is given, compared after coercion to a number (two keys that are not
   * numbers compare equal, as two nulls do), else any record.
   */
  predicate Preferred(options: Options, entry: RawRecord) {
    if Truthy(options.sessionKey) then
      CoerceNumber(Field(entry, "session_key")) == CoerceNumber(JStr(options.sessionKey.value))
    else if Truthy(options.raceKey) then
      CoerceNumber(Field(entry, "race_key")) == CoerceNumber(JStr(options.raceKey.value))
    else true
  }

  /** `findIndex`: the first record that passes the test. */
  function FirstPreferred(entries: seq<RawRecord>, options: Options): (r: Option<nat>)
    ensures r.Some? ==> r.value < |entries| && Preferred(options, entries[r.value])
    ensures r.Some? ==> forall k :: 0 <= k < r.value ==> !Preferred(options, entries[k])
    ensures r.None? ==> forall k :: 0 <= k < |entries| ==> !Preferred(options, entries[k])
  {
    if entries == [] then None
    else if Preferred(options, entries[0]) then Some(0)
    else
      match FirstPreferred(entries[1..], options)
      case Some(i) => Some(i + 1)
      case None => None
  }

  /** `find(...) ?? entries[0]`: the first matching record, else the first record, else none. */
  function PreferredEntry(entries: seq<RawRecord>, options: Options): (r: Option<RawRecord>)
    ensures r.None? <==> entries == []
    ensures r.Some? ==> r.value in entries
    ensures (exists k :: 0 <= k < |entries| && Preferred(options, entries[k])) ==> r.Some? && Preferred(options, r.value)
  {
    match FirstPreferred(entries, options)
    case Some(i) => Some(entries[i])
    case None => if entries == [] then None else Some(entries[0])
  }

  /** Without a session key or a race key the first record is taken. */
  lemma PreferredEntryWithoutKeys(entries: seq<RawRecord>, options: Options)
    requires !Truthy(options.sessionKey) && !Truthy(options.raceKey) && entries != []
    ensures PreferredEntry(entries, options) == Some(entries[0])
  {
  }

  /** With a session key that is not a number, a record without a session key passes the test. */
  lemma PreferredEntryNullKeys()
    ensures Preferred(Options(None, None, None, Some("x")), map[])
  {
    assert NoSpace("x");
    TrimOfNoSpace("x");
    assert LeadingDigits("x") == 0;
    assert ParseUnsigned("x").None?;
    assert CoerceNumber(JStr("x")).None?;
  }

  // ---------------------------------------------------------------------------
  // Session keys
  // ---------------------------------------------------------------------------

  /** `String(coerceNumber(lap.session_key))`, or none when the key does not coerce. */
  function SessionKeyOf(lap: RawRecord): Option<string> {
    match CoerceNumber(Field(lap, "session_key"))
    case Some(k) => Some(NumberText(k))
    case None => None
  }

  predicate HasSessionKey(lap: RawRecord) {
    SessionKeyOf(lap).Some?
  }

  /** The session key of a lap that has one. */
  function KeyText(lap: RawRecord): string {
    match SessionKeyOf(lap)
    case Some(k) => k
    case None => ""
  }

  /** The `Set` of session keys, in order of first appearance. */
  function SessionKeysOf(laps: seq<RawRecord>): (keys: seq<string>)
    ensures Distinct(keys)
  {
    AddAll([], FilterMap(laps, HasSessionKey, KeyText))
  }

  lemma SessionKeysSnoc(laps: seq<RawRecord>, i: nat)
    requires i < |laps|
    ensures SessionKeysOf(laps[..i + 1]) ==
      if HasSessionKey(laps[i]) then Add(SessionKeysOf(laps[..i]), KeyText(laps[i])) else SessionKeysOf(laps[..i])
  {
    FilterMapSnoc(laps, i, HasSessionKey, KeyText);
    var extra := if HasSessionKey(laps[i]) then [KeyText(laps[i])] else [];
    AddAllAppend([], FilterMap(laps[..i], HasSessionKey, KeyText), extra);
    if extra != [] {
      assert extra[..0] == [];
    }
  }

  /** Every lap with a key has its key listed. */
  lemma SessionKeyListed(laps: seq<RawRecord>, i: nat)
    requires i < |laps| && SessionKeyOf(laps[i]).Some?
    ensures SessionKeyOf(laps[i]).value in SessionKeysOf(laps)
  {
    FilterMapIncludes(laps, HasSessionKey, KeyText, i);
  }

  /** Every listed key is the key of some lap. */
  lemma SessionKeySource(laps: seq<RawRecord>, key: string) returns (i: nat)
    requires key in SessionKeysOf(laps)
    ensures i < |laps| && SessionKeyOf(laps[i]) == Some(key)
  {
    var mapped := FilterMap(laps, HasSessionKey, KeyText);
    var k :| 0 <= k < |mapped| && mapped[k] == key;
    i := FilterMapSource(laps, HasSessionKey, KeyText, k);
  }

  /** The `forEach` that fills the set of session keys. */
  method CollectSessionKeys(lapEntries: seq<RawRecord>) returns (sessionKeys: seq<string>)
    ensures sessionKeys == SessionKeysOf(lapEntries)
  {
    sessionKeys := [];
    for i := 0 to |lapEntries|
      invariant sessionKeys == SessionKeysOf(lapEntries[..i])
    {
      SessionKeysSnoc(lapEntries, i);
      var sessionKey := CoerceNumber(Field(lapEntries[i], "session_key"));
      if sessionKey.Some? {
        var key := NumberText(sessionKey.value);
        if key !in sessionKeys {
          sessionKeys := sessionKeys + [key];
        }
      }
    }
    TakeAll(lapEntries);
  }

  // ---------------------------------------------------------------------------
  // The not-found rule
  // ---------------------------------------------------------------------------

  /** The error raised when the driver has neither laps nor a driver record. */
  function NoLapData(driverId: string): Error {
    NotFound("Driver " + driverId + " has no lap data available")
  }

  /** The three-part test of the code fails exactly when both responses are empty. */
  lemma NotFoundCondition(laps: seq<RawRecord>, entries: seq<RawRecord>, options: Options)
    ensures (|SessionKeysOf(laps)| == 0 && |laps| == 0 && PreferredEntry(entries, options).None?)
      <==> laps == [] && entries == []
  {
    if laps == [] {
      assert FilterMap(laps, HasSessionKey, KeyText) == [];
    }
  }

  // ---------------------------------------------------------------------------
  // Session records
  // ---------------------------------------------------------------------------

  /** The query for one session's record. */
  function SessionQuery(sessionKey: string): Params {
    [("session_key", QScalar(QStr(sessionKey)))]
  }

  /** `entries[0] ?? null` of the session query. */
  function SessionInfo(fetch: RaceSummary.Fetch, sessionKey: string): Option<RawRecord> {
    var entries := fetch("sessions", SessionQuery(sessionKey));
    if entries == [] then None else Some(entries[0])
  }

  /** `sessionInfoByKey.get(key)`, where a missing key reads as null. */
  function InfoFor(infoByKey: map<string, Option<RawRecord>>, key: string): Option<RawRecord> {
    if key in infoByKey then infoByKey[key] else None
  }

  /** The `forEach` that fills `sessionInfoByKey` from the answers to the session queries. */
  method BuildInfoByKey(sessionKeys: seq<string>, fetch: RaceSummary.Fetch) returns (infoByKey: map<string, Option<RawRecord>>)
    ensures forall k :: k in infoByKey <==> k in sessionKeys
    ensures forall k :: k in sessionKeys ==> infoByKey[k] == SessionInfo(fetch, k)
  {
    infoByKey := map[];
    for i := 0 to |sessionKeys|
      invariant forall k :: k in infoByKey <==> k in sessionKeys[..i]
      invariant forall k :: k in infoByKey ==> infoByKey[k] == SessionInfo(fetch, k)
    {
      assert sessionKeys[..i + 1] == sessionKeys[..i] + [sessionKeys[i]];
      var entries := fetch("sessions", SessionQuery(sessionKeys[i]));
      var detail := if entries == [] then None else Some(entries[0]);
      infoByKey := infoByKey[sessionKeys[i] := detail];
    }
    TakeAll(sessionKeys);
  }

  /** `session.race_key` coerced to a number and printed, or null. */
  function RaceIdOf(info: RawRecord): Option<string> {
    match CoerceNumber(Field(info, "race_key"))
    case Some(k) => Some(NumberText(k))
    case None => None
  }

  /**
   * The header of a new session summary. With a session record: its type, start, race and
   * name (falling back to `Session <key>`). Without one: race when the caller asked for a
   * session key, practice otherwise, no start, no race, and the name `Session <key>`.
   */
  function NewSessionHeader(sessionKey: string, info: Option<RawRecord>, options: Options, parseDate: RaceSummary.DateParser): SessionHeader
  {
    match info
    case None =>
      SessionHeader(sessionKey, None, "Session " + sessionKey,
        if Truthy(options.sessionKey) then Summary.Race else Summary.Practice, None)
    case Some(record) =>
      SessionHeader(sessionKey, RaceIdOf(record),
        GetFirstDefined(PickString(record, ["session_name"]), "Session " + sessionKey),
        Summary.ResolveSessionType(record),
        CombineDateAndTime(Field(record, "start_date"), Field(record, "start_time"), parseDate))
  }

  /** What the header holds, with a session record and without. */
  lemma NewSessionHeaderMeaning(sessionKey: string, info: Option<RawRecord>, options: Options, parseDate: RaceSummary.DateParser)
    ensures NewSessionHeader(sessionKey, info, options, parseDate).sessionId == sessionKey && NewSessionHeader(sessionKey, info, options, parseDate).name != []
    ensures info.None? ==> NewSessionHeader(sessionKey, info, options, parseDate).raceId.None? && NewSessionHeader(sessionKey, info, options, parseDate).startedAt.None? && NewSessionHeader(sessionKey, info, options, parseDate).name == "Session " + sessionKey
    ensures info.None? ==> NewSessionHeader(sessionKey, info, options, parseDate).sessionType == if Truthy(options.sessionKey) then Summary.Race else Summary.Practice
    ensures info.Some? ==> NewSessionHeader(sessionKey, info, options, parseDate).sessionType == Summary.ResolveSessionType(info.value)
    ensures info.Some? && PickString(info.value, ["session_name"]).Some? ==> NewSessionHeader(sessionKey, info, options, parseDate).name == PickString(info.value, ["session_name"]).value
  {
  }

  /**
   * The header as the code computes it: the name is read with `pickString` from the session
   * record even when there is none, and reading a field of null raises a `TypeError`.
   */
  function NewSessionHeaderAsWritten(sessionKey: string, info: Option<RawRecord>, options: Options, parseDate: RaceSummary.DateParser): (r: Result<SessionHeader, Error>)
    ensures r.Err? <==> info.None?
  {
    var name: Result<string, Error> :=
      match info
      case None => Err(TypeError("Cannot read properties of null (reading 'session_name')"))
      case Some(record) => Ok(GetFirstDefined(PickString(record, ["session_name"]), "Session " + sessionKey));
    match name
    case Err(e) => Err(e)
    case Ok(n) =>
      Ok(SessionHeader(sessionKey,
        if info.Some? then RaceIdOf(info.value) else None,
        n,
        if info.Some? then Summary.ResolveSessionType(info.value)
        else if Truthy(options.sessionKey) then Summary.Race else Summary.Practice,
        if info.Some? then CombineDateAndTime(Field(info.value, "start_date"), Field(info.value, "start_time"), parseDate) else None))
  }

  /** With a session record the two agree. */
  lemma HeaderAsWrittenWithRecord(sessionKey: string, record: RawRecord, options: Options, parseDate: RaceSummary.DateParser)
    ensures NewSessionHeaderAsWritten(sessionKey, Some(record), options, parseDate) ==
      Ok(NewSessionHeader(sessionKey, Some(record), options, parseDate))
  {
  }

  /**
   * A lap whose session query answers with no record: the code fails with a `TypeError`
   * although its `Session <key>` fallback shows that a name was meant to be made up.
   */
  lemma HeaderAsWrittenWithoutRecord(options: Options, parseDate: RaceSummary.DateParser)
    ensures NewSessionHeaderAsWritten("9158", None, options, parseDate).Err?
    ensures NewSessionHeaderAsWritten("9158", None, options, parseDate).error.TypeError?
    ensures NewSessionHeader("9158", None, options, parseDate).name == "Session 9158"
  {
  }

  // ---------------------------------------------------------------------------
  // Grouping the laps by session
  // ---------------------------------------------------------------------------

  /** `createLapDeltaFromNormalized(normalizeLap(sessionKey, lap))`. */
  function DeltaOf(sessionKey: string, lap: RawRecord): LapDelta {
    LapDeltaOf(NormalizeLap(sessionKey, lap))
  }

  /** Whether a lap belongs to the session. */
  function InSession(sessionKey: string): RawRecord -> bool {
    lap => SessionKeyOf(lap) == Some(sessionKey)
  }

  /** The delta a lap of the session contributes. */
  function DeltaFor(sessionKey: string): RawRecord -> LapDelta {
    lap => DeltaOf(sessionKey, lap)
  }

  /** The laps of one session, in response order, before finalising. */
  function LapsOfSession(laps: seq<RawRecord>, sessionKey: string): seq<LapDelta> {
    FilterMap(laps, InSession(sessionKey), DeltaFor(sessionKey))
  }

  /** A lap of another session, or with no key, leaves the session's laps as they were. */
  lemma LapsOfSessionOther(laps: seq<RawRecord>, i: nat, sessionKey: string)
    requires i < |laps| && SessionKeyOf(laps[i]) != Some(sessionKey)
    ensures LapsOfSession(laps[..i + 1], sessionKey) == LapsOfSession(laps[..i], sessionKey)
  {
    FilterMapSnoc(laps, i, InSession(sessionKey), DeltaFor(sessionKey));
  }

  /** A lap of the session is appended to the session's laps. */
  lemma LapsOfSessionSame(laps: seq<RawRecord>, i: nat, sessionKey: string)
    requires i < |laps| && SessionKeyOf(laps[i]) == Some(sessionKey)
    ensures LapsOfSession(laps[..i + 1], sessionKey) == LapsOfSession(laps[..i], sessionKey) + [DeltaOf(sessionKey, laps[i])]
  {
    FilterMapSnoc(laps, i, InSession(sessionKey), DeltaFor(sessionKey));
  }

  /** Every lap of the session is collected into the session's summary. */
  lemma LapOfSessionIncluded(laps: seq<RawRecord>, i: nat)
    requires i < |laps| && SessionKeyOf(laps[i]).Some?
    ensures DeltaOf(SessionKeyOf(laps[i]).value, laps[i]) in LapsOfSession(laps, SessionKeyOf(laps[i]).value)
  {
    var key := SessionKeyOf(laps[i]).value;
    FilterMapIncludes(laps, InSession(key), DeltaFor(key), i);
  }

  /** A session's laps all come from laps with that session key. */
  lemma LapOfSessionSource(laps: seq<RawRecord>, sessionKey: string, k: nat) returns (i: nat)
    requires k < |LapsOfSession(laps, sessionKey)|
    ensures i < |laps| && SessionKeyOf(laps[i]) == Some(sessionKey)
    ensures LapsOfSession(laps, sessionKey)[k] == DeltaOf(sessionKey, laps[i])
  {
    i := FilterMapSource(laps, InSession(sessionKey), DeltaFor(sessionKey), k);
  }

  /** A key that no lap carries has no laps. */
  lemma {:induction false} LapsOfUnlistedSession(laps: seq<RawRecord>, sessionKey: string)
    requires sessionKey !in SessionKeysOf(laps)
    ensures LapsOfSession(laps, sessionKey) == []
  {
    if LapsOfSession(laps, sessionKey) != [] {
      var j := LapOfSessionSource(laps, sessionKey, 0);
      SessionKeyListed(laps, j);
      assert false;
    }
  }

  /** The summary object created for a session on its first lap. */
  method NewSummary(sessionKey: string, info: Option<RawRecord>, options: Options, parseDate: RaceSummary.DateParser)
    returns (summary: SessionLapSummary)
    ensures fresh(summary)
    ensures summary.Header() == NewSessionHeader(sessionKey, info, options, parseDate)
    ensures summary.laps == [] && summary.bestLapSeconds.None? && summary.averageLapSeconds.None?
  {
    var header := NewSessionHeader(sessionKey, info, options, parseDate);
    summary := new SessionLapSummary(header.sessionId, header.raceId, header.name, header.sessionType, header.startedAt);
  }

  /** No summary object is filed under two keys. */
  predicate Injective(summaries: map<string, SessionLapSummary>) {
    forall a, b :: a in summaries && b in summaries && a != b ==> summaries[a] != summaries[b]
  }

  /** A session's summary while the laps are filed: its header, the session's laps so far, no metrics yet. */
  predicate Filing(summary: SessionLapSummary, laps: seq<RawRecord>, sessionKey: string,
                   infoByKey: map<string, Option<RawRecord>>, options: Options, parseDate: RaceSummary.DateParser)
    reads summary
  {
    summary.Header() == NewSessionHeader(sessionKey, InfoFor(infoByKey, sessionKey), options, parseDate) &&
    summary.laps == LapsOfSession(laps, sessionKey) &&
    summary.bestLapSeconds.None? && summary.averageLapSeconds.None?
  }

  /** Opens the summary of a session on its first lap: `summaries.set(sessionKey, summary)`. */
  method OpenSession(laps: seq<RawRecord>, sessionKey: string, infoByKey: map<string, Option<RawRecord>>,
                      options: Options, parseDate: RaceSummary.DateParser, summaries: map<string, SessionLapSummary>)
    returns (summaries': map<string, SessionLapSummary>)
    requires sessionKey !in summaries && LapsOfSession(laps, sessionKey) == []
    requires Injective(summaries)
    requires forall k :: k in summaries ==> Filing(summaries[k], laps, k, infoByKey, options, parseDate)
    ensures summaries'.Keys == summaries.Keys + {sessionKey}
    ensures Injective(summaries')
    ensures forall k :: k in summaries' ==> Filing(summaries'[k], laps, k, infoByKey, options, parseDate)
    ensures forall k :: k in summaries' ==> (k in summaries && summaries'[k] == summaries[k]) || fresh(summaries'[k])
  {
    var summary := NewSummary(sessionKey, InfoFor(infoByKey, sessionKey), options, parseDate);
    assert Filing(summary, laps, sessionKey, infoByKey, options, parseDate);
    summaries' := summaries[sessionKey := summary];
    forall k | k in summaries' ensures Filing(summaries'[k], laps, k, infoByKey, options, parseDate) {
      if k != sessionKey {
        assert summaries'[k] == summaries[k];
      }
    }
    forall a, b | a in summaries' && b in summaries' && a != b ensures summaries'[a] != summaries'[b] {
      if a != sessionKey && b != sessionKey {
        assert summaries'[a] == summaries[a] && summaries'[b] == summaries[b];
      }
    }
  }

  /** `summary.laps.push(...)` for a lap of a session whose summary is open. */
  method AppendLap(lapEntries: seq<RawRecord>, i: nat, sessionKey: string, infoByKey: map<string, Option<RawRecord>>,
                      options: Options, parseDate: RaceSummary.DateParser, summaries: map<string, SessionLapSummary>)
        requires i < |lapEntries| && SessionKeyOf(lapEntries[i]) == Some(sessionKey) && sessionKey in summaries
    requires Injective(summaries)
    requires forall k :: k in summaries ==> Filing(summaries[k], lapEntries[..i], k, infoByKey, options, parseDate)
    modifies summaries[sessionKey]
    ensures Injective(summaries)
    ensures forall k :: k in summaries ==> Filing(summaries[k], lapEntries[..i + 1], k, infoByKey, options, parseDate)
  {
    LapsOfSessionSame(lapEntries, i, sessionKey);
    var summary := summaries[sessionKey];
    summary.PushLap(DeltaOf(sessionKey, lapEntries[i]));
    forall k | k in summaries && k != sessionKey
      ensures Filing(summaries[k], lapEntries[..i + 1], k, infoByKey, options, parseDate)
    {
      assert Filing(summaries[k], lapEntries[..i], k, infoByKey, options, parseDate);
      LapsOfSessionOther(lapEntries, i, k);
    }
  }

  /** Files a lap that has a session key under its session, opening the session if it is new. */
  method FileKeyedLap(lapEntries: seq<RawRecord>, i: nat, sessionKey: string, infoByKey: map<string, Option<RawRecord>>,
                      options: Options, parseDate: RaceSummary.DateParser, summaries: map<string, SessionLapSummary>)
    returns (summaries': map<string, SessionLapSummary>)
    requires i < |lapEntries| && SessionKeyOf(lapEntries[i]) == Some(sessionKey)
    requires sessionKey !in summaries ==> LapsOfSession(lapEntries[..i], sessionKey) == []
    requires Injective(summaries)
    requires forall k :: k in summaries ==> Filing(summaries[k], lapEntries[..i], k, infoByKey, options, parseDate)
    modifies summaries.Values
    ensures summaries'.Keys == summaries.Keys + {sessionKey}
    ensures Injective(summaries')
    ensures forall k :: k in summaries' ==> Filing(summaries'[k], lapEntries[..i + 1], k, infoByKey, options, parseDate)
    ensures forall k :: k in summaries' ==> (k in summaries && summaries'[k] == summaries[k]) || fresh(summaries'[k])
  {
    summaries' := summaries;
    if sessionKey !in summaries {
      summaries' := OpenSession(lapEntries[..i], sessionKey, infoByKey, options, parseDate, summaries);
    }
    assert Injective(summaries');
    assert summaries'.Keys == summaries.Keys + {sessionKey};
    assert forall k :: k in summaries' ==> (k in summaries && summaries'[k] == summaries[k]) || fresh(summaries'[k]);
    AppendLap(lapEntries, i, sessionKey, infoByKey, options, parseDate, summaries');
  }

  /** One step of the grouping `forEach`: files lap `i` under its session, if it has one. */
  method FileLap(lapEntries: seq<RawRecord>, i: nat, infoByKey: map<string, Option<RawRecord>>, options: Options,
                 parseDate: RaceSummary.DateParser, order: seq<string>, summaries: map<string, SessionLapSummary>)
    returns (order': seq<string>, summaries': map<string, SessionLapSummary>)
    requires i < |lapEntries|
    requires order == SessionKeysOf(lapEntries[..i])
    requires forall k :: k in summaries <==> k in SessionKeysOf(lapEntries[..i])
    requires Injective(summaries)
    requires forall k :: k in summaries ==> Filing(summaries[k], lapEntries[..i], k, infoByKey, options, parseDate)
    modifies summaries.Values
    ensures order' == SessionKeysOf(lapEntries[..i + 1])
    ensures forall k :: k in summaries' <==> k in SessionKeysOf(lapEntries[..i + 1])
    ensures Injective(summaries')
    ensures forall k :: k in summaries' ==> Filing(summaries'[k], lapEntries[..i + 1], k, infoByKey, options, parseDate)
    ensures forall k :: k in summaries' ==> (k in summaries && summaries'[k] == summaries[k]) || fresh(summaries'[k])
  {
    SessionKeysSnoc(lapEntries, i);
    var sessionKeyText := SessionKeyOf(lapEntries[i]);
    if sessionKeyText.None? {
      forall k | k in summaries
        ensures Filing(summaries[k], lapEntries[..i + 1], k, infoByKey, options, parseDate)
      {
        LapsOfSessionOther(lapEntries, i, k);
      }
      order', summaries' := order, summaries;
    } else {
      var sessionKey := sessionKeyText.value;
      order' := if sessionKey in summaries then order else order + [sessionKey];
      if sessionKey !in summaries {
        LapsOfUnlistedSession(lapEntries[..i], sessionKey);
      }
      summaries' := FileKeyedLap(lapEntries, i, sessionKey, infoByKey, options, parseDate, summaries);
    }
  }

  /**
   * The `forEach` that files each lap with a session key under its session, creating the
   * session's summary on its first lap. `order` is the insertion order of the `Map`.
   */
  method GroupLaps(lapEntries: seq<RawRecord>, infoByKey: map<string, Option<RawRecord>>, options: Options, parseDate: RaceSummary.DateParser)
    returns (order: seq<string>, summaries: map<string, SessionLapSummary>)
    ensures order == SessionKeysOf(lapEntries)
    ensures forall k :: k in summaries <==> k in order
    ensures Injective(summaries)
    ensures forall k :: k in summaries ==> fresh(summaries[k])
    ensures forall k :: k in summaries ==> Filing(summaries[k], lapEntries, k, infoByKey, options, parseDate)
  {
    order, summaries := [], map[];
    for i := 0 to |lapEntries|
      invariant order == SessionKeysOf(lapEntries[..i])
      invariant forall k :: k in summaries <==> k in SessionKeysOf(lapEntries[..i])
      invariant Injective(summaries)
      invariant forall k :: k in summaries ==> Filing(summaries[k], lapEntries[..i], k, infoByKey, options, parseDate)
      invariant forall k :: k in summaries ==> fresh(summaries[k])
    {
      order, summaries := FileLap(lapEntries, i, infoByKey, options, parseDate, order, summaries);
    }
    TakeAll(lapEntries);
  }

  /** `Array.from(summaries.values())`, in insertion order. */
  function Values(order: seq<string>, summaries: map<string, SessionLapSummary>): (r: seq<SessionLapSummary>)
    requires forall k :: k in order ==> k in summaries
    ensures |r| == |order| && forall i :: 0 <= i < |order| ==> r[i] == summaries[order[i]]
  {
    seq(|order|, i requires 0 <= i < |order| => summaries[order[i]])
  }

  // ---------------------------------------------------------------------------
  // Session order
  // ---------------------------------------------------------------------------

  /** What the session comparator looks at. */
  datatype OrderKey = OrderKey(startedAt: Option<string>, sessionId: string)

  function OrderKeyOf(s: SessionLapSummary): OrderKey {
    OrderKey(s.startedAt, s.sessionId)
  }

  /**
   * The comparator, read as "may come first": two started sessions by start text, a started
   * session before one without a start, two sessions without a start by id.
   */
  predicate SessionOrderLe(a: OrderKey, b: OrderKey) {
    if Truthy(a.startedAt) && Truthy(b.startedAt) then StrLe(a.startedAt.value, b.startedAt.value)
    else if Truthy(a.startedAt) then true
    else if Truthy(b.startedAt) then false
    else StrLe(a.sessionId, b.sessionId)
  }

  lemma SessionOrderIsOrder()
    ensures Total(SessionOrderLe) && Transitive(SessionOrderLe)
  {
    forall a: OrderKey, b: OrderKey ensures SessionOrderLe(a, b) || SessionOrderLe(b, a) {
      if Truthy(a.startedAt) && Truthy(b.startedAt) {
        StrLeTotal(a.startedAt.value, b.startedAt.value);
      } else {
        StrLeTotal(a.sessionId, b.sessionId);
      }
    }
    forall a: OrderKey, b: OrderKey, c: OrderKey | SessionOrderLe(a, b) && SessionOrderLe(b, c)
      ensures SessionOrderLe(a, c)
    {
      if Truthy(a.startedAt) && Truthy(b.startedAt) && Truthy(c.startedAt) {
        StrLeTransitive(a.startedAt.value, b.startedAt.value, c.startedAt.value);
      } else if !Truthy(a.startedAt) && !Truthy(b.startedAt) && !Truthy(c.startedAt) {
        StrLeTransitive(a.sessionId, b.sessionId, c.sessionId);
      }
    }
  }

  /** The sessions in comparator order; sessions the comparator ties keep their order (a stable sort). */
  function SortSessions(values: seq<SessionLapSummary>): (r: seq<SessionLapSummary>)
    ensures |r| == |values| && multiset(r) == multiset(values)
    ensures SortedBy(Map(r, OrderKeyOf), SessionOrderLe)
    ensures Distinct(values) ==> Distinct(r)
    ensures forall x :: x in values ==> Peers(r, x, ByKey(OrderKeyOf, SessionOrderLe)) == Peers(values, x, ByKey(OrderKeyOf, SessionOrderLe))
  {
    SortByKey(values, OrderKeyOf, SessionOrderLe);
    SessionOrderIsOrder();
    forall x | x in values ensures Peers(SortBy(values, ByKey(OrderKeyOf, SessionOrderLe)), x, ByKey(OrderKeyOf, SessionOrderLe))
      == Peers(values, x, ByKey(OrderKeyOf, SessionOrderLe)) {
      ByKeyTies(values, x, OrderKeyOf, SessionOrderLe);
      SortByStable(values, x, ByKey(OrderKeyOf, SessionOrderLe));
    }
    SortBySorted(Map(values, OrderKeyOf), SessionOrderLe);
    var r := SortBy(values, ByKey(OrderKeyOf, SessionOrderLe));
    assert Distinct(values) ==> Distinct(r) by {
      if Distinct(values) {
        SortByDistinct(values, ByKey(OrderKeyOf, SessionOrderLe));
      }
    }
    r
  }

  /**
   * In comparator order every started session comes before every session without a start,
   * started sessions rise by start text, and the others rise by id.
   */
  lemma SessionOrderMeaning(keys: seq<OrderKey>, i: nat, j: nat)
    requires SortedBy(keys, SessionOrderLe) && i < j < |keys|
    ensures Truthy(keys[j].startedAt) ==> Truthy(keys[i].startedAt)
    ensures Truthy(keys[i].startedAt) && Truthy(keys[j].startedAt) ==> StrLe(keys[i].startedAt.value, keys[j].startedAt.value)
    ensures !Truthy(keys[i].startedAt) && !Truthy(keys[j].startedAt) ==> StrLe(keys[i].sessionId, keys[j].sessionId)
  {
    assert SessionOrderLe(keys[i], keys[j]);
  }

  // ---------------------------------------------------------------------------
  // fetchDriverLapDeltas
  // ---------------------------------------------------------------------------

  /** `DriverLapDelta`. */
  datatype DriverLapDelta = DriverLapDelta(driver: Driver, sessions: seq<SessionLapSummary>)

  /** The driver of the answer: the chosen record normalised, else the fallback driver. */
  function DriverOf(driverId: string, options: Options, entries: seq<RawRecord>): Driver {
    match PreferredEntry(entries, options)
    case Some(entry) => NormalizedDriverOf(entry)
    case None => CreateFallbackDriver(ScalarText(DriverFilter(driverId)))
  }

  /** `sessionSummaries.forEach(finalizeSessionMetrics)`. */
  method FinalizeAll(sessions: seq<SessionLapSummary>)
    requires Distinct(sessions)
    modifies set s | s in sessions
    ensures forall k :: 0 <= k < |sessions| ==> sessions[k].FinalizedFrom(old(sessions[k].laps))
  {
    for i := 0 to |sessions|
      invariant forall k :: 0 <= k < i ==> sessions[k].FinalizedFrom(old(sessions[k].laps))
      invariant forall k :: i <= k < |sessions| ==> sessions[k].laps == old(sessions[k].laps)
    {
      label step:
      sessions[i].Finalize();
      forall k | 0 <= k < |sessions| && k != i ensures unchanged@step(sessions[k]) {
        assert sessions[k] != sessions[i];
      }
    }
  }

  function IdOf(s: SessionLapSummary): string {
    s.sessionId
  }

  /** The answer to the lap query. */
  function LapEntries(driverId: string, options: Options, fetch: RaceSummary.Fetch): seq<RawRecord> {
    fetch("laps", MergedFilters(driverId, options))
  }

  /** A session summary as the answer holds it: its header from its session record, its laps finalised. */
  predicate SessionFinalized(s: SessionLapSummary, laps: seq<RawRecord>, options: Options, fetch: RaceSummary.Fetch, parseDate: RaceSummary.DateParser)
    reads s
  {
    s.Header() == NewSessionHeader(s.sessionId, SessionInfo(fetch, s.sessionId), options, parseDate) &&
    s.laps == Finalized(LapsOfSession(laps, s.sessionId)) &&
    s.bestLapSeconds == BestLap(LapsOfSession(laps, s.sessionId)) &&
    s.averageLapSeconds == AverageLap(LapsOfSession(laps, s.sessionId))
  }

  /** Distinct keys filed under distinct objects give distinct values. */
  lemma ValuesDistinct(order: seq<string>, summaries: map<string, SessionLapSummary>)
    requires Distinct(order) && Injective(summaries)
    requires forall k :: k in order ==> k in summaries
    ensures Distinct(Values(order, summaries))
  {
    var values := Values(order, summaries);
    forall a, b | 0 <= a < b < |values| ensures values[a] != values[b] {
      assert order[a] != order[b];
    }
  }

  /** Each summary carries the key it is filed under as its id. */
  lemma FiledUnderOwnId(laps: seq<RawRecord>, infoByKey: map<string, Option<RawRecord>>, summaries: map<string, SessionLapSummary>,
                        options: Options, parseDate: RaceSummary.DateParser)
    requires forall k :: k in summaries ==> Filing(summaries[k], laps, k, infoByKey, options, parseDate)
    ensures forall k :: k in summaries ==> summaries[k].sessionId == k
  {
    forall k | k in summaries ensures summaries[k].sessionId == k {
      assert Filing(summaries[k], laps, k, infoByKey, options, parseDate);
      NewSessionHeaderMeaning(k, InfoFor(infoByKey, k), options, parseDate);
    }
  }

  /** Each sorted summary is the one filed under its own id. */
  lemma SortedAreFiled(order: seq<string>, summaries: map<string, SessionLapSummary>, sorted: seq<SessionLapSummary>)
    requires forall k :: k in summaries <==> k in order
    requires forall k :: k in summaries ==> summaries[k].sessionId == k
    requires multiset(sorted) == multiset(Values(order, summaries))
    ensures forall i :: 0 <= i < |sorted| ==> sorted[i].sessionId in summaries && summaries[sorted[i].sessionId] == sorted[i]
  {
    var values := Values(order, summaries);
    forall i | 0 <= i < |sorted|
      ensures sorted[i].sessionId in summaries && summaries[sorted[i].sessionId] == sorted[i]
    {
      assert sorted[i] in multiset(values);
      var j :| 0 <= j < |values| && values[j] == sorted[i];
    }
  }

  /** Every key has its summary among the sorted ones. */
  lemma SortedCoverKeys(order: seq<string>, summaries: map<string, SessionLapSummary>, sorted: seq<SessionLapSummary>)
    requires forall k :: k in summaries <==> k in order
    requires forall k :: k in summaries ==> summaries[k].sessionId == k
    requires multiset(sorted) == multiset(Values(order, summaries))
    ensures forall k :: k in order ==> k in Map(sorted, IdOf)
  {
    var values := Values(order, summaries);
    forall k | k in order ensures k in Map(sorted, IdOf) {
      var j :| 0 <= j < |order| && order[j] == k;
      assert values[j] in multiset(sorted);
      var i :| 0 <= i < |sorted| && sorted[i] == values[j];
      assert Map(sorted, IdOf)[i] == k;
    }
  }

  /** What the sorted summaries hold before they are finalised. */
  lemma SessionsFromSummaries(lapEntries: seq<RawRecord>, infoByKey: map<string, Option<RawRecord>>,
                              order: seq<string>, summaries: map<string, SessionLapSummary>,
                              sorted: seq<SessionLapSummary>,
                              options: Options, fetch: RaceSummary.Fetch, parseDate: RaceSummary.DateParser)
    requires Distinct(order)
    requires forall k :: k in order ==> k in infoByKey && infoByKey[k] == SessionInfo(fetch, k)
    requires forall k :: k in summaries <==> k in order
    requires Injective(summaries)
    requires forall k :: k in summaries ==> Filing(summaries[k], lapEntries, k, infoByKey, options, parseDate)
    requires |sorted| == |order| && multiset(sorted) == multiset(Values(order, summaries))
    requires Distinct(Values(order, summaries)) ==> Distinct(sorted)
    ensures Distinct(sorted)
    ensures forall i :: 0 <= i < |sorted| ==> sorted[i].sessionId in summaries && summaries[sorted[i].sessionId] == sorted[i]
    ensures Distinct(Map(sorted, IdOf))
    ensures forall k :: k in order <==> k in Map(sorted, IdOf)
    ensures forall i :: 0 <= i < |sorted| ==>
      sorted[i].Header() == NewSessionHeader(sorted[i].sessionId, SessionInfo(fetch, sorted[i].sessionId), options, parseDate) &&
      sorted[i].laps == LapsOfSession(lapEntries, sorted[i].sessionId)
  {
    ValuesDistinct(order, summaries);
    FiledUnderOwnId(lapEntries, infoByKey, summaries, options, parseDate);
    SortedAreFiled(order, summaries, sorted);
    SortedCoverKeys(order, summaries, sorted);
    FiledIdsDistinct(summaries, sorted);
    SortedHold(lapEntries, infoByKey, order, summaries, sorted, options, fetch, parseDate);
  }

  /** Distinct summaries, each filed under its own id, have distinct ids. */
  lemma FiledIdsDistinct(summaries: map<string, SessionLapSummary>, sorted: seq<SessionLapSummary>)
    requires Distinct(sorted)
    requires forall i :: 0 <= i < |sorted| ==> sorted[i].sessionId in summaries && summaries[sorted[i].sessionId] == sorted[i]
    ensures Distinct(Map(sorted, IdOf))
  {
    var ids := Map(sorted, IdOf);
    forall a, b | 0 <= a < b < |ids| ensures ids[a] != ids[b] {
      assert sorted[a] != sorted[b];
    }
  }

  /** A summary filed under a key of the laps has the header of the key's session record and the key's laps. */
  lemma SortedHold(lapEntries: seq<RawRecord>, infoByKey: map<string, Option<RawRecord>>,
                   order: seq<string>, summaries: map<string, SessionLapSummary>, sorted: seq<SessionLapSummary>,
                   options: Options, fetch: RaceSummary.Fetch, parseDate: RaceSummary.DateParser)
    requires forall k :: k in order ==> k in infoByKey && infoByKey[k] == SessionInfo(fetch, k)
    requires forall k :: k in summaries <==> k in order
    requires forall k :: k in summaries ==> Filing(summaries[k], lapEntries, k, infoByKey, options, parseDate)
    requires forall i :: 0 <= i < |sorted| ==> sorted[i].sessionId in summaries && summaries[sorted[i].sessionId] == sorted[i]
    ensures forall i :: 0 <= i < |sorted| ==>
      sorted[i].Header() == NewSessionHeader(sorted[i].sessionId, SessionInfo(fetch, sorted[i].sessionId), options, parseDate) &&
      sorted[i].laps == LapsOfSession(lapEntries, sorted[i].sessionId)
  {
    forall i | 0 <= i < |sorted|
      ensures sorted[i].Header() == NewSessionHeader(sorted[i].sessionId, SessionInfo(fetch, sorted[i].sessionId), options, parseDate)
      ensures sorted[i].laps == LapsOfSession(lapEntries, sorted[i].sessionId)
    {
      var k := sorted[i].sessionId;
      assert Filing(summaries[k], lapEntries, k, infoByKey, options, parseDate);
    }
  }

  /**
   * The part of `fetchDriverLapDeltas` after the not-found test: the session records, the
   * grouping, the sort and the finalising.
   */
  method SummariseSessions(lapEntries: seq<RawRecord>, sessionKeys: seq<string>, options: Options,
                           fetch: RaceSummary.Fetch, parseDate: RaceSummary.DateParser)
    returns (sessions: seq<SessionLapSummary>)
    requires sessionKeys == SessionKeysOf(lapEntries)
    ensures |sessions| == |sessionKeys|
    ensures Distinct(Map(sessions, IdOf))
    ensures forall k :: k in sessionKeys <==> k in Map(sessions, IdOf)
    ensures SortedBy(Map(sessions, OrderKeyOf), SessionOrderLe)
    ensures forall i :: 0 <= i < |sessions| ==> SessionFinalized(sessions[i], lapEntries, options, fetch, parseDate)
  {
    var sessionInfoByKey := BuildInfoByKey(sessionKeys, fetch);
    var order, summaries := GroupLaps(lapEntries, sessionInfoByKey, options, parseDate);
    var values := Values(order, summaries);
    sessions := SortSessions(values);
    SessionsFromSummaries(lapEntries, sessionInfoByKey, order, summaries, sessions, options, fetch, parseDate);
    forall i | 0 <= i < |sessions| ensures fresh(sessions[i]) {
      assert summaries[sessions[i].sessionId] == sessions[i];
    }
    FinalizeAll(sessions);
  }

  /**
   * `fetchDriverLapDeltas`: not found when neither the lap query nor the driver query answers;
   * otherwise the driver and one finalised summary per session key of the laps, each key once,
   * in comparator order.
   */
  method FetchDriverLapDeltas(driverId: string, options: Options, fetch: RaceSummary.Fetch, parseDate: RaceSummary.DateParser)
    returns (result: Result<DriverLapDelta, Error>)
    ensures result.Err? <==> LapEntries(driverId, options, fetch) == [] && fetch("drivers", MergedFilters(driverId, options)) == []
    ensures result.Err? ==> result.error == NoLapData(driverId)
    ensures result.Ok? ==> result.value.driver == DriverOf(driverId, options, fetch("drivers", MergedFilters(driverId, options)))
    ensures result.Ok? ==> |result.value.sessions| == |SessionKeysOf(LapEntries(driverId, options, fetch))|
    ensures result.Ok? ==> Distinct(Map(result.value.sessions, IdOf))
    ensures result.Ok? ==> forall k :: k in SessionKeysOf(LapEntries(driverId, options, fetch)) <==> k in Map(result.value.sessions, IdOf)
    ensures result.Ok? ==> SortedBy(Map(result.value.sessions, OrderKeyOf), SessionOrderLe)
    ensures result.Ok? ==> forall i :: 0 <= i < |result.value.sessions| ==>
      SessionFinalized(result.value.sessions[i], LapEntries(driverId, options, fetch), options, fetch, parseDate)
  {
    var driverFilter, filters := MergeOptions(driverId, options);
    var driverEntries := fetch("drivers", filters);
    var lapEntries := fetch("laps", filters);

    var preferredDriverEntry := PreferredEntry(driverEntries, options);
    var normalizedDriver: Driver;
    if preferredDriverEntry.Some? {
      normalizedDriver := NormalizeDriver(preferredDriverEntry.value);
    } else {
      normalizedDriver := CreateFallbackDriver(ScalarText(driverFilter));
    }

    var sessionKeys := CollectSessionKeys(lapEntries);
    NotFoundCondition(lapEntries, driverEntries, options);
    if |sessionKeys| == 0 && |lapEntries| == 0 && preferredDriverEntry.None? {
      return Err(NoLapData(driverId));
    }

    var sessionSummaries := SummariseSessions(lapEntries, sessionKeys, options, fetch, parseDate);
    result := Ok(DriverLapDelta(normalizedDriver, sessionSummaries));
  }
}
