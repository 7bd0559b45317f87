/**
 * The entity normalisers: a raw driver record becomes a driver with a resolved number, code,
 * names, country and team, and a raw lap becomes a lap with its times in seconds.
 */
module Normalizers {
  import opened Wrappers
  import opened JsText
  import opened JsValues
  import opened OpenF1
  import opened OpenF1Utils

  datatype Team = Team(id: string, name: string, base: Option<string>, principal: Option<string>)

  datatype Driver = Driver(
    id: string,
    firstName: string,
    lastName: string,
    code: string,
    number: real,
    country: Option<string>,
    teamId: Option<string>,
    team: Option<Team>)

  datatype Lap = Lap(
    sessionId: string,
    driverId: string,
    lapNumber: real,
    lapTimeSeconds: Option<real>,
    rawLapTime: Option<string>,
    sector1Seconds: Option<real>,
    sector2Seconds: Option<real>,
    sector3Seconds: Option<real>,
    rawSector1: Option<string>,
    rawSector2: Option<string>,
    rawSector3: Option<string>,
    position: Option<real>,
    isPit: bool)

  /** JavaScript truthiness of a string that may be null: present and not empty. */
  predicate Truthy(s: Option<string>) {
    s.Some? && s.value != []
  }

  // ---------------------------------------------------------------------------
  // normalizeDriver
  // ---------------------------------------------------------------------------

  /** The driver number: the coerced `driver_number`, 0 when it does not resolve. */
  function DriverNumber(raw: RawRecord): real {
    GetFirstDefined(CoerceNumber(Field(raw, "driver_number")), 0.0)
  }

  /** The code: `name_acronym`, else `code`, else the number padded to two characters with zeros. */
  function DriverCode(raw: RawRecord): (code: string)
    ensures code != []
  {
    GetFirstDefined(PickString(raw, ["name_acronym", "code"]), PadStart(NumberText(DriverNumber(raw)), 2, '0'))
  }

  /** The text the names fall back to: `full_name`, else `broadcast_name`, else the code. */
  function NameFallback(raw: RawRecord): (fallback: string)
    ensures fallback != [] && IsTrimmed(fallback)
  {
    DriverCodeTrimmed(raw);
    GetFirstDefined(PickString(raw, ["full_name", "broadcast_name"]), DriverCode(raw))
  }

  lemma DriverCodeTrimmed(raw: RawRecord)
    ensures IsTrimmed(DriverCode(raw))
  {
    PadStartTrimmed(NumberText(DriverNumber(raw)), 2, '0');
  }

  /**
   * The names a driver ends up with, stated case by case: an explicit name is kept; a missing
   * last name is the last of several fallback words, else the explicit first name, else the
   * only word; a missing first name is the first fallback word, else the last name.
   */
  function ResolvedNames(first: Option<string>, last: Option<string>, fallback: string): (names: (string, string))
  {
    var tokens := Words(fallback);
    var lastName :=
      if last.Some? then last.value
      else if |tokens| > 1 then tokens[|tokens| - 1]
      else if first.Some? then first.value
      else if |tokens| > 0 then tokens[0]
      else fallback;
    var firstName :=
      if first.Some? then first.value
      else if |tokens| > 0 then tokens[0]
      else lastName;
    (firstName, lastName)
  }

  /** The normalised driver, field by field. */
  function NormalizedDriverOf(raw: RawRecord): Driver {
    var number := DriverNumber(raw);
    var code := DriverCode(raw);
    var names := ResolvedNames(PickString(raw, ["first_name"]), PickString(raw, ["last_name"]), NameFallback(raw));
    var teamName := PickString(raw, ["team_name"]);
    var teamId := if Truthy(teamName) then Some("team-" + Slugify(teamName.value)) else None;
    Driver(
      NumberString(Finite(number)),
      names.0,
      names.1,
      code,
      number,
      PickString(raw, ["country_code", "nationality"]),
      teamId,
      if teamId.Some? then Some(Team(teamId.value, GetFirstDefined(teamName, teamId.value), None, None)) else None)
  }

  /**
   * `normalizeDriver`: resolves number and code, then fills in whichever of the first and
   * last name is missing from the fallback text, step by step.
   */
  method NormalizeDriver(raw: RawRecord) returns (d: Driver)
    ensures d == NormalizedDriverOf(raw)
  {
    var number := GetFirstDefined(CoerceNumber(Field(raw, "driver_number")), 0.0);
    var code := GetFirstDefined(PickString(raw, ["name_acronym", "code"]), PadStart(NumberString(Finite(number)), 2, '0'));
    var explicitFirstName := PickString(raw, ["first_name"]);
    var explicitLastName := PickString(raw, ["last_name"]);
    var fullName := PickString(raw, ["full_name", "broadcast_name"]);

    var fallback := GetFirstDefined(fullName, code);
    var firstName, lastName := FillNames(explicitFirstName, explicitLastName, fallback);

    var country := PickString(raw, ["country_code", "nationality"]);
    var teamName := PickString(raw, ["team_name"]);
    var teamId := if Truthy(teamName) then Some("team-" + Slugify(teamName.value)) else None;
    var team := if teamId.Some? then Some(Team(teamId.value, GetFirstDefined(teamName, teamId.value), None, None)) else None;
    d := Driver(NumberString(Finite(number)), GetFirstDefined(firstName, code), GetFirstDefined(lastName, code),
      code, number, country, teamId, team);
  }

  /**
   * The name step of `normalizeDriver`: when either explicit name is missing, the missing ones
   * are filled in from the words of the fallback text.
   */
  method FillNames(explicitFirstName: Option<string>, explicitLastName: Option<string>, fallback: string)
    returns (firstName: Option<string>, lastName: Option<string>)
    requires explicitFirstName.Some? ==> explicitFirstName.value != []
    requires explicitLastName.Some? ==> explicitLastName.value != []
    ensures firstName == Some(ResolvedNames(explicitFirstName, explicitLastName, fallback).0)
    ensures lastName == Some(ResolvedNames(explicitFirstName, explicitLastName, fallback).1)
  {
    firstName := explicitFirstName;
    lastName := explicitLastName;
    if !Truthy(firstName) || !Truthy(lastName) {
      var tokens := Words(fallback);
      if !Truthy(firstName) && |tokens| > 0 {
        firstName := Some(tokens[0]);
      }
      if !Truthy(lastName) && |tokens| > 1 {
        lastName := Some(tokens[|tokens| - 1]);
      }
      if !Truthy(lastName) {
        lastName := Some(GetFirstDefined(firstName, fallback));
      }
      if !Truthy(firstName) {
        firstName := lastName;
      }
    }
  }

  /** The driver's number is the coerced `driver_number` (0 when unresolvable) and its id is that number's text. */
  lemma DriverIdIsNumberText(raw: RawRecord)
    ensures var d := NormalizedDriverOf(raw);
      d.id == NumberText(d.number)
      && (CoerceNumber(Field(raw, "driver_number")).Some? ==> d.number == CoerceNumber(Field(raw, "driver_number")).value)
      && (CoerceNumber(Field(raw, "driver_number")).None? ==> d.number == 0.0 && d.id == "0")
  {
  }

  /** The code is `name_acronym`, else `code`, else the number left-padded with zeros to two characters. */
  lemma DriverCodeRule(raw: RawRecord)
    ensures var d := NormalizedDriverOf(raw);
      (CoerceString(Field(raw, "name_acronym")).Some? ==> d.code == CoerceString(Field(raw, "name_acronym")).value)
      && (CoerceString(Field(raw, "name_acronym")).None? && CoerceString(Field(raw, "code")).Some? ==>
            d.code == CoerceString(Field(raw, "code")).value)
      && (CoerceString(Field(raw, "name_acronym")).None? && CoerceString(Field(raw, "code")).None? ==>
            d.code == PadStart(d.id, 2, '0') && |d.code| >= 2)
  {
    DriverCodeChoice(raw);
  }

  lemma DriverCodeChoice(raw: RawRecord)
    ensures CoerceString(Field(raw, "name_acronym")).Some? ==> DriverCode(raw) == CoerceString(Field(raw, "name_acronym")).value
    ensures CoerceString(Field(raw, "name_acronym")).None? && CoerceString(Field(raw, "code")).Some? ==>
      DriverCode(raw) == CoerceString(Field(raw, "code")).value
    ensures CoerceString(Field(raw, "name_acronym")).None? && CoerceString(Field(raw, "code")).None? ==>
      DriverCode(raw) == PadStart(NumberText(DriverNumber(raw)), 2, '0')
  {
    PickStringPair(raw, "name_acronym", "code");
  }

  /** A normalised driver always has a non-empty first and last name. */
  lemma DriverNamesNonEmpty(raw: RawRecord)
    ensures NormalizedDriverOf(raw).firstName != [] && NormalizedDriverOf(raw).lastName != []
  {
    var first, last := PickString(raw, ["first_name"]), PickString(raw, ["last_name"]);
    var fallback := NameFallback(raw);
    WordsOfTrimmedNonEmpty(fallback);
    ResolvedNamesNonEmpty(first, last, fallback);
  }

  /** Names resolved from non-empty explicit names and a fallback with words are never empty. */
  lemma ResolvedNamesNonEmpty(first: Option<string>, last: Option<string>, fallback: string)
    requires first.Some? ==> first.value != []
    requires last.Some? ==> last.value != []
    requires |Words(fallback)| >= 1
    ensures ResolvedNames(first, last, fallback).0 != [] && ResolvedNames(first, last, fallback).1 != []
  {
  }

  /** A fallback text always yields at least one word, so no name is ever the raw fallback. */
  lemma NameFallbackHasWords(raw: RawRecord)
    ensures |Words(NameFallback(raw))| >= 1
  {
    WordsOfTrimmedNonEmpty(NameFallback(raw));
  }

  /** When both explicit names resolve they are used unchanged, whatever the fallback says. */
  lemma ExplicitNamesKept(raw: RawRecord)
    requires CoerceString(Field(raw, "first_name")).Some? && CoerceString(Field(raw, "last_name")).Some?
    ensures NormalizedDriverOf(raw).firstName == CoerceString(Field(raw, "first_name")).value
    ensures NormalizedDriverOf(raw).lastName == CoerceString(Field(raw, "last_name")).value
  {
    PickSingle(raw, "first_name");
    PickSingle(raw, "last_name");
  }

  /**
   * With an explicit first name, no last name and a one-word fallback, the last name repeats
   * the explicit first name.
   */
  lemma SingleTokenLastName(raw: RawRecord)
    requires CoerceString(Field(raw, "first_name")).Some? && CoerceString(Field(raw, "last_name")).None?
    requires |Words(NameFallback(raw))| == 1
    ensures NormalizedDriverOf(raw).lastName == CoerceString(Field(raw, "first_name")).value
  {
    PickSingle(raw, "first_name");
    PickSingle(raw, "last_name");
    var first := CoerceString(Field(raw, "first_name"));
    assert NormalizedDriverOf(raw).lastName == ResolvedNames(first, None, NameFallback(raw)).1;
  }

  /** Without explicit names, a fallback of several words gives its first and last word. */
  lemma NamesFromFullName(raw: RawRecord)
    requires CoerceString(Field(raw, "first_name")).None? && CoerceString(Field(raw, "last_name")).None?
    requires |Words(NameFallback(raw))| >= 2
    ensures NormalizedDriverOf(raw).firstName == Words(NameFallback(raw))[0]
    ensures NormalizedDriverOf(raw).lastName == Words(NameFallback(raw))[|Words(NameFallback(raw))| - 1]
  {
    PickSingle(raw, "first_name");
    PickSingle(raw, "last_name");
    DriverNames(raw);
    NamesFromWords(NormalizedDriverOf(raw), PickString(raw, ["first_name"]), PickString(raw, ["last_name"]), NameFallback(raw));
  }

  /** The normalised names are the resolved names of the explicit names and the fallback. */
  lemma DriverNames(raw: RawRecord)
    ensures var names := ResolvedNames(PickString(raw, ["first_name"]), PickString(raw, ["last_name"]), NameFallback(raw));
      NormalizedDriverOf(raw).firstName == names.0 && NormalizedDriverOf(raw).lastName == names.1
  {
  }

  lemma NamesFromWords(d: Driver, first: Option<string>, last: Option<string>, fallback: string)
    requires d.firstName == ResolvedNames(first, last, fallback).0 && d.lastName == ResolvedNames(first, last, fallback).1
    requires first == None && last == None && |Words(fallback)| >= 2
    ensures d.firstName == Words(fallback)[0] && d.lastName == Words(fallback)[|Words(fallback)| - 1]
  {
  }

  /**
   * A driver has a team exactly when `team_name` resolves; its id is `team-` and the slug of
   * the name, the driver's `teamId` is the same id, and base and principal are unknown.
   */
  lemma DriverTeamRule(raw: RawRecord)
    ensures var d := NormalizedDriverOf(raw);
      var name := CoerceString(Field(raw, "team_name"));
      (d.team.Some? <==> name.Some?)
      && (d.teamId.Some? <==> name.Some?)
      && (name.Some? ==>
            d.teamId == Some("team-" + Slugify(name.value))
            && d.team == Some(Team("team-" + Slugify(name.value), name.value, None, None)))
  {
    PickSingle(raw, "team_name");
  }

  // ---------------------------------------------------------------------------
  // normalizeLap
  // ---------------------------------------------------------------------------

  /** `normalizeLap`: every time and the position through its candidate keys, a seconds text beside each time. */
  function NormalizeLap(sessionKey: string, raw: RawRecord): (lap: Lap)
    ensures lap.sessionId == sessionKey
    ensures lap.rawLapTime.None? <==> lap.lapTimeSeconds.None?
    ensures lap.rawSector1.None? <==> lap.sector1Seconds.None?
    ensures lap.rawSector2.None? <==> lap.sector2Seconds.None?
    ensures lap.rawSector3.None? <==> lap.sector3Seconds.None?
  {
    var lapTime := PickNumber(raw, ["lap_duration", "duration", "lap_time"]);
    var sector1 := PickNumber(raw, ["sector1_duration", "sector1"]);
    var sector2 := PickNumber(raw, ["sector2_duration", "sector2"]);
    var sector3 := PickNumber(raw, ["sector3_duration", "sector3"]);
    Lap(
      sessionKey,
      NumberString(Finite(DriverNumber(raw))),
      GetFirstDefined(PickNumber(raw, ["lap_number"]), 0.0),
      lapTime,
      ToSecondsString(SecondsNumber(lapTime)),
      sector1,
      sector2,
      sector3,
      ToSecondsString(SecondsNumber(sector1)),
      ToSecondsString(SecondsNumber(sector2)),
      ToSecondsString(SecondsNumber(sector3)),
      PickNumber(raw, ["position", "lap_position", "driver_position"]),
      GetFirstDefined(PickBoolean(raw, ["is_pit_out_lap", "pit_out", "pit_in"]), false))
  }

  /** A resolved time as a JavaScript number (a coerced time is always finite). */
  function SecondsNumber(seconds: Option<real>): (n: Option<Number>)
    ensures n.None? <==> seconds.None?
    ensures n.Some? ==> n.value == Finite(seconds.value)
  {
    match seconds
    case Some(x) => Some(Finite(x))
    case None => None
  }

  /** The lap's driver is the text of the driver number (0 when unresolvable); the lap number defaults to 0. */
  lemma LapIdentity(sessionKey: string, raw: RawRecord)
    ensures var lap := NormalizeLap(sessionKey, raw);
      lap.driverId == NumberText(DriverNumber(raw))
      && (CoerceNumber(Field(raw, "driver_number")).None? ==> lap.driverId == "0")
      && (CoerceNumber(Field(raw, "lap_number")).None? ==> lap.lapNumber == 0.0)
      && (CoerceNumber(Field(raw, "lap_number")).Some? ==> lap.lapNumber == CoerceNumber(Field(raw, "lap_number")).value)
  {
    PickSingle(raw, "lap_number");
  }

  /** `isPit` is the first of `is_pit_out_lap`, `pit_out`, `pit_in` that resolves, else false. */
  lemma LapIsPit(sessionKey: string, raw: RawRecord)
    ensures var lap := NormalizeLap(sessionKey, raw);
      var keys := ["is_pit_out_lap", "pit_out", "pit_in"];
      ((forall i :: 0 <= i < |keys| ==> CoerceBoolean(Field(raw, keys[i])).None?) ==> !lap.isPit)
      && (CoerceBoolean(Field(raw, "is_pit_out_lap")).Some? ==> lap.isPit == CoerceBoolean(Field(raw, "is_pit_out_lap")).value)
  {
    var keys := ["is_pit_out_lap", "pit_out", "pit_in"];
    assert keys[0] == "is_pit_out_lap";
  }
}
