/**
 * The seed tables of the mock data layer (`teams`, `drivers`, `races`, `sessions`, `stints`,
 * `pitStops`, `laps`) and the lookups over them. The module-level arrays are gathered into one
 * `Tables` value so that every lookup is stated for any tables; `Seed` holds the shipped rows.
 */
module SeedData {
  import opened Wrappers
  import Lists

  datatype Team = Team(id: string, name: string, base: string, principal: string)

  datatype Driver = Driver(
    id: string, firstName: string, lastName: string, code: string, number: int, country: string,
    teamId: string)

  datatype Race = Race(
    id: string, season: int, round: int, name: string, circuit: string, location: string,
    startedAt: string, completedAt: string)

  /** The three session kinds `"practice" | "qualifying" | "race"`. */
  datatype SessionType = PracticeType | QualifyingType | RaceType

  datatype Session = Session(
    id: string, raceId: string, sessionType: SessionType, name: string, startedAt: string,
    endedAt: string)

  datatype Stint = Stint(
    id: string, sessionId: string, driverId: string, stintNumber: int, compound: string,
    startLap: int, endLap: int)

  datatype PitStop = PitStop(
    id: string, sessionId: string, driverId: string, lapNumber: int, durationSeconds: real,
    stopTime: string, reason: string)

  datatype Lap = Lap(
    sessionId: string, driverId: string, lapNumber: int, lapTime: string, sector1: string,
    sector2: string, sector3: string, position: int, isPit: bool)

  datatype Tables = Tables(
    teams: seq<Team>, drivers: seq<Driver>, races: seq<Race>, sessions: seq<Session>,
    stints: seq<Stint>, pitStops: seq<PitStop>, laps: seq<Lap>)

  /** The ids the seed rows refer to one another by. */
  const SouthernCrossId := "a1111111-1111-4111-8111-111111111111"
  const HarbourLightsId := "b2222222-2222-4222-8222-222222222222"
  const HayesId := "d3333333-3333-4333-8333-333333333333"
  const PatelId := "d4444444-4444-4444-8444-444444444444"
  const SilvaId := "d5555555-5555-4555-8555-555555555555"
  const BennettId := "d6666666-6666-4666-8666-666666666666"
  const AustralianGrandPrixId := "r7777777-7777-4777-8777-777777777777"
  const PracticeOneId := "s8888888-8888-4888-8888-888888888881"
  const QualifyingId := "s8888888-8888-4888-8888-888888888882"
  const GrandPrixId := "s8888888-8888-4888-8888-888888888883"

  /** The rows shipped with the application. */
  const Seed: Tables := Tables(SeedTeams, SeedDrivers, SeedRaces, SeedSessions, SeedStints, SeedPitStops, SeedLaps)

  const SeedTeams: seq<Team> := [
    Team(SouthernCrossId, "Southern Cross Racing", "Melbourne, Australia", "Ava Thompson"),
    Team(HarbourLightsId, "Harbour Lights Motorsport", "Sydney, Australia", "Leo Martin")
  ]

  const SeedDrivers: seq<Driver> := [
    Driver(HayesId, "Mia", "Hayes", "HAY", 11, "Australia", SouthernCrossId),
    Driver(PatelId, "Isla", "Patel", "PAT", 12, "New Zealand", SouthernCrossId),
    Driver(SilvaId, "Noah", "Silva", "SIL", 21, "Brazil", HarbourLightsId),
    Driver(BennettId, "Elias", "Bennett", "BEN", 22, "United Kingdom", HarbourLightsId)
  ]

  const SeedRaces: seq<Race> := [
    Race(AustralianGrandPrixId, 2024, 3, "Australian Grand Prix", "Albert Park Circuit", "Melbourne, Australia", "2024-03-24T05:00:00Z", "2024-03-24T07:00:00Z")
  ]

  const SeedSessions: seq<Session> := [
    Session(PracticeOneId, AustralianGrandPrixId, PracticeType, "Free Practice 1", "2024-03-22T01:30:00Z", "2024-03-22T03:00:00Z"),
    Session(QualifyingId, AustralianGrandPrixId, QualifyingType, "Qualifying", "2024-03-23T05:00:00Z", "2024-03-23T06:00:00Z"),
    Session(GrandPrixId, AustralianGrandPrixId, RaceType, "Grand Prix", "2024-03-24T05:00:00Z", "2024-03-24T07:00:00Z")
  ]

  const SeedStints: seq<Stint> := [
    Stint("t9999999-1111-4111-9111-999999999991", GrandPrixId, HayesId, 1, "Medium", 1, 18),
    Stint("t9999999-1111-4111-9111-999999999992", GrandPrixId, HayesId, 2, "Hard", 19, 58),
    Stint("t9999999-1111-4111-9111-999999999993", GrandPrixId, PatelId, 1, "Soft", 1, 12),
    Stint("t9999999-1111-4111-9111-999999999994", GrandPrixId, PatelId, 2, "Medium", 13, 40),
    Stint("t9999999-1111-4111-9111-999999999995", GrandPrixId, PatelId, 3, "Soft", 41, 58),
    Stint("t9999999-1111-4111-9111-999999999996", GrandPrixId, SilvaId, 1, "Medium", 1, 20),
    Stint("t9999999-1111-4111-9111-999999999997", GrandPrixId, SilvaId, 2, "Hard", 21, 58),
    Stint("t9999999-1111-4111-9111-999999999998", GrandPrixId, BennettId, 1, "Soft", 1, 10),
    Stint("t9999999-1111-4111-9111-999999999999", GrandPrixId, BennettId, 2, "Medium", 11, 32),
    Stint("u9999999-1111-4111-9111-999999999991", GrandPrixId, BennettId, 3, "Soft", 33, 58)
  ]

  const SeedPitStops: seq<PitStop> := [
    PitStop("paaaaaaa-aaaa-4aaa-8aaa-aaaaaaaaaaa1", GrandPrixId, HayesId, 18, 2.45, "2024-03-24T06:02:00Z", "Tyre change"),
    PitStop("paaaaaaa-aaaa-4aaa-8aaa-aaaaaaaaaaa2", GrandPrixId, PatelId, 12, 2.32, "2024-03-24T06:00:30Z", "Tyre change"),
    PitStop("paaaaaaa-aaaa-4aaa-8aaa-aaaaaaaaaaa3", GrandPrixId, PatelId, 40, 2.65, "2024-03-24T06:40:10Z", "Tyre change"),
    PitStop("paaaaaaa-aaaa-4aaa-8aaa-aaaaaaaaaaa4", GrandPrixId, SilvaId, 20, 2.51, "2024-03-24T06:05:20Z", "Tyre change"),
    PitStop("paaaaaaa-aaaa-4aaa-8aaa-aaaaaaaaaaa5", GrandPrixId, BennettId, 10, 2.78, "2024-03-24T05:58:40Z", "Tyre change"),
    PitStop("paaaaaaa-aaaa-4aaa-8aaa-aaaaaaaaaaa6", GrandPrixId, BennettId, 32, 2.91, "2024-03-24T06:34:20Z", "Tyre change")
  ]

  const SeedLaps: seq<Lap> := [
    Lap(GrandPrixId, HayesId, 1, "1:25.312", "28.456", "27.932", "28.924", 2, false),
    Lap(GrandPrixId, HayesId, 2, "1:24.998", "28.392", "27.801", "28.805", 2, false),
    Lap(GrandPrixId, HayesId, 3, "1:25.104", "28.410", "27.865", "28.829", 2, false),
    Lap(GrandPrixId, HayesId, 4, "1:25.287", "28.500", "27.901", "28.886", 2, false),
    Lap(GrandPrixId, HayesId, 5, "1:25.642", "28.670", "27.950", "29.022", 2, false),
    Lap(GrandPrixId, PatelId, 1, "1:25.954", "28.601", "28.041", "29.312", 4, false),
    Lap(GrandPrixId, PatelId, 2, "1:25.832", "28.534", "27.990", "29.308", 4, false),
    Lap(GrandPrixId, PatelId, 3, "1:25.910", "28.612", "28.005", "29.293", 4, false),
    Lap(GrandPrixId, PatelId, 4, "1:26.130", "28.734", "28.142", "29.254", 5, false),
    Lap(GrandPrixId, PatelId, 5, "1:26.482", "28.903", "28.300", "29.279", 5, false),
    Lap(GrandPrixId, SilvaId, 1, "1:24.998", "28.310", "27.720", "28.968", 1, false),
    Lap(GrandPrixId, SilvaId, 2, "1:24.812", "28.245", "27.684", "28.883", 1, false),
    Lap(GrandPrixId, SilvaId, 3, "1:24.935", "28.301", "27.732", "28.902", 1, false),
    Lap(GrandPrixId, SilvaId, 4, "1:25.044", "28.340", "27.760", "28.944", 1, false),
    Lap(GrandPrixId, SilvaId, 5, "1:25.398", "28.520", "27.880", "28.998", 1, false),
    Lap(GrandPrixId, BennettId, 1, "1:26.444", "28.812", "28.180", "29.452", 6, false),
    Lap(GrandPrixId, BennettId, 2, "1:26.390", "28.784", "28.152", "29.454", 6, false),
    Lap(GrandPrixId, BennettId, 3, "1:26.285", "28.730", "28.110", "29.445", 6, false),
    Lap(GrandPrixId, BennettId, 4, "1:26.610", "28.890", "28.260", "29.460", 7, false),
    Lap(GrandPrixId, BennettId, 5, "1:26.982", "29.050", "28.420", "29.512", 7, false)
  ]

  /** `getTeamById`: the first team with that id, or nothing. */
  function TeamById(db: Tables, id: string): (r: Option<Team>)
    ensures r.None? <==> forall t :: t in db.teams ==> t.id != id
    ensures r.Some? ==> r.value.id == id
    ensures r.Some? ==> exists i :: 0 <= i < |db.teams| && db.teams[i] == r.value && forall j :: 0 <= j < i ==> db.teams[j].id != id
  {
    Lists.Find(db.teams, (t: Team) => t.id == id)
  }

  /** `getDriverById`: the first driver with that id, or nothing. */
  function DriverById(db: Tables, id: string): (r: Option<Driver>)
    ensures r.None? <==> forall d :: d in db.drivers ==> d.id != id
    ensures r.Some? ==> r.value.id == id
    ensures r.Some? ==> exists i :: 0 <= i < |db.drivers| && db.drivers[i] == r.value && forall j :: 0 <= j < i ==> db.drivers[j].id != id
  {
    Lists.Find(db.drivers, (d: Driver) => d.id == id)
  }

  /** `getRaceById`: the first race with that id, or nothing. */
  function RaceById(db: Tables, id: string): (r: Option<Race>)
    ensures r.None? <==> forall race :: race in db.races ==> race.id != id
    ensures r.Some? ==> r.value.id == id
    ensures r.Some? ==> exists i :: 0 <= i < |db.races| && db.races[i] == r.value && forall j :: 0 <= j < i ==> db.races[j].id != id
  {
    Lists.Find(db.races, (race: Race) => race.id == id)
  }

  /** `getSessionsForRace`: the sessions of the race, in table order. */
  function SessionsForRace(db: Tables, raceId: string): (r: seq<Session>)
    ensures forall s :: s in r <==> s in db.sessions && s.raceId == raceId
  {
    Lists.Filter(db.sessions, (s: Session) => s.raceId == raceId)
  }

  /** `getStintsForDriver`: the driver's stints, in table order. */
  function StintsForDriver(db: Tables, driverId: string): (r: seq<Stint>)
    ensures forall st :: st in r <==> st in db.stints && st.driverId == driverId
  {
    Lists.Filter(db.stints, (st: Stint) => st.driverId == driverId)
  }

  /** `getPitStopsForDriver`: the driver's pit stops, in table order. */
  function PitStopsForDriver(db: Tables, driverId: string): (r: seq<PitStop>)
    ensures forall p :: p in r <==> p in db.pitStops && p.driverId == driverId
  {
    Lists.Filter(db.pitStops, (p: PitStop) => p.driverId == driverId)
  }

  /** `getLapsForDriver`: the driver's laps, in table order. */
  function LapsForDriver(db: Tables, driverId: string): (r: seq<Lap>)
    ensures forall l :: l in r <==> l in db.laps && l.driverId == driverId
  {
    Lists.Filter(db.laps, (l: Lap) => l.driverId == driverId)
  }

  /** `getDriversForTeam`: the team's drivers, in table order. */
  function DriversForTeam(db: Tables, teamId: string): (r: seq<Driver>)
    ensures forall d :: d in r <==> d in db.drivers && d.teamId == teamId
  {
    Lists.Filter(db.drivers, (d: Driver) => d.teamId == teamId)
  }

  /** The session `sessionId` exists and belongs to the race `raceId`. */
  ghost predicate InRace(db: Tables, sessionId: string, raceId: string) {
    exists s :: s in db.sessions && s.id == sessionId && s.raceId == raceId
  }

  /** `new Set(getSessionsForRace(raceId).map((session) => session.id))`. */
  function RaceSessionIds(db: Tables, raceId: string): (r: set<string>)
    ensures forall id :: id in r <==> InRace(db, id, raceId)
  {
    set s | s in SessionsForRace(db, raceId) :: s.id
  }

  /** `getLapsForRace`: the laps of the race's sessions. */
  function LapsForRace(db: Tables, raceId: string): (r: seq<Lap>)
    ensures forall l :: l in r <==> l in db.laps && InRace(db, l.sessionId, raceId)
  {
    var ids := RaceSessionIds(db, raceId);
    Lists.Filter(db.laps, (l: Lap) => l.sessionId in ids)
  }

  /** `getStintsForRace`: the stints of the race's sessions. */
  function StintsForRace(db: Tables, raceId: string): (r: seq<Stint>)
    ensures forall st :: st in r <==> st in db.stints && InRace(db, st.sessionId, raceId)
  {
    var ids := RaceSessionIds(db, raceId);
    Lists.Filter(db.stints, (st: Stint) => st.sessionId in ids)
  }

  /** `getPitStopsForRace`: the pit stops of the race's sessions. */
  function PitStopsForRace(db: Tables, raceId: string): (r: seq<PitStop>)
    ensures forall p :: p in r <==> p in db.pitStops && InRace(db, p.sessionId, raceId)
  {
    var ids := RaceSessionIds(db, raceId);
    Lists.Filter(db.pitStops, (p: PitStop) => p.sessionId in ids)
  }

  /** A stint of one of the race's sessions was driven by `driverId`. */
  ghost predicate RaceStintBy(db: Tables, driverId: string, raceId: string) {
    exists st :: st in db.stints && st.driverId == driverId && InRace(db, st.sessionId, raceId)
  }

  /**
   * `getDriversForRace`: the drivers, in table order, that ran a stint in one of the race's
   * sessions. Only the stints decide; laps and pit stops are not looked at.
   */
  function DriversForRace(db: Tables, raceId: string): (r: seq<Driver>)
    ensures forall d :: d in r <==> d in db.drivers && RaceStintBy(db, d.id, raceId)
  {
    var stints := StintsForRace(db, raceId);
    var driverIds := set st | st in stints :: st.driverId;
    Lists.Filter(db.drivers, (d: Driver) => d.id in driverIds)
  }

  /** Replacing every lap and pit stop leaves `getDriversForRace` unchanged. */
  lemma DriversForRaceIgnoresLapsAndPitStops(db: Tables, raceId: string, laps: seq<Lap>, pitStops: seq<PitStop>)
    ensures DriversForRace(db.(laps := laps, pitStops := pitStops), raceId) == DriversForRace(db, raceId)
  {
    var other := db.(laps := laps, pitStops := pitStops);
    assert SessionsForRace(other, raceId) == SessionsForRace(db, raceId);
    assert RaceSessionIds(other, raceId) == RaceSessionIds(db, raceId);
    assert StintsForRace(other, raceId) == StintsForRace(db, raceId);
  }

  /**
   * The race-wide filters keep table order and multiplicity: each result is the subsequence of
   * its table at increasing positions, and those positions are exactly the rows of the race.
   */
  lemma RaceRowsInTableOrder(db: Tables, raceId: string) returns (laps: seq<nat>, stints: seq<nat>, pitStops: seq<nat>)
    ensures Lists.SubsequenceAt(LapsForRace(db, raceId), db.laps, laps)
    ensures forall i :: 0 <= i < |db.laps| ==> (i in laps <==> InRace(db, db.laps[i].sessionId, raceId))
    ensures Lists.SubsequenceAt(StintsForRace(db, raceId), db.stints, stints)
    ensures forall i :: 0 <= i < |db.stints| ==> (i in stints <==> InRace(db, db.stints[i].sessionId, raceId))
    ensures Lists.SubsequenceAt(PitStopsForRace(db, raceId), db.pitStops, pitStops)
    ensures forall i :: 0 <= i < |db.pitStops| ==> (i in pitStops <==> InRace(db, db.pitStops[i].sessionId, raceId))
  {
    var ids := RaceSessionIds(db, raceId);
    laps := Lists.FilterIndices(db.laps, (l: Lap) => l.sessionId in ids);
    stints := Lists.FilterIndices(db.stints, (st: Stint) => st.sessionId in ids);
    pitStops := Lists.FilterIndices(db.pitStops, (p: PitStop) => p.sessionId in ids);
  }

  /**
   * `getSessionsForRace` keeps table order and multiplicity: the result is the subsequence of
   * the sessions table at increasing positions, which are exactly the rows of the race.
   */
  lemma SessionsInTableOrder(db: Tables, raceId: string) returns (idx: seq<nat>)
    ensures Lists.SubsequenceAt(SessionsForRace(db, raceId), db.sessions, idx)
    ensures forall i :: 0 <= i < |db.sessions| ==> (i in idx <==> db.sessions[i].raceId == raceId)
  {
    idx := Lists.FilterIndices(db.sessions, (s: Session) => s.raceId == raceId);
  }

  /** The per-driver filters keep table order and multiplicity, as the race-wide ones do. */
  lemma DriverRowsInTableOrder(db: Tables, driverId: string) returns (stints: seq<nat>, pitStops: seq<nat>, laps: seq<nat>)
    ensures Lists.SubsequenceAt(StintsForDriver(db, driverId), db.stints, stints)
    ensures forall i :: 0 <= i < |db.stints| ==> (i in stints <==> db.stints[i].driverId == driverId)
    ensures Lists.SubsequenceAt(PitStopsForDriver(db, driverId), db.pitStops, pitStops)
    ensures forall i :: 0 <= i < |db.pitStops| ==> (i in pitStops <==> db.pitStops[i].driverId == driverId)
    ensures Lists.SubsequenceAt(LapsForDriver(db, driverId), db.laps, laps)
    ensures forall i :: 0 <= i < |db.laps| ==> (i in laps <==> db.laps[i].driverId == driverId)
  {
    stints := Lists.FilterIndices(db.stints, (st: Stint) => st.driverId == driverId);
    pitStops := Lists.FilterIndices(db.pitStops, (p: PitStop) => p.driverId == driverId);
    laps := Lists.FilterIndices(db.laps, (l: Lap) => l.driverId == driverId);
  }

  /** `getDriversForTeam` keeps the drivers table's order: exactly the team's rows, in place. */
  lemma TeamDriversInTableOrder(db: Tables, teamId: string) returns (idx: seq<nat>)
    ensures Lists.SubsequenceAt(DriversForTeam(db, teamId), db.drivers, idx)
    ensures forall i :: 0 <= i < |db.drivers| ==> (i in idx <==> db.drivers[i].teamId == teamId)
  {
    idx := Lists.FilterIndices(db.drivers, (d: Driver) => d.teamId == teamId);
  }

  /**
   * `getDriversForRace` keeps the drivers table's order: exactly the rows of drivers with a
   * stint in the race, each once and in place, however many stints they ran.
   */
  lemma RaceDriversInTableOrder(db: Tables, raceId: string) returns (idx: seq<nat>)
    ensures Lists.SubsequenceAt(DriversForRace(db, raceId), db.drivers, idx)
    ensures forall i :: 0 <= i < |db.drivers| ==> (i in idx <==> RaceStintBy(db, db.drivers[i].id, raceId))
  {
    var stints := StintsForRace(db, raceId);
    var driverIds := set st | st in stints :: st.driverId;
    idx := Lists.FilterIndices(db.drivers, (d: Driver) => d.id in driverIds);
    forall i | 0 <= i < |db.drivers| ensures db.drivers[i].id in driverIds <==> RaceStintBy(db, db.drivers[i].id, raceId) {
      if RaceStintBy(db, db.drivers[i].id, raceId) {
        var st :| st in db.stints && st.driverId == db.drivers[i].id && InRace(db, st.sessionId, raceId);
        assert st in stints;
      }
    }
  }

  /** Every id a row refers to names a row of the referenced table. */
  ghost predicate Consistent(db: Tables) {
    && (forall d :: d in db.drivers ==> exists t :: t in db.teams && t.id == d.teamId)
    && (forall s :: s in db.sessions ==> exists race :: race in db.races && race.id == s.raceId)
    && (forall st :: st in db.stints ==> HasSession(db, st.sessionId) && HasDriver(db, st.driverId))
    && (forall p :: p in db.pitStops ==> HasSession(db, p.sessionId) && HasDriver(db, p.driverId))
    && (forall l :: l in db.laps ==> HasSession(db, l.sessionId) && HasDriver(db, l.driverId))
  }

  ghost predicate HasSession(db: Tables, id: string) {
    exists s :: s in db.sessions && s.id == id
  }

  ghost predicate HasDriver(db: Tables, id: string) {
    exists d :: d in db.drivers && d.id == id
  }

  /** The seed tables are referentially consistent. */
  lemma SeedConsistent()
    ensures Consistent(Seed)
  {
    SeedDriversHaveTeams();
    SeedSessionsHaveRace();
    SeedRowsReferToSessionsAndDrivers();
  }

  lemma SeedDriversHaveTeams()
    ensures forall d :: d in Seed.drivers ==> exists t :: t in Seed.teams && t.id == d.teamId
  {
    assert SeedTeams[0] in Seed.teams && SeedTeams[1] in Seed.teams;
  }

  lemma SeedSessionsHaveRace()
    ensures forall s :: s in Seed.sessions ==> exists race :: race in Seed.races && race.id == s.raceId
  {
    assert SeedRaces[0] in Seed.races;
  }

  lemma SeedRowsReferToSessionsAndDrivers()
    ensures forall st :: st in Seed.stints ==> HasSession(Seed, st.sessionId) && HasDriver(Seed, st.driverId)
    ensures forall p :: p in Seed.pitStops ==> HasSession(Seed, p.sessionId) && HasDriver(Seed, p.driverId)
    ensures forall l :: l in Seed.laps ==> HasSession(Seed, l.sessionId) && HasDriver(Seed, l.driverId)
  {
    SeedDriverIds();
    assert SeedSessions[2] in Seed.sessions;
    SeedLapRefs();
    SeedStintRefs();
    SeedPitStopRefs();
  }

  lemma SeedLapRefs()
    ensures forall l :: l in SeedLaps ==> l.sessionId == GrandPrixId && l.driverId in SeedDriverIdSet
  {
  }

  lemma SeedStintRefs()
    ensures forall st :: st in SeedStints ==> st.sessionId == GrandPrixId && st.driverId in SeedDriverIdSet
  {
  }

  lemma SeedPitStopRefs()
    ensures forall p :: p in SeedPitStops ==> p.sessionId == GrandPrixId && p.driverId in SeedDriverIdSet
  {
  }

  const SeedDriverIdSet := {HayesId, PatelId, SilvaId, BennettId}

  /** Each of the four driver ids is the id of a seed driver. */
  lemma SeedDriverIds()
    ensures forall id :: id in SeedDriverIdSet ==> HasDriver(Seed, id)
  {
    assert SeedDrivers[0] in Seed.drivers && SeedDrivers[1] in Seed.drivers;
    assert SeedDrivers[2] in Seed.drivers && SeedDrivers[3] in Seed.drivers;
  }
}
