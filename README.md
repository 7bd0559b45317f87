# OpenF1 normalisation and aggregation core, modelled in Dafny

RacingControl is a Next.js dashboard. It shows Formula 1 races, drivers, teams and laps.
It reads raw records from the OpenF1 HTTP API, or from a built-in seed data set.
This project models the part of it that turns those loosely typed records into the dashboard's values:

- **OpenF1 helpers** (`src/lib/openf1.ts`, `src/lib/openf1-utils.ts`).
  - Coercion of unknown JSON values to numbers, strings and booleans.
  - Picking the first key that resolves.
  - `slugify`, the base-URL and resource-path rules, and the query-string expansion of `buildUrl`.
  - `combineDateAndTime`, with date parsing as a parameter.
  - `toSecondsString`.
- **Normalisers** (`src/lib/openf1-normalizers.ts`): `normalizeDriver` and `normalizeLap`.
- **Race summary** (`src/lib/openf1-summary.ts`).
  - Race parameters, the session filter and sort, and the per-session fetch of laps, stints and pit stops.
  - Merging drivers with placeholders for unknown numbers, lap metrics, and the assembled race summary.
- **Driver lap deltas** (`src/lib/openf1-driver.ts`).
  - Option merging and the fallback driver.
  - Grouping laps into per-session summaries (a class updated in place).
  - Sorting laps by lap number, best and average lap, and delta to best and to the previous timed lap.
  - The session order.
- **Formatting** (`src/lib/format.ts`): session type, pit duration, and lap time parsing and formatting.
- **Seed data** (`src/lib/data.ts`): the tables as a constant value and the getter functions over them, with their referential consistency proved.
- **Proxy** (`src/lib/openf1-proxy.ts`): `buildQueryParams`, which groups a query string into a parameter record.
- **PDF** (`src/lib/pdf.ts`): `wrapText`, greedy word wrapping with the font width as a parameter.

## How values are modelled

- A JSON value is modelled as `JsValues.JValue`.
  - A number is `Finite(real)`, `NaN` or `Infinity`.
  - A raw record is a map from field names to values.
  - A missing field reads as `JUndefined`.
- `Number(text)` and `String(number)` are modelled in `JsText`:
  - a decimal parser with sign, digits and an optional fraction;
  - the exact decimal expansion of a number.
- `toFixed` is modelled with round-half-up on the exact value.
- `trim` uses the ECMAScript white-space set. `toLowerCase` is ASCII.
- `split(/\s+/).filter(Boolean)` is modelled as `JsText.Words`.
- `Array.prototype.sort` is modelled as a stable insertion sort, `Sorting.SortBy`. `localeCompare` is modelled as code-unit lexicographic order.
- Network fetches are parameters holding the already fetched arrays. A per-session fetch is a function parameter.
- `Date.parse` followed by `toISOString` is a parameter `parseDate: string -> Option<string>`.
- Where the code is a loop that updates state, the model is a method with loop invariants, proved against a specification function:
  - the lap grouping over a `map` of `SessionLapSummary` objects;
  - `wrapText`;
  - `buildQueryParams`;
  - `buildUrl`;
  - the driver merge.
- The race summary's session sort (`src/lib/openf1-summary.ts:328`) has no tie-break. `Sorting.SortBy` is stable, so sessions with the same start keep their input order.

## Model

| member | source | states |
|---|---|---|
| OpenF1Utils.GetFirstDefined | src/lib/openf1-utils.ts:3-5 | the value when present, otherwise the fallback |
| OpenF1.CoerceNumber | src/lib/openf1.ts:203-216 | finite numbers pass through; non-finite numbers and non-string, non-number values give null; a blank string gives 0 |
| OpenF1.CoerceNumberOfString | src/lib/openf1.ts:208-213 | a string coerces to the number its trimmed text denotes, or null when that is NaN |
| OpenF1.CoerceNumberOfIntText | src/lib/openf1.ts:208-213 | the decimal text of an integer coerces back to that integer |
| OpenF1.CoerceString | src/lib/openf1.ts:218-229 | a result is non-empty and trimmed; a string gives null exactly when it is blank; a finite number gives its decimal text; anything else gives null |
| OpenF1.CoerceStringIdempotent | src/lib/openf1.ts:218-229 | coercing a coerced string again changes nothing |
| OpenF1.CoerceBoolean | src/lib/openf1.ts:231-256 | true exactly for `true`, 1 and the words y/yes/true/1 after trim and lower-casing; false exactly for `false`, 0 and n/no/false/0 |
| OpenF1.TrueAndFalseWordsDisjoint | src/lib/openf1.ts:247-252 | no text is both a true word and a false word |
| OpenF1.CoerceBooleanYesUpperCase | src/lib/openf1.ts:245-249 | " YES " coerces to true, through trim and lower-casing |
| OpenF1.CoerceBooleanOtherNumbers | src/lib/openf1.ts:236-243 | any number other than 0 and 1 gives null |
| OpenF1.CollapseRuns | src/lib/openf1.ts:285 | the result holds only `a-z0-9` and `-`, with no two dashes in a row |
| OpenF1.Slugify | src/lib/openf1.ts:282-287 | the result is a slug: lower-case letters, digits and single inner dashes, with no dash at either end |
| OpenF1.SlugifyOfSlug | src/lib/openf1.ts:282-287 | a slug is left unchanged |
| OpenF1.SlugifyIdempotent | src/lib/openf1.ts:282-287 | slugifying twice is the same as slugifying once |
| OpenF1.CollapseRunsOfSlugText | src/lib/openf1.ts:285 | text already made of slug characters and single dashes is left unchanged by the replacement |
| OpenF1.CombineDateAndTime | src/lib/openf1.ts:258-280 | no date gives null; with the time defaulting to 00:00:00, the parse of `dateTtime` wins when it succeeds, and otherwise the result is the parse of `date time`, null when that fails too |
| OpenF1.ResolveBaseUrl | src/lib/openf1.ts:17-23 | an unset or blank setting gives the default URL; otherwise the trimmed setting with one trailing slash removed |
| OpenF1.ResourcePath | src/lib/openf1.ts:26-29 | an `http` resource is kept as is; otherwise it is joined to the base URL with one leading slash dropped |
| OpenF1.Pairs | src/lib/openf1.ts:38-43 | one `(key, value)` pair per value, in order |
| OpenF1.ExpandParamsAppend | src/lib/openf1.ts:32-48 | the query expansion of two parameter lists is the concatenation of their expansions |
| OpenF1.ExpandValueShape | src/lib/openf1.ts:33-47 | null or undefined values add nothing; a scalar adds one entry; a list adds one entry per present item; every entry carries the key |
| OpenF1.PresentTextsLength | src/lib/openf1.ts:38-43 | skipping null items never lengthens a list, and a list without null items keeps its length |
| OpenF1.BuildUrl | src/lib/openf1.ts:25-50 | the URL's path is the resource path and its query is the expansion of every parameter in order |
| OpenF1.ExpandParamsSnoc | src/lib/openf1.ts:32-48 | one iteration of the parameter loop appends exactly the expansion of that parameter |
| OpenF1.AppendEntries | src/lib/openf1.ts:38-43 | the list loop appends one pair per present item |
| OpenF1.PresentTextsSnoc | src/lib/openf1.ts:38-43 | the present texts of a list grow by the texts of its last item |
| OpenF1Utils.FirstResolved | src/lib/openf1-utils.ts:7-35 | null exactly when no key resolves; otherwise the value of the first key that resolves |
| OpenF1Utils.PickNumber | src/lib/openf1-utils.ts:7-15 | null exactly when no key coerces to a number; otherwise the first key's number |
| OpenF1Utils.PickString | src/lib/openf1-utils.ts:17-25 | null exactly when no key coerces to a string; otherwise the first such string, non-empty and trimmed |
| OpenF1Utils.PickBoolean | src/lib/openf1-utils.ts:27-35 | null exactly when no key coerces to a boolean; otherwise the first key's boolean, false included |
| OpenF1Utils.FirstResolvedAppend | src/lib/openf1-utils.ts:8-13 | once a key resolves, later keys are never consulted |
| OpenF1Utils.PickSingle | src/lib/openf1-utils.ts:7-35 | picking from one key is coercing that key |
| OpenF1Utils.PickStringPair | src/lib/openf1-utils.ts:17-25 | picking from two keys takes the first when it resolves, otherwise the second |
| OpenF1Utils.PickNumberPair | src/lib/openf1-utils.ts:7-15 | picking from two keys takes the first when it resolves, otherwise the second |
| OpenF1Utils.PickOfNoKeys | src/lib/openf1-utils.ts:14 | no keys give null |
| OpenF1Utils.PickAppend | src/lib/openf1-utils.ts:8-13 | adding keys after one that resolves does not change any pick |
| OpenF1Utils.PickBooleanFalseStops | src/lib/openf1-utils.ts:29-31 | a key coercing to false stops the search with false |
| OpenF1Utils.ToSecondsString | src/lib/openf1-utils.ts:37-42 | null exactly for null or NaN input |
| OpenF1Utils.ToSecondsStringReadsBack | src/lib/openf1-utils.ts:41 | a finite number always gets a text, and that text reads back within half a thousandth of the number |
| Normalizers.NormalizeDriver | src/lib/openf1-normalizers.ts:42-103 | the driver built step by step equals the normalised-driver function of the record |
| Normalizers.FillNames | src/lib/openf1-normalizers.ts:59-77 | the name fill-in steps produce the resolved first and last names |
| Normalizers.DriverCode | src/lib/openf1-normalizers.ts:44-46 | the code is never empty |
| Normalizers.DriverCodeTrimmed | src/lib/openf1-normalizers.ts:44-46 | the code is trimmed |
| Normalizers.NameFallback | src/lib/openf1-normalizers.ts:63 | the name fallback is non-empty and trimmed |
| Normalizers.NameFallbackHasWords | src/lib/openf1-normalizers.ts:63-64 | the fallback splits into at least one token |
| Normalizers.DriverIdIsNumberText | src/lib/openf1-normalizers.ts:43-87 | the id is the text of the driver number; a missing number gives 0 and id "0" |
| Normalizers.DriverCodeRule | src/lib/openf1-normalizers.ts:44-46 | the code is `name_acronym`, else `code`, else the id zero-padded to two characters |
| Normalizers.DriverCodeChoice | src/lib/openf1-normalizers.ts:44-46 | the same preference order, stated on the code helper |
| Normalizers.DriverNamesNonEmpty | src/lib/openf1-normalizers.ts:59-89 | first and last names are never empty |
| Normalizers.ResolvedNamesNonEmpty | src/lib/openf1-normalizers.ts:62-77 | non-empty explicit names and a fallback with a token give non-empty names |
| Normalizers.ExplicitNamesKept | src/lib/openf1-normalizers.ts:59-62 | explicit first and last names are kept as given |
| Normalizers.SingleTokenLastName | src/lib/openf1-normalizers.ts:68-73 | with only a first name and a one-token fallback, the last name copies the first name |
| Normalizers.NamesFromFullName | src/lib/openf1-normalizers.ts:63-70 | with no explicit names, the first and last tokens of the full name are used |
| Normalizers.DriverNames | src/lib/openf1-normalizers.ts:48-77 | the driver's names are the resolved names of the explicit fields and the fallback |
| Normalizers.NamesFromWords | src/lib/openf1-normalizers.ts:63-70 | no explicit names and two or more tokens give the first and the last token |
| Normalizers.DriverTeamRule | src/lib/openf1-normalizers.ts:83-101 | a team exists exactly when `team_name` resolves; its id is `team-` plus the slug of the name |
| Normalizers.NormalizeLap | src/lib/openf1-normalizers.ts:105-160 | the lap carries the session key, and each raw text is null exactly when its number is null |
| Normalizers.SecondsNumber | src/lib/openf1-normalizers.ts:114-130 | a picked number is a finite number, and a missing one stays missing |
| Normalizers.LapIdentity | src/lib/openf1-normalizers.ts:106-148 | the driver id is the text of the driver number, "0" when missing; the lap number is the picked number or 0 |
| Normalizers.LapIsPit | src/lib/openf1-normalizers.ts:136-143 | the pit flag is false when no pit key resolves, and follows `is_pit_out_lap` when that resolves |
| Proxy.KeysOf | src/lib/openf1-proxy.ts:7 | the keys of the query string, one per entry, in order |
| Proxy.BuildQueryParams | src/lib/openf1-proxy.ts:5-26 | the record the loop builds equals the query-parameter record of the query string |
| Proxy.DistinctKeysOrder | src/lib/openf1-proxy.ts:7 | the distinct keys hold no repeats, exactly the keys of the query, in order of first appearance |
| Proxy.ValuesOfPresent | src/lib/openf1-proxy.ts:11-15 | a key has values exactly when it occurs in the query |
| Proxy.QueryParamsShape | src/lib/openf1-proxy.ts:10-23 | one entry per distinct key, in order; a single value is stored as a string and several values as the list of all of them |
| Proxy.GroupValueExpands | src/lib/openf1-proxy.ts:17-22 | expanding a grouped value gives back one pair per original value |
| Proxy.QueryParamsRoundTrip | src/lib/openf1-proxy.ts:5-26 | expanding the record as `buildUrl` does gives, for every key, exactly the values of the original query |
| Proxy.EntriesTakeSnoc | src/lib/openf1-proxy.ts:10-23 | one loop iteration adds the entry for one key, or nothing for a key without values |
| Proxy.EntriesExpand | src/lib/openf1-proxy.ts:10-23 | expanding the entries for distinct keys gives each listed key its values, and other keys none |
| Proxy.ValuesOfAppend | src/lib/openf1-proxy.ts:11 | the values of a key in a concatenation are the concatenation of its values |
| Proxy.ValuesOfPairs | src/lib/openf1.ts:38-43 | expanding one key's pairs gives that key its values, and other keys none |
| Proxy.PresentTextsOfEntries | src/lib/openf1-proxy.ts:22 | a list of strings expands back to the same strings |
| Pdf.WrapText | src/lib/pdf.ts:76-117 | no lines exactly for blank text; the lines hold exactly the words, in order; no line is empty; a line of two or more words fits the width; only a single word may overflow; each line was closed because the next word did not fit; at most one line per word |
| Pdf.NoWordsIffBlank | src/lib/pdf.ts:82-89 | the text has no words exactly when it is all white space |
| Pdf.WrapWords | src/lib/pdf.ts:91-116 | the same guarantees for the loop over a non-empty list of words |
| Pdf.PlaceWord | src/lib/pdf.ts:95-109 | placing one word keeps the wrapping invariant |
| Pdf.ExtendStep | src/lib/pdf.ts:95-100 | adding a word that fits, or the first word of a line, keeps the invariant |
| Pdf.BreakStep | src/lib/pdf.ts:103-104 | closing the line and starting a new one with the word keeps the invariant |
| Pdf.CloseStep | src/lib/pdf.ts:106-108 | closing a single word that is too wide keeps the invariant |
| Pdf.Finished | src/lib/pdf.ts:112-116 | pushing the last open line gives the wrapping guarantees |
| Pdf.FinishedLines | src/lib/pdf.ts:112-114 | the closed lines plus the last open line keep the per-line guarantees |
| Pdf.PushLine | src/lib/pdf.ts:103 | pushing a line adds exactly its words |
| Pdf.ExtendLine | src/lib/pdf.ts:95 | the candidate line holds the current words followed by the new word |
| Pdf.SingleWordLines | src/lib/pdf.ts:98-109 | a line wider than the maximum holds a single word |
| Summary.ResolveSessionType | src/lib/openf1-summary.ts:100-118 | practice exactly when the text contains "practice" or starts with "fp"; otherwise qualifying exactly when it contains "qual" or starts with "q"; race in every other case |
| Summary.SessionTypeTextPrefersType | src/lib/openf1-summary.ts:101-107 | the text is the lower-cased `session_type`, else the lower-cased `session_name`; with neither, the session is a race |
| Summary.ResolveRaceLocation | src/lib/openf1-summary.ts:120-135 | "location, country" when both are present, the one present otherwise, "" when neither is |
| Summary.PresentParts | src/lib/openf1-summary.ts:121-124 | the parts that are present and non-empty, in order |
| Summary.NormalizeStint | src/lib/openf1-summary.ts:141-167 | the id is `session-driver-stint`; stint number, compound and start lap fall back to index + 1, "Unknown" and 0; the end lap is null exactly when neither end key resolves |
| Summary.NormalizePitStop | src/lib/openf1-summary.ts:169-206 | the id is `session-driver-lap-index`; the lap falls back to index + 1; the duration, stop time and reason are the picked fields; the raw duration is null exactly when the duration is |
| Summary.PitStopIdsDistinct | src/lib/openf1-summary.ts:197 | two pit stops with the same id have the same index |
| Summary.TimedLapTimes | src/lib/openf1-summary.ts:209-211 | the lap times that are present, never more than the laps |
| Summary.TimedLapTimeIncluded | src/lib/openf1-summary.ts:209-211 | every lap's time, when present, is among the timed lap times |
| Summary.TimedLapTimeSource | src/lib/openf1-summary.ts:209-211 | every timed lap time comes from some lap |
| Summary.TimedLapTimesEmpty | src/lib/openf1-summary.ts:209-211 | no timed lap times exactly when no lap has a time |
| Summary.TimedDrivers | src/lib/openf1-summary.ts:222-234 | the drivers with at least one timed lap, without repeats |
| Summary.GroupTimesByDriver | src/lib/openf1-summary.ts:222-232 | the loop's map holds exactly the timed drivers, in order of first timed lap, each with its lap times in lap order |
| Summary.DriverTimesStep | src/lib/openf1-summary.ts:223-231 | one loop iteration adds the lap's time to its own driver only |
| Summary.DriverTimesMembers | src/lib/openf1-summary.ts:222-232 | a driver's times are exactly the times of that driver's timed laps |
| Summary.CalculateMetrics | src/lib/openf1-summary.ts:208-258 | the metrics computed step by step equal the metrics function of the laps |
| Summary.MetricsNullIffUntimed | src/lib/openf1-summary.ts:213-253 | the total is the number of laps; fastest and average are null exactly when no lap is timed |
| Summary.FastestIsMinimum | src/lib/openf1-summary.ts:213-214 | the fastest lap time is some lap's time and no timed lap is faster |
| Summary.AverageBetweenFastestAndSlowest | src/lib/openf1-summary.ts:216-220 | the average lies between the fastest and the slowest lap time |
| Summary.DriverAveragesShape | src/lib/openf1-summary.ts:234-250 | one entry per timed driver, without repeats; each has at least one lap, its lap count, its best lap as the minimum and its mean time; every timed lap's driver has an entry |
| Summary.LapCountsSumToTimedLaps | src/lib/openf1-summary.ts:222-250 | the drivers' lap counts add up to the number of timed laps |
| RaceSummary.RaceParamsOfText | src/lib/openf1-summary.ts:271-274 | a race key that is not a number is sent as the text itself |
| RaceSummary.RaceParamsOfCanonicalKey | src/lib/openf1-summary.ts:271-274 | a key in canonical decimal form is sent as a number whose text is the key again |
| RaceSummary.SessionSummaryOf | src/lib/openf1-summary.ts:299-324 | the id is the session key's text and the race id the race key's text; the type is the resolved type; the name falls back to `Session <key>`; the start falls back to the race start, then the epoch; the end falls back to the race end |
| RaceSummary.SessionIds | src/lib/openf1-summary.ts:325 | one key per kept session |
| RaceSummary.SessionIdsSnoc | src/lib/openf1-summary.ts:314-325 | the key list grows with the summary list, one key per summary |
| RaceSummary.CollectSessions | src/lib/openf1-summary.ts:284-326 | the loop's summaries are the kept sessions, and its key list is their ids in the same order |
| RaceSummary.KeptSessionsAllowed | src/lib/openf1-summary.ts:302-306 | every kept session has an allowed type and is the summary of some fetched session |
| RaceSummary.AllowedSessionKept | src/lib/openf1-summary.ts:302-306 | every session whose type is allowed is kept |
| RaceSummary.UnfilteredSessions | src/lib/openf1-summary.ts:302 | with no types given, every session is kept, in order |
| RaceSummary.StartsNoLaterIsOrder | src/lib/openf1-summary.ts:328 | comparing start texts is a total, transitive order |
| RaceSummary.OrderedSessions | src/lib/openf1-summary.ts:328 | the ordered sessions are a permutation of the kept ones, in non-decreasing start order, and sessions with the same start keep their input order |
| RaceSummary.PushNormalized | src/lib/openf1-summary.ts:353-371 | each per-session loop appends the normalised records in order and adds their driver ids to the set |
| RaceSummary.PushStep | src/lib/openf1-summary.ts:353-357 | one iteration appends one normalised record and adds its driver id |
| RaceSummary.AddAllSnoc | src/lib/openf1-summary.ts:356 | adding ids one list at a time equals adding them one by one |
| RaceSummary.CollectTiming | src/lib/openf1-summary.ts:330-372 | the gathered stints, pit stops, laps and driver ids equal the timing function of the kept session keys |
| RaceSummary.TimingDriverIds | src/lib/openf1-summary.ts:349-371 | the driver-number set holds no repeats and is exactly the drivers of the stints, pit stops and laps |
| RaceSummary.TimingSessions | src/lib/openf1-summary.ts:351-372 | every stint, pit stop and lap belongs to one of the kept sessions |
| RaceSummary.TimingSessionsStep | src/lib/openf1-summary.ts:351-372 | handling one more session keeps every record inside the kept sessions |
| RaceSummary.FromSessionsStep | src/lib/openf1-summary.ts:351-372 | appending one session's records keeps every record inside the kept sessions |
| RaceSummary.OfSession | src/lib/openf1-summary.ts:351-372 | every record normalised for a session carries that session's key |
| RaceSummary.Register | src/lib/openf1-summary.ts:384-386 | registering keeps the registry well formed and leaves the id present |
| RaceSummary.RegisterAll | src/lib/openf1-summary.ts:381-388 | registering a list keeps the registry well formed |
| RaceSummary.RegisterAllSnoc | src/lib/openf1-summary.ts:381-388 | registering one more driver is one more register step |
| RaceSummary.RegisterAllAppend | src/lib/openf1-summary.ts:381-404 | registering two lists is registering one after the other |
| RaceSummary.RegisterAllKeeps | src/lib/openf1-summary.ts:384 | an id already present keeps its first driver |
| RaceSummary.RegisterAllIncludes | src/lib/openf1-summary.ts:384-386 | every registered driver's id is present |
| RaceSummary.RegisterAllExcludes | src/lib/openf1-summary.ts:384-386 | an id neither present nor registered stays absent |
| RaceSummary.RegisterAllSource | src/lib/openf1-summary.ts:384-386 | a newly present id holds the first driver registered under it |
| RaceSummary.PlaceholderNumberOfKey | src/lib/openf1-summary.ts:398 | a placeholder for a decimal driver id gets that number |
| RaceSummary.MergedRegistry | src/lib/openf1-summary.ts:380-404 | the merged driver map is well formed |
| RaceSummary.Values | src/lib/openf1-summary.ts:406 | one driver per key of the map, in insertion order |
| RaceSummary.InValues | src/lib/openf1-summary.ts:406 | every driver in the map is among its values |
| RaceSummary.EnterDrivers | src/lib/openf1-summary.ts:382-387 | the loop registers the normalised drivers of one response in order |
| RaceSummary.EnterPlaceholders | src/lib/openf1-summary.ts:391-404 | the loop registers a placeholder for each timing driver id in order |
| RaceSummary.AllDriversSnoc | src/lib/openf1-summary.ts:381-388 | the drivers of one more response come after those before |
| RaceSummary.MergeDrivers | src/lib/openf1-summary.ts:380-406 | the merged, sorted driver list equals the merged-drivers function |
| RaceSummary.FirstDriverKept | src/lib/openf1-summary.ts:384-386 | the first driver met under an id is in the result |
| RaceSummary.SeenDriverPresent | src/lib/openf1-summary.ts:390-404 | every driver id met in timing data has a driver in the result |
| RaceSummary.PlaceholderForUnknownDriver | src/lib/openf1-summary.ts:392-402 | a timing id that no response lists gets the placeholder driver |
| RaceSummary.MergedDriverOrigin | src/lib/openf1-summary.ts:380-404 | each result driver is either the first fetched driver with its id, or the placeholder for a timing id no response lists |
| RaceSummary.MergedDriversSorted | src/lib/openf1-summary.ts:406 | the drivers are in non-decreasing number order and are a permutation of the map's values |
| RaceSummary.RaceInfoOf | src/lib/openf1-summary.ts:410-440 | the name falls back to `Race <key>`; circuit, season and round fall back to "", 0 and 0; the start falls back to the first session's start, then the epoch; the end falls back to the last session's end, then null |
| RaceSummary.RaceStartsWithEarliestSession | src/lib/openf1-summary.ts:420-423 | without a race start, the race starts no later than any session |
| RaceSummary.FetchRaceSummary | src/lib/openf1-summary.ts:267-448 | a race list with no entries gives the not-found error; otherwise the result is the report built from the first race |
| RaceSummary.ReportDriversCoverTiming | src/lib/openf1-summary.ts:390-406 | every driver of a stint, pit stop or lap in the report has a driver entry |
| RaceSummary.ReportTimingFromSessions | src/lib/openf1-summary.ts:330-441 | every stint, pit stop and lap of the report belongs to one of its sessions |
| RaceSummary.FromMoreSessions | src/lib/openf1-summary.ts:351-372 | records inside some sessions stay inside any larger set of sessions |
| RaceSummary.SessionIdsOfPermutation | src/lib/openf1-summary.ts:328 | sorting the sessions keeps their ids |
| RaceSummary.ResolveDriverName | src/lib/openf1-summary.ts:450-459 | an unknown id gives the id itself; a known driver gives a trimmed name |
| RaceSummary.ResolveDriverNameJoins | src/lib/openf1-summary.ts:458 | a known driver with trimmed, non-empty names gives "first last" |
| DriverDeltas.DriverFilter | src/lib/openf1-driver.ts:96-99 | a numeric parameter becomes that number; any other parameter is kept as text |
| DriverDeltas.DriverFilterOfNumber | src/lib/openf1-driver.ts:96-226 | a decimal driver number becomes a number whose text is the parameter again |
| DriverDeltas.MergedFilters | src/lib/openf1-driver.ts:101-103 | the filters start with the driver-number filter |
| DriverDeltas.MergedFiltersLookup | src/lib/openf1-driver.ts:105-116 | `session_key` and `race_key` are present exactly when the option is non-empty; `year` is present exactly when a year or season is given, the year taking precedence |
| DriverDeltas.LookupsOfRest | src/lib/openf1-driver.ts:105-116 | each optional filter is read only from its own entry |
| DriverDeltas.LookupAbsent | src/lib/openf1-driver.ts:101-116 | a key never written is absent from the filters |
| DriverDeltas.LookupFirst | src/lib/openf1-driver.ts:101-116 | a lookup finds the first entry under the key |
| DriverDeltas.LookupAppend | src/lib/openf1-driver.ts:101-116 | entries under other keys do not affect a lookup |
| DriverDeltas.MergeOptions | src/lib/openf1-driver.ts:89-119 | the method returns the driver filter and the merged filters |
| DriverDeltas.CreateFallbackDriver | src/lib/openf1-driver.ts:121-133 | the id and both names are the driver id and there is no country or team; a non-numeric id gives number 0 and the id as code; a numeric id gives its number and a code of at least two characters |
| DriverDeltas.FallbackDriverOfNumber | src/lib/openf1-driver.ts:122-128 | a decimal id gives its number and its text zero-padded to two digits as code |
| DriverDeltas.FirstPreferred | src/lib/openf1-driver.ts:214-221 | the index of the first entry matching the session or race option, and none when no entry matches |
| DriverDeltas.PreferredEntry | src/lib/openf1-driver.ts:214-222 | no entry exactly when the list is empty; the result is one of the entries, and a matching one whenever any matches |
| DriverDeltas.PreferredEntryWithoutKeys | src/lib/openf1-driver.ts:215-222 | with neither option set, the first entry is chosen |
| DriverDeltas.PreferredEntryNullKeys | src/lib/openf1-driver.ts:216 | with the session option set, an entry without a session key matches when the option's text has no number: both sides coerce to null |
| DriverDeltas.SessionKeysOf | src/lib/openf1-driver.ts:228-234 | the session keys hold no repeats |
| DriverDeltas.SessionKeysSnoc | src/lib/openf1-driver.ts:229-233 | a lap with a numeric session key adds that key's text once; other laps add nothing |
| DriverDeltas.SessionKeyListed | src/lib/openf1-driver.ts:229-233 | every lap's numeric session key is listed |
| DriverDeltas.SessionKeySource | src/lib/openf1-driver.ts:229-233 | every listed key comes from some lap |
| DriverDeltas.CollectSessionKeys | src/lib/openf1-driver.ts:228-234 | the loop collects exactly the session-key list |
| DriverDeltas.NotFoundCondition | src/lib/openf1-driver.ts:236-238 | the not-found condition holds exactly when there are no laps and no driver entries |
| DriverDeltas.BuildInfoByKey | src/lib/openf1-driver.ts:240-251 | the map has exactly the session keys, each with the first fetched session record or null |
| DriverDeltas.NewSessionHeaderMeaning | src/lib/openf1-driver.ts:262-281 | a new summary carries its key and a non-empty name; without a record the type is race when a session option is set and practice otherwise, with no race id, no start and the name `Session <key>`; with a record the type is resolved from it and its name is used |
| DriverDeltas.NewSessionHeaderAsWritten | src/lib/openf1-driver.ts:262-281 | as the code is written, a summary without a session record fails |
| DriverDeltas.HeaderAsWrittenWithRecord | src/lib/openf1-driver.ts:262-281 | with a session record, the code as written agrees with the corrected header |
| DriverDeltas.HeaderAsWrittenWithoutRecord | src/lib/openf1-driver.ts:274 | for session 9158 without a record, the code as written throws a type error, where the corrected header is named "Session 9158" |
| DriverDeltas.LapsOfSessionOther | src/lib/openf1-driver.ts:255-287 | a lap of another session leaves a session's lap list unchanged |
| DriverDeltas.LapsOfSessionSame | src/lib/openf1-driver.ts:285-286 | a lap of the session appends its delta record |
| DriverDeltas.LapOfSessionIncluded | src/lib/openf1-driver.ts:255-287 | every lap with a session key is filed in that session |
| DriverDeltas.LapOfSessionSource | src/lib/openf1-driver.ts:255-287 | every filed lap comes from a lap with that session key |
| DriverDeltas.LapsOfUnlistedSession | src/lib/openf1-driver.ts:255-287 | a key no lap carries has no laps |
| DriverDeltas.NewSummary | src/lib/openf1-driver.ts:270-281 | a fresh summary with the new header, no laps and no metrics |
| DriverDeltas.OpenSession | src/lib/openf1-driver.ts:261-283 | adding a summary for a new key keeps every summary filed under its own key, with distinct objects and other entries unchanged |
| DriverDeltas.AppendLap | src/lib/openf1-driver.ts:285-286 | appending a lap to its summary keeps every summary's laps equal to the laps of its session so far |
| DriverDeltas.FileKeyedLap | src/lib/openf1-driver.ts:260-286 | filing a keyed lap opens its summary when needed and appends it |
| DriverDeltas.FileLap | src/lib/openf1-driver.ts:255-287 | one iteration skips a lap without a numeric key and files any other lap |
| DriverDeltas.GroupLaps | src/lib/openf1-driver.ts:253-287 | after the loop there is one fresh summary per session key, in first-appearance order, each with its header and its laps in input order |
| DriverDeltas.Values | src/lib/openf1-driver.ts:289 | the summaries in insertion order |
| DriverDeltas.SessionOrderIsOrder | src/lib/openf1-driver.ts:289-300 | the session comparison is a total, transitive order |
| DriverDeltas.SortSessions | src/lib/openf1-driver.ts:289-300 | the sorted sessions are a permutation in comparison order, sessions the comparator ties keep their order, and distinct objects stay distinct |
| DriverDeltas.SessionOrderMeaning | src/lib/openf1-driver.ts:290-299 | sessions with a start come first, in start order; sessions without one follow, in id order |
| DriverDeltas.FinalizeAll | src/lib/openf1-driver.ts:302 | every session is finalised from its own laps |
| DriverDeltas.ValuesDistinct | src/lib/openf1-driver.ts:289 | distinct keys filed under distinct objects give distinct values |
| DriverDeltas.FiledUnderOwnId | src/lib/openf1-driver.ts:270-282 | every summary is filed under its own session id |
| DriverDeltas.SortedAreFiled | src/lib/openf1-driver.ts:289 | every sorted session is the summary filed under its id |
| DriverDeltas.SortedCoverKeys | src/lib/openf1-driver.ts:289 | every session key has a sorted session |
| DriverDeltas.FiledIdsDistinct | src/lib/openf1-driver.ts:289 | the sorted sessions have distinct ids |
| DriverDeltas.SortedHold | src/lib/openf1-driver.ts:253-289 | each sorted session has its header and its session's laps |
| DriverDeltas.SessionsFromSummaries | src/lib/openf1-driver.ts:253-300 | the sorted sessions are distinct objects with distinct ids, one per session key, each with its header and its laps |
| DriverDeltas.SummariseSessions | src/lib/openf1-driver.ts:240-302 | one session per key, with distinct ids, in comparison order, each with its header and its laps finalised |
| DriverDeltas.FetchDriverLapDeltas | src/lib/openf1-driver.ts:200-308 | not found exactly when there are neither laps nor driver entries; otherwise the preferred driver, or the fallback, and one finalised session per session key in comparison order |
| SessionLaps.LapDeltaOf | src/lib/openf1-driver.ts:135-151 | the delta record copies the lap's fields and starts with no deltas |
| SessionLaps.LapNumberLeIsOrder | src/lib/openf1-driver.ts:154 | comparing lap numbers is a total, transitive order |
| SessionLaps.SortedLaps | src/lib/openf1-driver.ts:154 | the sorted laps are a permutation of the laps |
| SessionLaps.SortedLapsInOrder | src/lib/openf1-driver.ts:154 | the sorted laps are in non-decreasing lap-number order, and laps with the same number keep their arrival order |
| SessionLaps.ValidLapTimes | src/lib/openf1-driver.ts:156-158 | the present lap times, never more than the laps |
| SessionLaps.SessionLapSummary.constructor | src/lib/openf1-driver.ts:270-281 | a summary with the given header, no laps and no metrics |
| SessionLaps.SessionLapSummary.PushLap | src/lib/openf1-driver.ts:286 | the lap is appended and the metrics are unchanged |
| SessionLaps.SessionLapSummary.Finalize | src/lib/openf1-driver.ts:153-198 | the laps become the finalised laps of the old laps; best and average are those of the old laps |
| SessionLaps.SessionLapSummary.FillDeltas | src/lib/openf1-driver.ts:172-197 | each lap gets its delta to best and its delta to the nearest earlier timed lap; the metrics are unchanged |
| SessionLaps.PreviousTimeAt | src/lib/openf1-driver.ts:183-190 | the backward search finds the nearest earlier timed lap |
| SessionLaps.PreviousTimeNone | src/lib/openf1-driver.ts:183-190 | with no earlier timed lap, the search finds nothing |
| SessionLaps.PreviousTimeIsNearest | src/lib/openf1-driver.ts:183-190 | a found time belongs to an earlier lap with no timed lap in between |
| SessionLaps.PreviousTimeMissing | src/lib/openf1-driver.ts:183-190 | when nothing is found, no earlier lap is timed |
| SessionLaps.ValidLapTimesSnoc | src/lib/openf1-driver.ts:156-158 | one more lap adds its time when present |
| SessionLaps.ValidLapTimesAppend | src/lib/openf1-driver.ts:156-158 | the times of two lists are the concatenation of their times |
| SessionLaps.ValidLapTimeIncluded | src/lib/openf1-driver.ts:156-158 | every present lap time is among the valid times |
| SessionLaps.ValidLapTimeSource | src/lib/openf1-driver.ts:156-158 | every valid time comes from a lap |
| SessionLaps.ValidLapTimesPermutation | src/lib/openf1-driver.ts:154-158 | permuting the laps permutes their valid times |
| SessionLaps.FinalizedIsSortedPermutation | src/lib/openf1-driver.ts:153-198 | the finalised laps keep the count, are in lap-number order, and are the sorted laps with only the deltas changed |
| SessionLaps.MetricsMissingIffUntimed | src/lib/openf1-driver.ts:160-167 | best lap is null exactly when no lap is timed, and average is null exactly when best is |
| SessionLaps.BestLapIsFastest | src/lib/openf1-driver.ts:160-167 | the best lap is some lap's time, no timed lap is faster, and it is no greater than the average |
| SessionLaps.BestAndAverageOfSorted | src/lib/openf1-driver.ts:154-167 | sorting the laps first changes neither the best nor the average |
| SessionLaps.MinOfPermutation | src/lib/openf1-driver.ts:161 | the minimum does not depend on order |
| SessionLaps.SumPermutation | src/lib/openf1-driver.ts:165 | the sum does not depend on order |
| SessionLaps.DeltaToBestNonNegative | src/lib/openf1-driver.ts:176-196 | a timed lap's delta to best is present and not negative; an untimed lap has neither delta |
| SessionLaps.SomeLapAtBest | src/lib/openf1-driver.ts:176-177 | when any lap is timed, some finalised lap has delta to best 0 |
| SessionLaps.FinalizedAt | src/lib/openf1-driver.ts:172-197 | each finalised lap is the sorted lap with its deltas filled |
| SessionLaps.DeltaAtBest | src/lib/openf1-driver.ts:176-177 | the lap holding the best time has delta to best 0 |
| SessionLaps.DeltaToPreviousMeaning | src/lib/openf1-driver.ts:182-193 | a timed lap's delta to previous is its time minus the nearest earlier timed lap's time |
| SessionLaps.FirstTimedLapHasNoPrevious | src/lib/openf1-driver.ts:182-196 | a lap with no earlier timed lap has no delta to previous |
| Format.FormatSessionType | src/lib/format.ts:11-13 | same length; the first character upper-cased and the rest unchanged |
| Format.FormatSessionTypeIdempotent | src/lib/format.ts:11-13 | formatting twice is formatting once |
| Format.DropPointZerosMatch | src/lib/format.ts:17 | the first replacement removes a final `.` followed only by zeros, and any change it makes is exactly that |
| Format.DropTrailingZerosMatch | src/lib/format.ts:17 | the second replacement removes the zeros after the last non-zero fraction digit, and any change it makes is exactly that |
| Format.DropTrailingZerosChanged | src/lib/format.ts:17 | a changed text is a prefix ending in a non-zero fraction digit, with only zeros dropped |
| Format.PitDurationOfFinite | src/lib/format.ts:15-19 | the text is the sign, the whole part of the value rounded to hundredths, the fraction without trailing zeros, and "s" |
| Format.PitDurationValue | src/lib/format.ts:15-19 | the text ends in "s" and, without it, reads as the same number as `toFixed(2)` |
| Format.PitWhole | src/lib/format.ts:17 | ".00" is dropped |
| Format.PitTenths | src/lib/format.ts:17 | one trailing zero after a non-zero tenth is dropped |
| Format.PitHundredths | src/lib/format.ts:17 | a text ending in a non-zero digit is kept |
| Format.PitDurationNotFinite | src/lib/format.ts:15-19 | a non-finite number gives its own text followed by "s" |
| Format.ParseLapTime | src/lib/format.ts:21-31 | the result is a finite number or NaN |
| Format.ParseLapTimeOfParts | src/lib/format.ts:21-31 | `m:s` reads as minutes times 60 plus seconds, or NaN when either part is not a number |
| Format.ParseLapTimeWithoutColon | src/lib/format.ts:22-28 | text without a colon has no seconds part and gives NaN |
| Format.SplitAtColon | src/lib/format.ts:22 | `m:s` splits into exactly its two parts |
| Format.LapSeconds | src/lib/format.ts:38-39 | the seconds left are in [0, 60) and the whole minutes times 60 plus them give the total |
| Format.PlaceholderOnlyForNonFinite | src/lib/format.ts:34-42 | the placeholder appears exactly for non-finite input; finite input gives a text with a colon |
| Format.LapTimeRoundTrip | src/lib/format.ts:21-43 | formatting a time of whole milliseconds and parsing the text back gives the same time |
| Format.FormatReadsBack | src/lib/format.ts:21-43 | a time whose seconds are whole milliseconds reads back unchanged |
| Format.FormatParts | src/lib/format.ts:38-42 | the text is the minutes, a colon and the padded seconds, each reading back as its number |
| Format.SecondsTextOfMillis | src/lib/format.ts:40 | the padded seconds text of whole milliseconds reads back exactly |
| Format.MinutesTextOfInt | src/lib/format.ts:42 | the minutes text holds no colon and reads back as the minutes |
| Format.SixtySecondsAsWritten | src/lib/format.ts:38-42 | as written, 59.9996 seconds is formatted "0:60.000" |
| Format.SixtySecondsFieldAsWritten | src/lib/format.ts:38-42 | as written, the seconds field of that text reads as 60 |
| Format.LapTimeRoundedReadsBack | src/lib/format.ts:33-43 | the corrected format always has a seconds field below 60 and reads back as the time rounded to milliseconds |
| Format.MillisTextReadsBack | src/lib/format.ts:38-42 | minutes and milliseconds below a minute read back as the total |
| Format.LapTimeRoundedAgrees | src/lib/format.ts:33-43 | on times of whole milliseconds, the corrected format agrees with the code as written |
| Format.MillisOfWhole | src/lib/format.ts:33-43 | a time of whole milliseconds rounds to itself |
| JsText.TrimStart | src/lib/openf1.ts:220 | never longer than the input, and the result does not start with white space |
| JsText.TrimStartSuffix | src/lib/openf1.ts:220 | trimming the start removes only leading white space |
| JsText.TrimEnd | src/lib/openf1.ts:220 | never longer than the input, and the result does not end with white space |
| JsText.TrimEndPrefix | src/lib/openf1.ts:220 | trimming the end removes only trailing white space |
| JsText.Trim | src/lib/openf1.ts:220 | the result neither starts nor ends with white space |
| JsText.TrimOfTrimmed | src/lib/openf1.ts:220 | trimming trimmed text changes nothing |
| JsText.TrimIsInfix | src/lib/openf1.ts:220 | the trimmed text is a contiguous part of the input |
| JsText.ToLower | src/lib/openf1.ts:246 | same length, each character lower-cased |
| JsText.Words | src/lib/openf1-normalizers.ts:64 | splitting on white-space runs and dropping empty parts gives non-empty words without white space |
| JsText.WordsOfNoSpace | src/lib/openf1-normalizers.ts:64 | text without white space is one word |
| JsText.WordsOfTrimmedNonEmpty | src/lib/openf1-normalizers.ts:64 | non-empty trimmed text has at least one word |
| JsText.SplitOn | src/lib/format.ts:22 | splitting on a character gives at least one part, and no part contains the separator |
| JsText.SplitOnAppend | src/lib/format.ts:22 | a separator after a part without it starts a new part |
| JsText.SplitOnNoSep | src/lib/format.ts:22 | text without the separator is one part |
| JsText.PadStart | src/lib/format.ts:40 | the text is padded on the left to the width, and never shortened |
| JsText.PadStartTrimmed | src/lib/openf1-normalizers.ts:46 | padding trimmed text with a non-space fill keeps it trimmed |
| JsText.NatText | src/lib/openf1.ts:225 | the decimal text of a natural number is all digits, with no leading zero |
| JsText.IntText | src/lib/openf1.ts:225 | the decimal text of an integer is a sign or digit followed by digits |
| JsText.DigitsValueOfNatText | src/lib/openf1.ts:225 | the decimal text of a number has that number as its value |
| JsText.NatTextInjective | src/lib/openf1.ts:225 | different numbers have different texts |
| JsText.ParseUnsigned | src/lib/openf1.ts:209 | an unsigned decimal reads as a non-negative value |
| JsText.JsNumber | src/lib/openf1.ts:209 | `Number` of blank text is 0 |
| JsText.ParseUnsignedOfDigits | src/lib/openf1.ts:209 | a digit string reads as its value |
| JsText.JsNumberOfIntText | src/lib/openf1.ts:209 | the text of an integer reads back as that integer |
| JsText.NumberText | src/lib/openf1.ts:225 | `String` of a number is non-empty text without white space |
| JsText.NumberTextOfInt | src/lib/openf1.ts:225 | `String` of an integral number is its integer text |
| JsText.ScaledTextValue | src/lib/openf1-utils.ts:41 | the fixed-point text of n units of 10^-d reads back as exactly that value |
| JsText.RoundedBound | src/lib/openf1-utils.ts:41 | rounding to d places moves a value by at most half a unit of the last place |
| JsText.RoundedOfUnits | src/lib/openf1-utils.ts:41 | a value already on the d-place grid is not moved by rounding |
| JsText.ToFixedText | src/lib/openf1-utils.ts:41 | the text of `toFixed(d)` reads back as the value rounded to d places, with the sign kept |
| JsText.ToFixedNegative | src/lib/openf1-utils.ts:41 | a negative value's fixed text reads back as minus its rounded magnitude |
| JsText.ToFixedNonNegative | src/lib/openf1-utils.ts:41 | a non-negative value's fixed text reads back as its rounded value |
| JsText.ToFixedValue | src/lib/openf1-utils.ts:41 | `toFixed(d)` always reads back within half a unit of the last place |
| JsText.JsNumberOfNegated | src/lib/openf1.ts:209 | a minus sign before an unsigned decimal negates its value |
| SeedData.TeamById | src/lib/data.ts:537-539 | absent exactly when no team has the id; otherwise the first team with that id |
| SeedData.DriverById | src/lib/data.ts:541-543 | absent exactly when no driver has the id; otherwise the first driver with that id |
| SeedData.RaceById | src/lib/data.ts:545-547 | absent exactly when no race has the id; otherwise the first race with that id |
| SeedData.SessionsForRace | src/lib/data.ts:549-551 | exactly the sessions of the race; SessionsInTableOrder gives their table order and multiplicity |
| SeedData.StintsForDriver | src/lib/data.ts:553-555 | exactly the driver's stints; DriverRowsInTableOrder gives their table order and multiplicity |
| SeedData.PitStopsForDriver | src/lib/data.ts:557-559 | exactly the driver's pit stops; DriverRowsInTableOrder gives their table order and multiplicity |
| SeedData.LapsForDriver | src/lib/data.ts:561-563 | exactly the driver's laps; DriverRowsInTableOrder gives their table order and multiplicity |
| SeedData.DriversForTeam | src/lib/data.ts:571-573 | exactly the team's drivers; TeamDriversInTableOrder gives their table order and multiplicity |
| SeedData.RaceSessionIds | src/lib/data.ts:566-567 | exactly the ids of the race's sessions |
| SeedData.LapsForRace | src/lib/data.ts:565-569 | exactly the laps of the race's sessions |
| SeedData.StintsForRace | src/lib/data.ts:592-596 | exactly the stints of the race's sessions |
| SeedData.PitStopsForRace | src/lib/data.ts:586-590 | exactly the pit stops of the race's sessions |
| SeedData.DriversForRace | src/lib/data.ts:575-584 | exactly the drivers with a stint in one of the race's sessions; RaceDriversInTableOrder gives their table order and multiplicity |
| SeedData.DriversForRaceIgnoresLapsAndPitStops | src/lib/data.ts:575-584 | a race's drivers depend on stints only, not on laps or pit stops |
| SeedData.RaceRowsInTableOrder | src/lib/data.ts:565-596 | the race's laps, stints and pit stops are subsequences of their tables, in table order |
| SeedData.SessionsInTableOrder | src/lib/data.ts:549-551 | the race's sessions are the subsequence of the sessions table at increasing positions, and those positions are exactly the race's rows |
| SeedData.DriverRowsInTableOrder | src/lib/data.ts:553-563 | the driver's stints, pit stops and laps are subsequences of their tables at increasing positions, exactly the driver's rows |
| SeedData.TeamDriversInTableOrder | src/lib/data.ts:571-573 | the team's drivers are the subsequence of the drivers table at exactly the team's rows |
| SeedData.RaceDriversInTableOrder | src/lib/data.ts:575-584 | the race's drivers are the subsequence of the drivers table at exactly the rows of drivers with a stint in the race, each once |
| SeedData.SeedConsistent | src/lib/data.ts:69-535 | every reference in the seed tables points at an existing row |
| SeedData.SeedDriversHaveTeams | src/lib/data.ts:84-121 | every seed driver's team exists |
| SeedData.SeedSessionsHaveRace | src/lib/data.ts:136-161 | every seed session's race exists |
| SeedData.SeedRowsReferToSessionsAndDrivers | src/lib/data.ts:163-535 | every seed stint, pit stop and lap refers to an existing session and driver |
| SeedData.SeedLapRefs | src/lib/data.ts:319-535 | every seed lap belongs to the Grand Prix session and a seed driver |
| SeedData.SeedStintRefs | src/lib/data.ts:163-254 | every seed stint belongs to the Grand Prix session and a seed driver |
| SeedData.SeedPitStopRefs | src/lib/data.ts:256-317 | every seed pit stop belongs to the Grand Prix session and a seed driver |
| SeedData.SeedDriverIds | src/lib/data.ts:84-121 | every listed seed driver id has a driver row |
| Sorting.SortBy | src/lib/openf1-summary.ts:328 | sorting is a permutation |
| Sorting.SortBySorted | src/lib/openf1-summary.ts:328 | under a total, transitive order the result is sorted |
| Sorting.SortByKey | src/lib/openf1-driver.ts:154 | sorting by a key and then projecting equals sorting the projected keys |
| Sorting.SortByDistinct | src/lib/openf1-driver.ts:289 | sorting keeps distinct elements distinct |
| Sorting.SortByOfSorted | src/lib/openf1-summary.ts:328 | a sorted list is left as it is, so sorting is idempotent |
| Sorting.SortByStable | src/lib/openf1-summary.ts:328 | the sort is stable: the elements tied with any element appear in the result in their input order |
| Sorting.InsertPeers | src/lib/openf1-summary.ts:328 | inserting an element puts it ahead of every element tied with it |
| Sorting.StrLeIsOrder | src/lib/openf1-summary.ts:328 | code-unit string comparison is total and transitive |
| Sorting.StrLeAntisymmetric | src/lib/openf1-summary.ts:328 | two strings each no later than the other are equal |
| Stats.MinOf | src/lib/openf1-summary.ts:214 | the minimum is an element and no element is smaller |
| Stats.MaxOf | src/lib/openf1-summary.ts:214 | the maximum is an element and no element is larger |
| Stats.MeanBetweenMinAndMax | src/lib/openf1-summary.ts:216-220 | the mean lies between the minimum and the maximum |
| Stats.SumAppend | src/lib/openf1-summary.ts:218 | the sum of a concatenation is the sum of the sums |
| JsValues.ParseNumber | src/lib/format.ts:23-24 | `Number` of a text is a finite number or NaN |

## Left out

- Network access (`fetchOpenF1` in `src/lib/openf1.ts:53-76`, and every `fetchResource`): each fetch is a parameter, a function from resource and parameters to the array it returns. Caching options and HTTP errors are not modelled.
- Concurrency: the `Promise.all` batches are modelled as sequential maps over the session keys, which give the same arrays in the same order.
- Dates: `Date.parse` followed by `toISOString` is a parameter. `new Date(0).toISOString()` is the constant `1970-01-01T00:00:00.000Z`. `formatDateTime` (`src/lib/format.ts:7-9`, `Intl.DateTimeFormat`) is not modelled.
- Floating point: numbers are exact reals. Sums, averages, `totalSeconds - minutes * 60` and `toFixed` are exact, with no IEEE-754 rounding.
- `Number(text)` accepts a sign, digits and an optional fraction after trimming. Exponents, hexadecimal, binary and octal prefixes, and "Infinity" are read as NaN.
- `String(number)` is the exact decimal expansion. It is not the shortest text that round-trips, and it has no exponent notation.
- `toFixed` does not switch to exponent notation for magnitudes of 1e21 and above.
- `toLowerCase` and `toUpperCase` map ASCII letters only.
- The regular expressions are not modelled as a regex engine. Each is written as the string function it computes:
  - `/[^a-z0-9]+/g`;
  - `/(^-|-$)/g`;
  - `/\.0+$/` and `/(\.\d*[1-9])0+$/`;
  - `/\s+/`;
  - `/^\//` and `/\/$/`.
- `new URL(...)` parsing and percent-encoding are left out. A URL is its path text and its list of query pairs, and the proxy's query string is taken as already decoded pairs.
- JavaScript property order puts integer-like keys first. Parameter records are modelled as ordered lists of entries, and keys that look like integers are not reordered.
- The session-summary map in `fetchDriverLapDeltas` is a Dafny `map` from session key to object, together with the list of keys in insertion order. Iterating over `Map.values()` is that list mapped through the map.
- In `src/lib/pdf.ts` only `wrapText` is modelled. The font's `widthOfTextAtSize` at the chosen size is a parameter `width: string -> real`. The page layout, drawing and `createRaceSummaryPdf` are left out because they are drawing calls into the PDF library.
- `createOpenF1ProxyRoute` and `normalizeError` (`src/lib/openf1-proxy.ts:28-62`) are left out: the route handler is HTTP plumbing around `buildQueryParams` and `fetchOpenF1`.
- `NotFoundError` is modelled as an error value in a `Result`, not as a thrown exception.
- The seed tables in `src/lib/data.ts` are one constant value, `SeedData.Seed`. The getters take the tables as a parameter, so their contracts hold for any tables.
- `resolveSessionType` in `src/lib/openf1-driver.ts:62-80` is the same function as the one in `src/lib/openf1-summary.ts:100-118`. It is modelled once, as `Summary.ResolveSessionType`.
- Format.LapTimeRoundTrip: proved only for non-negative times that are whole milliseconds. Other times lose digits to `toFixed(3)`, and negative times give a negative minutes field.
- Format.PitDurationValue: states that the text reads as the same number as `toFixed(2)`, not the exact characters for every value. `Format.PitDurationOfFinite` gives the exact text.
- JsText.ToFixedValue: bounds the value read back, within half a unit of the last place. It does not state the digits, because real arithmetic stands in for binary doubles.
- DriverDeltas.FetchDriverLapDeltas: follows the corrected header. As written, the code throws for a lap whose session has no record (see Findings).

## Findings

| source | as written | input that shows it | evidently intended | confidence | as-written member | corrected member |
|---|---|---|---|---|---|---|
| src/lib/openf1-driver.ts:274 | `pickString(sessionInfo as Record<string, unknown>, ["session_name"])` runs even when `sessionInfo` is null. Reading a key of null throws a TypeError, so the whole call fails | laps of session 9158 when the sessions endpoint returns no record for it | the name falls back to `Session 9158`, as the fallback on line 275 and the null checks on lines 264-272 suggest | high (not executed) | DriverDeltas.HeaderAsWrittenWithoutRecord | DriverDeltas.NewSessionHeaderMeaning |
| src/lib/format.ts:38-42 | `seconds.toFixed(3)` can round the seconds up to 60 after the minutes were taken, giving a seconds field of 60 | 59.9996 seconds is formatted as `0:60.000` | round to milliseconds first, then split, giving `1:00.000`, whose seconds field is always below 60 | high (not executed) | Format.SixtySecondsAsWritten | Format.LapTimeRoundedReadsBack |
