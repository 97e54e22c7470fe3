/**
 * The data-import command (backend/core/management/commands/import_f1_data.py):
 * how a fetched result row is classified and parsed, how races and their
 * results are upserted, how `--round` narrows the races, and which steps the
 * command's flags select, ending in the standings step of the engine.
 *
 * The remote API is a parameter: a race arrives as a `RaceFeed` holding the
 * rows its results endpoint would return. Drivers and constructors are looked
 * up by their reference strings in maps from reference to database id.
 */
module ImportF1Data {
  import opened Wrappers
  import opened Seqs
  import opened Records
  import opened ChampionshipService
  import opened Progressive

  // ------------------------------------------------------------ status text

  /** `str.lower()` on ASCII letters. */
  function LowerChar(c: char): char {
    if 'A' <= c <= 'Z' then (c as int - 'A' as int + 'a' as int) as char else c
  }

  function Lower(s: string): (t: string)
    ensures |t| == |s|
    ensures forall i :: 0 <= i < |s| ==> t[i] == LowerChar(s[i])
  {
    if s == [] then [] else [LowerChar(s[0])] + Lower(s[1..])
  }

  /** Python's `pattern in text` on strings. */
  function Occurs(pattern: string, text: string): bool
    decreases |text|
  {
    if |pattern| > |text| then false
    else text[..|pattern|] == pattern || Occurs(pattern, text[1..])
  }

  /** The pattern sits in the text at offset `i`. */
  predicate OccursAt(pattern: string, text: string, i: int) {
    0 <= i <= |text| - |pattern| && text[i..i + |pattern|] == pattern
  }

  /** A slice of the text read one character further into its tail. */
  lemma DropOneSlice(text: string, i: int, n: int)
    requires 1 <= i && 0 <= n && i + n <= |text|
    ensures text[i..i + n] == text[1..][i - 1..i - 1 + n]
  {
    var a, b := text[i..i + n], text[1..][i - 1..i - 1 + n];
    forall k | 0 <= k < n
      ensures a[k] == b[k]
    {
    }
  }

  /** `Occurs` finds the pattern exactly when it sits at some offset of the text. */
  lemma {:induction false} OccursIff(pattern: string, text: string)
    ensures Occurs(pattern, text) <==> exists i :: OccursAt(pattern, text, i)
    decreases |text|
  {
    if |pattern| > |text| {
    } else if text[..|pattern|] == pattern {
      assert OccursAt(pattern, text, 0);
    } else {
      var rest := text[1..];
      OccursIff(pattern, rest);
      if Occurs(pattern, rest) {
        var i :| OccursAt(pattern, rest, i);
        DropOneSlice(text, i + 1, |pattern|);
        assert OccursAt(pattern, text, i + 1);
      } else {
        forall i | 0 < i <= |text| - |pattern|
          ensures OccursAt(pattern, text, i) ==> OccursAt(pattern, rest, i - 1)
        {
          DropOneSlice(text, i, |pattern|);
        }
      }
    }
  }

  /** The lowered status text names a retirement: "retire", "engine" or "collision". */
  predicate NamesRetirement(t: string) {
    Occurs("retire", t) || Occurs("engine", t) || Occurs("collision", t)
  }

  /** The status a fetched result is stored with. */
  function ClassifyStatus(text: string): (status: Status)
    ensures status != Dnf && status != Dns
    ensures status == Retired <==> NamesRetirement(Lower(text))
    ensures status == Dsq <==> !NamesRetirement(Lower(text)) && Occurs("disqualif", Lower(text))
    ensures status == Finished <==> !NamesRetirement(Lower(text)) && !Occurs("disqualif", Lower(text))
  {
    var t := Lower(text);
    if NamesRetirement(t) then Retired
    else if Occurs("disqualif", t) then Dsq
    else Finished
  }

  lemma LowerIsIdempotent(s: string)
    ensures Lower(Lower(s)) == Lower(s)
  {
    var once := Lower(s);
    assert forall i :: 0 <= i < |s| ==> LowerChar(once[i]) == once[i];
  }

  /** The classification does not depend on the letter case of the status text. */
  lemma ClassifyIgnoresCase(text: string)
    ensures ClassifyStatus(Lower(text)) == ClassifyStatus(text)
  {
    LowerIsIdempotent(text);
  }

  /** A retirement word wins over a disqualification word in the same text. */
  lemma RetirementWordComesFirst(text: string)
    requires Occurs("engine", Lower(text)) && Occurs("disqualif", Lower(text))
    ensures ClassifyStatus(text) == Retired
  {
  }

  // -------------------------------------------------------------- positions

  /** The outcome of reading `final_position`: absent, a number, or a `ValueError`. */
  datatype Placing = Unplaced | Placed(position: int) | Malformed

  /** `int(position) if position else None`. */
  function FinalPosition(position: Option<string>): (p: Placing)
    ensures p.Unplaced? <==> position.None? || position.value == []
    ensures p.Placed? <==> position.Some? && position.value != [] && ParseInt(position.value).Some?
    ensures p.Placed? ==> ParseInt(position.value) == Some(p.position)
  {
    if position.None? || position.value == [] then Unplaced
    else match ParseInt(position.value)
      case Some(n) => Placed(n)
      case None => Malformed
  }

  /** The decimal text of a number is read back as that number. */
  lemma FinalPositionReadsShownNumber(n: int)
    ensures FinalPosition(Some(ShowInt(n))) == Placed(n)
  {
    ParseShowRoundTrip(n);
  }

  // ---------------------------------------------------------------- results

  /** One row of the results endpoint; `None` stands for an absent key. */
  datatype ResultData = ResultData(
    driverRef: string,
    constructorRef: string,
    grid: string,
    position: Option<string>,
    points: int,
    laps: Option<string>,
    status: Option<string>)

  /** The `(race, driver)` lookup of the result upsert; a race is (season, round). */
  datatype ResultKey = ResultKey(season: int, round: int, driver: nat)

  /** Both foreign keys resolve; otherwise the row is skipped. */
  predicate Known(d: ResultData, drivers: map<string, nat>, teams: map<string, nat>) {
    d.driverRef in drivers && d.constructorRef in teams
  }

  /** Every `int(...)` conversion of the row succeeds. */
  predicate Readable(d: ResultData) {
    ParseInt(d.grid).Some? && !FinalPosition(d.position).Malformed?
      && (d.laps.Some? ==> ParseInt(d.laps.value).Some?)
  }

  function StatusText(d: ResultData): string {
    d.status.GetOr("")
  }

  /** The stored row built from the upsert defaults, keeping the given retirement reason. */
  function StoredResult(race: Race, driver: nat, team: nat, d: ResultData, reason: Option<string>): (r: Result)
    requires Readable(d)
  {
    Result(race, driver, team, ParseInt(d.grid).value,
      if FinalPosition(d.position).Placed? then Some(FinalPosition(d.position).position) else None,
      d.points, ClassifyStatus(StatusText(d)), reason)
  }

  function KeyOfRow(race: Race, driver: nat): ResultKey {
    ResultKey(race.season, race.round, driver)
  }

  /** The result table, the count of created rows, and whether a `ValueError` ended the import. */
  datatype ImportState = ImportState(rows: map<ResultKey, Result>, imported: nat, failed: bool)

  /** One iteration of the `_import_results` loop. */
  function ImportOne(st: ImportState, race: Race, drivers: map<string, nat>, teams: map<string, nat>, d: ResultData)
    : ImportState
  {
    if st.failed || !Known(d, drivers, teams) then st
    else if !Readable(d) then st.(failed := true)
    else
      var key := KeyOfRow(race, drivers[d.driverRef]);
      var reason := if key in st.rows then st.rows[key].retirementReason else None;
      ImportState(st.rows[key := StoredResult(race, drivers[d.driverRef], teams[d.constructorRef], d, reason)],
        st.imported + (if key in st.rows then 0 else 1), false)
  }

  /** The whole `_import_results` loop over the fetched rows. */
  function ImportResultRows(st: ImportState, race: Race, drivers: map<string, nat>, teams: map<string, nat>,
                            data: seq<ResultData>): ImportState
  {
    if data == [] then st
    else ImportOne(ImportResultRows(st, race, drivers, teams, data[..|data| - 1]), race, drivers, teams, data[|data| - 1])
  }

  /** The result table: the `Result` rows, keyed by `(race, driver)`. */
  class ResultTable {
    var rows: map<ResultKey, Result>

    constructor ()
      ensures rows == map[]
    {
      rows := map[];
    }

    /** `Result.objects.update_or_create(race=..., driver=..., defaults=...)`; the retirement reason is not a default. */
    method UpdateOrCreate(key: ResultKey, defaults: Result) returns (created: bool)
      modifies this
      ensures created <==> key !in old(rows)
      ensures rows == old(rows)[key := defaults.(retirementReason :=
        if created then None else old(rows)[key].retirementReason)]
    {
      created := key !in rows;
      var reason := if created then None else rows[key].retirementReason;
      rows := rows[key := defaults.(retirementReason := reason)];
    }
  }

  /** `_import_results`: upserts each fetched row of one race; a `ValueError` stops the import. */
  method ImportResults(table: ResultTable, race: Race, drivers: map<string, nat>, teams: map<string, nat>,
                       data: seq<ResultData>, imported0: nat) returns (imported: nat, failed: bool)
    modifies table
    ensures ImportState(table.rows, imported, failed)
      == ImportResultRows(ImportState(old(table.rows), imported0, false), race, drivers, teams, data)
  {
    ghost var start := ImportState(table.rows, imported0, false);
    imported, failed := imported0, false;
    for i := 0 to |data|
      invariant ImportState(table.rows, imported, failed) == ImportResultRows(start, race, drivers, teams, data[..i])
    {
      assert data[..i + 1][..i] == data[..i];
      var d := data[i];
      if !failed && Known(d, drivers, teams) {
        if !Readable(d) {
          failed := true;
        } else {
          var driver := drivers[d.driverRef];
          var created := table.UpdateOrCreate(KeyOfRow(race, driver),
            StoredResult(race, driver, teams[d.constructorRef], d, None));
          if created {
            imported := imported + 1;
          }
        }
      }
    }
    assert data[..|data|] == data;
  }

  /** A row with known references that does not parse: it raises the `ValueError`. */
  predicate Rejected(d: ResultData, drivers: map<string, nat>, teams: map<string, nat>) {
    Known(d, drivers, teams) && !Readable(d)
  }

  /** Some row of the batch is rejected. */
  predicate HasRejected(data: seq<ResultData>, drivers: map<string, nat>, teams: map<string, nat>) {
    exists d :: d in data && Rejected(d, drivers, teams)
  }

  /** The import fails exactly when some row with known references does not parse. */
  lemma {:induction false} ImportFailsOnUnreadableRow(st: ImportState, race: Race, drivers: map<string, nat>,
                                                       teams: map<string, nat>, data: seq<ResultData>)
    ensures ImportResultRows(st, race, drivers, teams, data).failed <==> st.failed || HasRejected(data, drivers, teams)
  {
    if data != [] {
      ImportFailsOnUnreadableRow(st, race, drivers, teams, data[..|data| - 1]);
      ImportRowsFail(st, race, drivers, teams, data);
      ExistsStep(data, (d: ResultData) => Rejected(d, drivers, teams));
    }
  }

  /** The last row ends the import exactly when its references are known and it does not parse. */
  lemma ImportRowsFail(st: ImportState, race: Race, drivers: map<string, nat>, teams: map<string, nat>,
                       data: seq<ResultData>)
    requires data != []
    ensures ImportResultRows(st, race, drivers, teams, data).failed <==>
      ImportResultRows(st, race, drivers, teams, data[..|data| - 1]).failed || Rejected(data[|data| - 1], drivers, teams)
  {
  }

  /** Rows are only added or rewritten; the count of created rows is the growth of the table. */
  lemma {:induction false} ImportCountsCreatedRows(st: ImportState, race: Race, drivers: map<string, nat>,
                                                    teams: map<string, nat>, data: seq<ResultData>)
    ensures var after := ImportResultRows(st, race, drivers, teams, data);
      && st.rows.Keys <= after.rows.Keys
      && after.imported >= st.imported
      && |after.rows| == |st.rows| + (after.imported - st.imported)
  {
    if data != [] {
      var init := data[..|data| - 1];
      ImportCountsCreatedRows(st, race, drivers, teams, init);
      var mid := ImportResultRows(st, race, drivers, teams, init);
      var d := data[|data| - 1];
      if !mid.failed && Known(d, drivers, teams) && Readable(d) {
        var key := KeyOfRow(race, drivers[d.driverRef]);
        if key !in mid.rows {
          assert |mid.rows[key := StoredResult(race, drivers[d.driverRef], teams[d.constructorRef], d, None)]| == |mid.rows| + 1;
        } else {
          assert mid.rows[key := StoredResult(race, drivers[d.driverRef], teams[d.constructorRef], d, mid.rows[key].retirementReason)].Keys == mid.rows.Keys;
        }
      }
    }
  }

  /** A retirement reason already stored survives the import; new rows carry none. */
  lemma {:induction false} ImportKeepsRetirementReasons(st: ImportState, race: Race, drivers: map<string, nat>,
                                                         teams: map<string, nat>, data: seq<ResultData>)
    ensures var after := ImportResultRows(st, race, drivers, teams, data);
      && (forall k :: k in st.rows ==> k in after.rows && after.rows[k].retirementReason == st.rows[k].retirementReason)
      && (forall k :: k in after.rows && k !in st.rows ==> after.rows[k].retirementReason == None)
  {
    if data != [] {
      ImportKeepsRetirementReasons(st, race, drivers, teams, data[..|data| - 1]);
    }
  }

  /** Rows of other races are left exactly as they were. */
  lemma {:induction false} ImportTouchesOnlyItsRace(st: ImportState, race: Race, drivers: map<string, nat>,
                                                     teams: map<string, nat>, data: seq<ResultData>, k: ResultKey)
    requires k.season != race.season || k.round != race.round
    ensures var after := ImportResultRows(st, race, drivers, teams, data);
      (k in after.rows <==> k in st.rows) && (k in st.rows ==> after.rows[k] == st.rows[k])
  {
    if data != [] {
      ImportTouchesOnlyItsRace(st, race, drivers, teams, data[..|data| - 1], k);
    }
  }

  /**
   * After an import without error, the last fetched row for a driver decides
   * every stored field of that driver's result except the retirement reason.
   */
  lemma {:induction false} ImportStoresLastRowPerDriver(st: ImportState, race: Race, drivers: map<string, nat>,
                                                         teams: map<string, nat>, data: seq<ResultData>, i: nat)
    requires !ImportResultRows(st, race, drivers, teams, data).failed
    requires i < |data| && Known(data[i], drivers, teams)
    requires forall j :: i < j < |data| && Known(data[j], drivers, teams) ==>
      drivers[data[j].driverRef] != drivers[data[i].driverRef]
    ensures Readable(data[i])
    ensures var after := ImportResultRows(st, race, drivers, teams, data);
      var key := KeyOfRow(race, drivers[data[i].driverRef]);
      key in after.rows &&
      after.rows[key] == StoredResult(race, drivers[data[i].driverRef], teams[data[i].constructorRef], data[i],
        after.rows[key].retirementReason)
  {
    var init := data[..|data| - 1];
    var mid := ImportResultRows(st, race, drivers, teams, init);
    var d := data[|data| - 1];
    ImportFailsOnUnreadableRow(st, race, drivers, teams, data);
    if i < |data| - 1 {
      ImportStoresLastRowPerDriver(st, race, drivers, teams, init, i);
    }
  }

  /** Rows whose driver or constructor is unknown change nothing, not even the count. */
  lemma {:induction false} UnknownRowsAreSkipped(st: ImportState, race: Race, drivers: map<string, nat>,
                                                  teams: map<string, nat>, data: seq<ResultData>)
    requires forall d :: d in data ==> !Known(d, drivers, teams)
    ensures ImportResultRows(st, race, drivers, teams, data) == st
  {
    if data != [] {
      assert forall d :: d in data[..|data| - 1] ==> d in data;
      UnknownRowsAreSkipped(st, race, drivers, teams, data[..|data| - 1]);
    }
  }

  // ------------------------------------------------------------------ races

  /** One race of the season schedule with the result rows fetched for it. */
  datatype RaceFeed = RaceFeed(round: int, date: int, results: seq<ResultData>)

  /** `if round_num: races = [r for r in races if int(r['round']) == round_num]`. */
  function FilterRounds(feeds: seq<RaceFeed>, roundNum: Option<int>): (kept: seq<RaceFeed>)
    ensures Truthy(roundNum) ==> forall f :: f in kept <==> f in feeds && f.round == roundNum.value
    ensures !Truthy(roundNum) ==> kept == feeds
  {
    if Truthy(roundNum) then Keep(feeds, (f: RaceFeed) => f.round == roundNum.value) else feeds
  }

  /** Filtering twice by the same round is filtering once. */
  lemma FilterRoundsIsIdempotent(feeds: seq<RaceFeed>, roundNum: Option<int>)
    ensures FilterRounds(FilterRounds(feeds, roundNum), roundNum) == FilterRounds(feeds, roundNum)
  {
    if Truthy(roundNum) {
      var kept := FilterRounds(feeds, roundNum);
      KeepAll(kept, (f: RaceFeed) => f.round == roundNum.value);
    }
  }

  /** The race table: `race_id` is built from season and round. */
  datatype RaceId = RaceId(season: int, round: int)

  /** The race table, the result import, and the count of created races. */
  datatype RacesState = RacesState(races: map<RaceId, Race>, results: ImportState, racesCreated: nat)

  /** One race of `import_races`: upsert the race, then import its results. */
  function ImportRaceStep(st: RacesState, season: int, drivers: map<string, nat>, teams: map<string, nat>, f: RaceFeed)
    : RacesState
  {
    if st.results.failed then st
    else
      var race := Race(season, f.round, f.date);
      var id := RaceId(season, f.round);
      RacesState(st.races[id := race], ImportResultRows(st.results, race, drivers, teams, f.results),
        st.racesCreated + (if id in st.races then 0 else 1))
  }

  function ImportRaceFeeds(st: RacesState, season: int, drivers: map<string, nat>, teams: map<string, nat>,
                           feeds: seq<RaceFeed>): RacesState
  {
    if feeds == [] then st
    else ImportRaceStep(ImportRaceFeeds(st, season, drivers, teams, feeds[..|feeds| - 1]), season, drivers, teams, feeds[|feeds| - 1])
  }

  /** The race table: `Race` rows keyed by `race_id`. */
  class RaceTable {
    var races: map<RaceId, Race>

    constructor ()
      ensures races == map[]
    {
      races := map[];
    }

    /** `_import_race`: `Race.objects.update_or_create(race_id=..., defaults=...)`. */
    method UpdateOrCreate(season: int, f: RaceFeed) returns (race: Race, created: bool)
      modifies this
      ensures race == Race(season, f.round, f.date)
      ensures created <==> RaceId(season, f.round) !in old(races)
      ensures races == old(races)[RaceId(season, f.round) := race]
    {
      race := Race(season, f.round, f.date);
      created := RaceId(season, f.round) !in races;
      races := races[RaceId(season, f.round) := race];
    }
  }

  /** `import_races`: the races of the season, narrowed by `--round`, each with its results. */
  method ImportRaces(raceTable: RaceTable, resultTable: ResultTable, season: int, roundNum: Option<int>,
                     drivers: map<string, nat>, teams: map<string, nat>, feeds: seq<RaceFeed>)
    returns (racesCreated: nat, resultsCreated: nat, failed: bool)
    modifies raceTable, resultTable
    ensures RacesState(raceTable.races, ImportState(resultTable.rows, resultsCreated, failed), racesCreated)
      == ImportRaceFeeds(RacesState(old(raceTable.races), ImportState(old(resultTable.rows), 0, false), 0),
                         season, drivers, teams, FilterRounds(feeds, roundNum))
  {
    var selected := FilterRounds(feeds, roundNum);
    ghost var start := RacesState(raceTable.races, ImportState(resultTable.rows, 0, false), 0);
    racesCreated, resultsCreated, failed := 0, 0, false;
    for i := 0 to |selected|
      invariant RacesState(raceTable.races, ImportState(resultTable.rows, resultsCreated, failed), racesCreated)
        == ImportRaceFeeds(start, season, drivers, teams, selected[..i])
    {
      assert selected[..i + 1][..i] == selected[..i];
      if !failed {
        var race, created := raceTable.UpdateOrCreate(season, selected[i]);
        if created {
          racesCreated := racesCreated + 1;
        }
        resultsCreated, failed := ImportResults(resultTable, race, drivers, teams, selected[i].results, resultsCreated);
      }
    }
    assert selected[..|selected|] == selected;
  }

  /** Every imported race is in the race table; the created counts are the growth of both tables. */
  lemma {:induction false} ImportRacesCounts(st: RacesState, season: int, drivers: map<string, nat>,
                                             teams: map<string, nat>, feeds: seq<RaceFeed>)
    ensures var after := ImportRaceFeeds(st, season, drivers, teams, feeds);
      && st.races.Keys <= after.races.Keys
      && after.racesCreated >= st.racesCreated
      && |after.races| == |st.races| + (after.racesCreated - st.racesCreated)
      && st.results.rows.Keys <= after.results.rows.Keys
      && after.results.imported >= st.results.imported
      && |after.results.rows| == |st.results.rows| + (after.results.imported - st.results.imported)
  {
    if feeds != [] {
      var mid := ImportRaceFeeds(st, season, drivers, teams, feeds[..|feeds| - 1]);
      ImportRacesCounts(st, season, drivers, teams, feeds[..|feeds| - 1]);
      var f := feeds[|feeds| - 1];
      if !mid.results.failed {
        var id := RaceId(season, f.round);
        var race := Race(season, f.round, f.date);
        ImportCountsCreatedRows(mid.results, race, drivers, teams, f.results);
        if id in mid.races {
          assert mid.races[id := race].Keys == mid.races.Keys;
        }
      }
    }
  }

  /** Without an error, every selected race ends up in the race table with its fetched date. */
  lemma {:induction false} ImportedRacesAreStored(st: RacesState, season: int, drivers: map<string, nat>,
                                                  teams: map<string, nat>, feeds: seq<RaceFeed>, f: RaceFeed)
    requires !ImportRaceFeeds(st, season, drivers, teams, feeds).results.failed
    requires f in feeds
    requires forall g :: g in feeds && g.round == f.round ==> g.date == f.date
    ensures var after := ImportRaceFeeds(st, season, drivers, teams, feeds);
      RaceId(season, f.round) in after.races && after.races[RaceId(season, f.round)] == Race(season, f.round, f.date)
  {
    var init := feeds[..|feeds| - 1];
    var last := feeds[|feeds| - 1];
    var mid := ImportRaceFeeds(st, season, drivers, teams, init);
    assert !mid.results.failed;
    if f != last {
      assert f in init;
      assert forall g :: g in init ==> g in feeds;
      ImportedRacesAreStored(st, season, drivers, teams, init, f);
    }
  }

  // --------------------------------------------------------------- dispatch

  /** The command's options. */
  datatype Options = Options(
    round: Option<int>,
    drivers: bool,
    constructors: bool,
    races: bool,
    calculateStandings: bool,
    recalculateAll: bool)

  /** The steps `handle` can run; `RecalculateSeason` is `recalculate_all_standings(season)`. */
  datatype Step = ImportDrivers | ImportConstructors | ImportRacesOf(onlyRound: Option<int>)
                | SaveRound(round: int) | RecalculateSeason

  /** No import flag is set. */
  predicate ImportEverything(o: Options) {
    !(o.drivers || o.constructors || o.races)
  }

  /** The standings step of `calculate_standings`: one round when a truthy round is given. */
  function StandingsSteps(round: Option<int>): seq<Step> {
    if Truthy(round) then [SaveRound(round.value)] else [RecalculateSeason]
  }

  /** The steps `handle` runs, in order. */
  function Plan(o: Options): seq<Step> {
    if o.recalculateAll then [RecalculateSeason]
    else
      (if ImportEverything(o) || o.drivers then [ImportDrivers] else [])
      + (if ImportEverything(o) || o.constructors then [ImportConstructors] else [])
      + (if ImportEverything(o) || o.races then [ImportRacesOf(o.round)] else [])
      + (if o.calculateStandings then StandingsSteps(o.round) else [])
  }

  /** Which steps run, by flag. */
  lemma PlanSelectsSteps(o: Options)
    ensures ImportDrivers in Plan(o) <==> !o.recalculateAll && (ImportEverything(o) || o.drivers)
    ensures ImportConstructors in Plan(o) <==> !o.recalculateAll && (ImportEverything(o) || o.constructors)
    ensures (exists r :: ImportRacesOf(r) in Plan(o)) <==> !o.recalculateAll && (ImportEverything(o) || o.races)
    ensures forall r :: ImportRacesOf(r) in Plan(o) ==> r == o.round
    ensures forall n :: SaveRound(n) in Plan(o) <==>
      !o.recalculateAll && o.calculateStandings && Truthy(o.round) && n == o.round.value
    ensures RecalculateSeason in Plan(o) <==>
      o.recalculateAll || (o.calculateStandings && !Truthy(o.round))
    ensures o.recalculateAll ==> |Plan(o)| == 1
  {
    if !o.recalculateAll && (ImportEverything(o) || o.races) {
      assert ImportRacesOf(o.round) in Plan(o);
    }
  }

  /** Imports come before the standings step: only the last step can be a standings step. */
  lemma PlanEndsWithStandings(o: Options)
    ensures forall i :: 0 <= i < |Plan(o)| - 1 ==> Plan(o)[i].ImportDrivers? || Plan(o)[i].ImportConstructors? || Plan(o)[i].ImportRacesOf?
  {
  }

  /** What the standings step does to the standings table. */
  function StandingsEffect(rows: map<StandingKey, StandingRow>, races: seq<Race>, results: seq<Result>,
                           season: int, step: Step): RecalcState
    requires step.SaveRound? || step == RecalculateSeason
  {
    if step.SaveRound? then SaveBoth(RecalcState(rows, Stats(0, 0, 0, 0)), results, season, Some(step.round))
    else Recalculate(rows, races, results, season)
  }

  /** `calculate_standings` (and the `--recalculate-all` branch): the engine's saves. */
  method RunStandingsStep(table: StandingTable, races: seq<Race>, results: seq<Result>, season: int, step: Step)
    returns (stats: Stats)
    requires step.SaveRound? || step == RecalculateSeason
    modifies table
    ensures RecalcState(table.rows, stats) == StandingsEffect(old(table.rows), races, results, season, step)
  {
    if step.SaveRound? {
      stats := SaveBothStandings(table, results, season, Some(step.round), Stats(0, 0, 0, 0));
    } else {
      stats := RecalculateAllStandings(table, races, results, season);
    }
  }

  /**
   * After the standings step, the tables the engine computes are in the
   * standings table: for the round given, or for every round of the season
   * and the season total.
   */
  lemma StandingsStepStoresTables(rows: map<StandingKey, StandingRow>, races: seq<Race>, results: seq<Result>,
                                  season: int, step: Step, kind: StandingKind)
    requires step.SaveRound? || step == RecalculateSeason
    ensures var after := StandingsEffect(rows, races, results, season, step).rows;
      && (step.SaveRound? ==> Stored(after, results, season, kind, Some(step.round)))
      && (step == RecalculateSeason ==>
            Stored(after, results, season, kind, None)
            && forall race :: race in races && race.season == season ==>
                 Stored(after, results, season, kind, Some(race.round)))
  {
    if step.SaveRound? {
      SaveBothStores(RecalcState(rows, Stats(0, 0, 0, 0)), results, season, Some(step.round), kind);
    } else {
      RecalculateStoresEveryRound(rows, races, results, season);
    }
  }
}
