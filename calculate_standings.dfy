/**
 * The standalone standings script (backend/calculate_standings.py).
 *
 * For the drivers it does not use the engine's query: it reads the season's
 * results ordered by race date and round, folds them into a dictionary of
 * per-driver totals that also remembers each driver's latest team, ranks the
 * dictionary with Python's stable `sorted`, writes the season-total
 * standings and adds a DriverSeason row for each driver's latest team. For
 * the constructors it runs the engine's whole-season query and upsert loop.
 * Its entry point walks every season with results, newest first.
 *
 * The driver ranking is the engine's whole-season ranking of the same rows
 * in (date, round) order, line for line; over the rows in any order the
 * totals agree and only the order of drivers tied on points and wins can
 * differ.
 */
module CalculateStandingsScript {
  import opened Wrappers
  import opened Seqs
  import opened Records
  import opened ChampionshipService
  import opened DriverSeasons

  // ------------------------------------------------------------------- rows

  /** `order_by('race__date', 'race__round')`. */
  predicate DateRoundLe(a: Result, b: Result) {
    a.race.date < b.race.date || (a.race.date == b.race.date && a.race.round <= b.race.round)
  }

  lemma DateRoundLeIsTotalPreorder()
    ensures TotalPreorder(DateRoundLe)
  {
  }

  /** The script's query: the season's results by race date, then round. */
  function ScriptRows(results: seq<Result>, season: int): (rows: seq<Result>)
    ensures multiset(rows) == multiset(Select(results, season, None))
    ensures SortedBy(rows, DateRoundLe)
    ensures forall r :: r in rows <==> r in results && r.race.season == season
  {
    DateRoundLeIsTotalPreorder();
    var sel := Select(results, season, None);
    var rows := SortBy(sel, DateRoundLe);
    forall r ensures r in rows <==> r in sel {
      assert r in rows <==> r in multiset(rows);
      assert r in sel <==> r in multiset(sel);
    }
    rows
  }

  // ------------------------------------------------------------ aggregation

  /** One value of `driver_stats`. */
  datatype DriverStats = DriverStats(points: int, wins: nat, latestTeam: Option<nat>, latestDate: Option<int>)

  /** The `defaultdict` factory. */
  const NoStats := DriverStats(0, 0, None, None)

  /** The loop body for one result, applied to its driver's entry. */
  function Accumulate(acc: DriverStats, r: Result): DriverStats {
    var later := acc.latestDate == None || r.race.date >= acc.latestDate.value;
    DriverStats(
      acc.points + r.points,
      if IsWin(r) then acc.wins + 1 else acc.wins,
      if later then Some(r.team) else acc.latestTeam,
      if later then Some(r.race.date) else acc.latestDate)
  }

  /** `driver_stats` together with its insertion order, the order Python iterates it in. */
  datatype Aggregate = Aggregate(stats: map<nat, DriverStats>, order: seq<nat>)

  /** The dictionary after the loop has visited `rows`. */
  function AggregateRows(rows: seq<Result>): (agg: Aggregate)
    ensures forall d :: d in agg.stats <==> d in agg.order
    ensures forall d :: d in agg.stats ==> agg.stats[d].latestTeam.Some? && agg.stats[d].latestDate.Some?
  {
    if rows == [] then Aggregate(map[], [])
    else
      var prev := AggregateRows(rows[..|rows| - 1]);
      var r := rows[|rows| - 1];
      var acc := if r.driver in prev.stats then prev.stats[r.driver] else NoStats;
      Aggregate(prev.stats[r.driver := Accumulate(acc, r)],
                if r.driver in prev.stats then prev.order else prev.order + [r.driver])
  }

  /** The loop at lines 37-47. */
  method AggregateDriverStats(rows: seq<Result>) returns (stats: map<nat, DriverStats>, order: seq<nat>)
    ensures Aggregate(stats, order) == AggregateRows(rows)
  {
    stats, order := map[], [];
    for i := 0 to |rows|
      invariant Aggregate(stats, order) == AggregateRows(rows[..i])
    {
      var r := rows[i];
      assert rows[..i + 1][..i] == rows[..i];
      var acc := if r.driver in stats then stats[r.driver] else NoStats;
      if r.driver !in stats {
        order := order + [r.driver];
      }
      stats := stats[r.driver := Accumulate(acc, r)];
    }
    assert rows[..|rows|] == rows;
  }

  lemma {:induction false} UncreditedHasNoTotals(sel: seq<Result>, kind: StandingKind, s: nat)
    requires s !in Credited(sel, kind)
    ensures Points(sel, kind, s) == 0 && Wins(sel, kind, s) == 0
  {
    if sel != [] {
      var init := sel[..|sel| - 1];
      assert sel == init + [sel[|sel| - 1]];
      forall r | r in init ensures r in sel {
      }
      UncreditedHasNoTotals(init, kind, s);
    }
  }

  /**
   * The dictionary holds exactly the drivers with results, in order of first
   * appearance, each with the engine's totals over the same rows.
   */
  lemma {:induction false} AggregateMatchesEngine(rows: seq<Result>)
    ensures var agg := AggregateRows(rows);
      && agg.order == Subjects(rows, DriverKind)
      && forall d :: d in agg.stats ==>
           agg.stats[d].points == Points(rows, DriverKind, d) && agg.stats[d].wins == Wins(rows, DriverKind, d)
  {
    if rows != [] {
      var init, r := rows[..|rows| - 1], rows[|rows| - 1];
      AggregateMatchesEngine(init);
      var agg := AggregateRows(rows);
      forall d | d in agg.stats
        ensures agg.stats[d].points == Points(rows, DriverKind, d) && agg.stats[d].wins == Wins(rows, DriverKind, d)
      {
        if d == r.driver && d !in AggregateRows(init).stats {
          UncreditedHasNoTotals(init, DriverKind, d);
        }
      }
    }
  }

  /**
   * Row `i` is the last of the driver's rows carrying the driver's latest
   * race date: what the `>=` comparison at line 45 settles on.
   */
  ghost predicate LastAtLatestDate(rows: seq<Result>, d: nat, i: int) {
    && 0 <= i < |rows| && rows[i].driver == d
    && (forall j :: 0 <= j < |rows| && rows[j].driver == d ==> rows[j].race.date <= rows[i].race.date)
    && (forall j :: i < j < |rows| && rows[j].driver == d ==> rows[j].race.date < rows[i].race.date)
  }

  /** A later row that does not move the driver's latest date keeps the same row. */
  lemma LatestKeptBy(init: seq<Result>, r: Result, d: nat, i: int)
    requires LastAtLatestDate(init, d, i)
    requires r.driver != d || r.race.date < init[i].race.date
    ensures LastAtLatestDate(init + [r], d, i)
  {
    var rows := init + [r];
    assert forall j :: 0 <= j < |init| ==> rows[j] == init[j];
  }

  /** A row of the driver dated no earlier than all its previous rows becomes the latest. */
  lemma LatestTakenBy(init: seq<Result>, r: Result, d: nat)
    requires r.driver == d
    requires forall j :: 0 <= j < |init| && init[j].driver == d ==> init[j].race.date <= r.race.date
    ensures LastAtLatestDate(init + [r], d, |init|)
  {
    var rows := init + [r];
    assert forall j :: 0 <= j < |init| ==> rows[j] == init[j];
  }

  lemma {:induction false} AggregateLatestTeam(rows: seq<Result>, d: nat)
    requires d in AggregateRows(rows).stats
    ensures exists i :: (LastAtLatestDate(rows, d, i)
      && AggregateRows(rows).stats[d].latestTeam == Some(rows[i].team)
      && AggregateRows(rows).stats[d].latestDate == Some(rows[i].race.date))
  {
    var init, r := rows[..|rows| - 1], rows[|rows| - 1];
    assert rows == init + [r];
    var prev := AggregateRows(init);
    if d in prev.stats {
      AggregateLatestTeam(init, d);
      var i0 :| LastAtLatestDate(init, d, i0)
        && prev.stats[d].latestTeam == Some(init[i0].team) && prev.stats[d].latestDate == Some(init[i0].race.date);
      if r.driver == d && r.race.date >= init[i0].race.date {
        LatestTakenBy(init, r, d);
      } else {
        LatestKeptBy(init, r, d, i0);
      }
    } else {
      AggregateMatchesEngine(init);
      forall j | 0 <= j < |init| ensures init[j].driver != d {
        assert init[j] in init;
        assert SubjectOf(init[j], DriverKind) in Credited(init, DriverKind);
      }
      LatestTakenBy(init, r, d);
    }
  }

  /**
   * On the script's rows, sorted by (date, round), each driver's latest team
   * is the team of one of its rows that no other of its rows follows in
   * (date, round) order.
   */
  lemma LatestTeamIsLatestByDateAndRound(results: seq<Result>, season: int, d: nat)
    requires d in AggregateRows(ScriptRows(results, season)).stats
    ensures exists r :: (r in results && r.race.season == season && r.driver == d
      && AggregateRows(ScriptRows(results, season)).stats[d].latestTeam == Some(r.team)
      && forall r2 :: r2 in results && r2.race.season == season && r2.driver == d ==> DateRoundLe(r2, r))
  {
    var rows := ScriptRows(results, season);
    AggregateLatestTeam(rows, d);
    var i :| LastAtLatestDate(rows, d, i) && AggregateRows(rows).stats[d].latestTeam == Some(rows[i].team);
    forall r2 | r2 in results && r2.race.season == season && r2.driver == d ensures DateRoundLe(r2, rows[i]) {
      var j :| 0 <= j < |rows| && rows[j] == r2;
      if j > i {
        assert DateRoundLe(rows[i], rows[j]);
      } else if j < i {
        assert DateRoundLe(rows[j], rows[i]);
      }
    }
    assert rows[i] in rows;
  }

  // ---------------------------------------------------------------- ranking

  /** One item of `driver_stats.items()`, reduced to the sort keys. */
  datatype Entry = Entry(driver: nat, points: int, wins: nat)

  predicate EntryGe(a: Entry, b: Entry) {
    RanksAbove(a.points, a.wins, b.points, b.wins)
  }

  lemma EntryGeIsTotalPreorder()
    ensures TotalPreorder(EntryGe)
  {
  }

  function EntryOf(agg: Aggregate, d: nat): Entry {
    if d in agg.stats then Entry(d, agg.stats[d].points, agg.stats[d].wins) else Entry(d, 0, 0)
  }

  /**
   * `sorted(driver_stats.items(), key=(points, wins), reverse=True)`: with
   * `reverse=True` Python's sort is still stable, so ties keep insertion order.
   */
  function SortedDrivers(agg: Aggregate): seq<Entry> {
    EntryGeIsTotalPreorder();
    SortBy(Map(agg.order, (d: nat) => EntryOf(agg, d)), EntryGe)
  }

  /** One written line: position, driver, totals and the driver's latest team. */
  datatype Line = Line(position: nat, driver: nat, points: int, wins: nat, team: Option<nat>)

  function Lines(agg: Aggregate): seq<Line> {
    var sorted := SortedDrivers(agg);
    seq(|sorted|, i requires 0 <= i < |sorted| =>
      var d := sorted[i].driver;
      Line(i + 1, d, sorted[i].points, sorted[i].wins, if d in agg.stats then agg.stats[d].latestTeam else None))
  }

  /** The script's driver table for a season. */
  function DriverLines(results: seq<Result>, season: int): seq<Line> {
    Lines(AggregateRows(ScriptRows(results, season)))
  }

  function ProjectTally(t: Tally): Entry {
    Entry(t.subject, t.points, t.wins)
  }

  lemma EntriesAreProjectedTallies(rows: seq<Result>)
    ensures var agg := AggregateRows(rows);
      Map(agg.order, (d: nat) => EntryOf(agg, d)) == Map(Tallies(rows, DriverKind), ProjectTally)
  {
    var agg := AggregateRows(rows);
    AggregateMatchesEngine(rows);
    var a := Map(agg.order, (d: nat) => EntryOf(agg, d));
    var b := Map(Tallies(rows, DriverKind), ProjectTally);
    forall i | 0 <= i < |a| ensures a[i] == b[i] {
      assert agg.order[i] in agg.order;
    }
  }

  /** Sorting the dictionary's items is sorting the engine's tallies and projecting them. */
  lemma SortedDriversAreRankedTallies(rows: seq<Result>)
    ensures TotalPreorder(ScoreGe) &&
      SortedDrivers(AggregateRows(rows)) == Map(SortBy(Tallies(rows, DriverKind), ScoreGe), ProjectTally)
  {
    EntriesAreProjectedTallies(rows);
    ScoreGeIsTotalPreorder();
    EntryGeIsTotalPreorder();
    SortByMap(Tallies(rows, DriverKind), ScoreGe, ProjectTally, EntryGe);
  }

  /**
   * The script's driver table is the engine's whole-season driver table of
   * the same rows, line for line: same positions, drivers, points and wins.
   */
  lemma DriverLinesMatchEngine(results: seq<Result>, season: int)
    ensures var lines := DriverLines(results, season);
      var table := CalculateStandings(ScriptRows(results, season), season, DriverKind, None);
      && |lines| == |table|
      && forall i :: 0 <= i < |lines| ==>
           && lines[i].position == table[i].position && lines[i].driver == table[i].subject
           && lines[i].points == table[i].points && lines[i].wins == table[i].wins
  {
    var rows := ScriptRows(results, season);
    KeepAll(rows, (r: Result) => InScope(r, season, None));
    assert Select(rows, season, None) == rows;
    ScoreGeIsTotalPreorder();
    var ranked := SortBy(Tallies(rows, DriverKind), ScoreGe);
    SortedDriversAreRankedTallies(rows);
    var sorted := SortedDrivers(AggregateRows(rows));
    var lines := DriverLines(results, season);
    var table := CalculateStandings(rows, season, DriverKind, None);
    assert table == Number(ranked);
    assert |lines| == |sorted| == |ranked| == |table|;
    forall i | 0 <= i < |lines|
      ensures && lines[i].position == table[i].position && lines[i].driver == table[i].subject
              && lines[i].points == table[i].points && lines[i].wins == table[i].wins
    {
      assert sorted[i] == ProjectTally(ranked[i]);
    }
  }

  /** The script's rows and the season's results in any order have the same totals. */
  lemma ScriptRowsHaveSameTotals(results: seq<Result>, season: int)
    ensures var rows := ScriptRows(results, season);
      var sel := Select(results, season, None);
      && Select(rows, season, None) == rows
      && Credited(rows, DriverKind) == Credited(sel, DriverKind)
      && forall d :: Points(rows, DriverKind, d) == Points(sel, DriverKind, d)
                  && Wins(rows, DriverKind, d) == Wins(sel, DriverKind, d)
  {
    var rows := ScriptRows(results, season);
    var sel := Select(results, season, None);
    KeepAll(rows, (r: Result) => InScope(r, season, None));
    KeepAll(sel, (r: Result) => InScope(r, season, None));
    forall d ensures Points(rows, DriverKind, d) == Points(sel, DriverKind, d)
                  && Wins(rows, DriverKind, d) == Wins(sel, DriverKind, d) {
      TotalsIgnoreRowOrder(rows, sel, season, DriverKind, None, d);
    }
    TotalsIgnoreRowOrder(rows, sel, season, DriverKind, None, 0);
  }

  /**
   * Over the season's results in any order, each line of the script carries
   * a credited driver with the engine's points and wins.
   */
  lemma DriverTotalsMatchEngine(results: seq<Result>, season: int)
    ensures var lines := DriverLines(results, season);
      var sel := Select(results, season, None);
      forall i :: 0 <= i < |lines| ==>
        && lines[i].driver in Credited(sel, DriverKind)
        && lines[i].points == Points(sel, DriverKind, lines[i].driver)
        && lines[i].wins == Wins(sel, DriverKind, lines[i].driver)
  {
    var rows := ScriptRows(results, season);
    DriverLinesMatchEngine(results, season);
    StandingsAreTable(rows, season, DriverKind, None);
    ScriptRowsHaveSameTotals(results, season);
  }

  /** Every driver with a result in the season gets a line. */
  lemma DriverLinesCoverSeason(results: seq<Result>, season: int)
    ensures var lines := DriverLines(results, season);
      forall d :: d in Credited(Select(results, season, None), DriverKind) ==>
        exists i :: 0 <= i < |lines| && lines[i].driver == d
  {
    var rows := ScriptRows(results, season);
    var lines := DriverLines(results, season);
    var table := CalculateStandings(rows, season, DriverKind, None);
    DriverLinesMatchEngine(results, season);
    StandingsAreTable(rows, season, DriverKind, None);
    ScriptRowsHaveSameTotals(results, season);
    forall d | d in Credited(rows, DriverKind) ensures exists i :: 0 <= i < |lines| && lines[i].driver == d {
      var i :| 0 <= i < |table| && table[i].subject == d;
      assert lines[i].driver == d;
    }
  }

  // ------------------------------------------------------------------ writes

  /** A written driver line as a standing; the script neither computes nor writes `races`. */
  function AsStanding(l: Line): Standing {
    Standing(l.position, l.driver, l.points, l.wins, 0)
  }

  /** The DriverSeason rows the loop upserts: one per ranked driver with a latest team. */
  function TeamRows(lines: seq<Line>, season: int): set<DriverSeason> {
    set l | l in lines && l.team.Some? :: DriverSeason(l.driver, season, l.team.value)
  }

  /** How `calculate_driver_standings` ends: early return, `Season.DoesNotExist`, or the count. */
  datatype ScriptOutcome = NoResults | MissingSeason | Ranked(count: nat)

  function DriverOutcome(results: seq<Result>, seasonYears: set<int>, season: int): ScriptOutcome {
    if Select(results, season, None) == [] then NoResults
    else if season !in seasonYears then MissingSeason
    else Ranked(|DriverLines(results, season)|)
  }

  /** The ChampionshipStanding table after `calculate_driver_standings`. */
  function DriverStandingWrites(rows: map<StandingKey, StandingRow>, results: seq<Result>, seasonYears: set<int>, season: int)
    : map<StandingKey, StandingRow>
  {
    if DriverOutcome(results, seasonYears, season).Ranked?
    then UpsertAll(rows, season, DriverKind, 0, Map(DriverLines(results, season), AsStanding)).rows
    else rows
  }

  /** The DriverSeason table after `calculate_driver_standings`. */
  function DriverSeasonWrites(rows: set<DriverSeason>, results: seq<Result>, seasonYears: set<int>, season: int): set<DriverSeason> {
    if DriverOutcome(results, seasonYears, season).Ranked? then rows + TeamRows(DriverLines(results, season), season) else rows
  }

  lemma TeamRowsStep(lines: seq<Line>, season: int, i: int)
    requires 0 <= i < |lines|
    ensures var l := lines[i];
      TeamRows(lines[..i + 1], season) ==
        TeamRows(lines[..i], season) + (if l.team.Some? then {DriverSeason(l.driver, season, l.team.value)} else {})
  {
    assert lines[..i + 1] == lines[..i] + [lines[i]];
  }

  lemma MapStep<A, B>(s: seq<A>, f: A -> B, i: int)
    requires 0 <= i < |s|
    ensures Map(s[..i + 1], f)[..i] == Map(s[..i], f)
    ensures Map(s[..i + 1], f)[i] == f(s[i])
  {
  }

  /** The loop at lines 61-89: one standing upsert and one DriverSeason upsert per line. */
  method WriteDriverLines(standings: StandingTable, driverSeasons: DriverSeasonTable, season: int, lines: seq<Line>)
    modifies standings, driverSeasons
    ensures standings.rows == UpsertAll(old(standings.rows), season, DriverKind, 0, Map(lines, AsStanding)).rows
    ensures driverSeasons.rows == old(driverSeasons.rows) + TeamRows(lines, season)
  {
    ghost var start, startTeams := standings.rows, driverSeasons.rows;
    for i := 0 to |lines|
      invariant standings.rows == UpsertAll(start, season, DriverKind, 0, Map(lines[..i], AsStanding)).rows
      invariant driverSeasons.rows == startTeams + TeamRows(lines[..i], season)
    {
      var l := lines[i];
      MapStep(lines, AsStanding, i);
      TeamRowsStep(lines, season, i);
      var created := standings.UpdateOrCreate(KeyOf(season, DriverKind, 0, AsStanding(l)), RowOf(AsStanding(l)));
      if l.team.Some? {
        var added := driverSeasons.UpdateOrCreate(DriverSeason(l.driver, season, l.team.value));
      }
    }
    assert lines[..|lines|] == lines;
  }

  /** `calculate_driver_standings` (lines 16-95). */
  method CalculateDriverStandings(standings: StandingTable, driverSeasons: DriverSeasonTable,
                                  results: seq<Result>, seasonYears: set<int>, season: int)
    returns (outcome: ScriptOutcome)
    modifies standings, driverSeasons
    ensures outcome == DriverOutcome(results, seasonYears, season)
    ensures standings.rows == DriverStandingWrites(old(standings.rows), results, seasonYears, season)
    ensures driverSeasons.rows == DriverSeasonWrites(old(driverSeasons.rows), results, seasonYears, season)
  {
    var rows := ScriptRows(results, season);
    assert |rows| == |multiset(rows)| == |Select(results, season, None)|;
    if rows == [] {
      return NoResults;
    }
    var stats, order := AggregateDriverStats(rows);
    var lines := Lines(Aggregate(stats, order));
    if season !in seasonYears {
      return MissingSeason;
    }
    WriteDriverLines(standings, driverSeasons, season, lines);
    outcome := Ranked(|lines|);
  }

  lemma {:induction false} UpsertAllSeesKeysAndRows(rows: map<StandingKey, StandingRow>, season: int, kind: StandingKind,
                                                    round: int, a: seq<Standing>, b: seq<Standing>)
    requires |a| == |b|
    requires forall i :: 0 <= i < |a| ==> a[i].subject == b[i].subject && RowOf(a[i]) == RowOf(b[i])
    ensures UpsertAll(rows, season, kind, round, a) == UpsertAll(rows, season, kind, round, b)
  {
    if a != [] {
      UpsertAllSeesKeysAndRows(rows, season, kind, round, a[..|a| - 1], b[..|b| - 1]);
    }
  }

  /**
   * The script writes the season-total driver rows the engine's
   * `save_driver_standings(season)` writes over the same rows in
   * (date, round) order, with the same created and updated counts.
   */
  lemma DriverWritesMatchEngine(rows: map<StandingKey, StandingRow>, results: seq<Result>, season: int)
    ensures UpsertAll(rows, season, DriverKind, 0, Map(DriverLines(results, season), AsStanding))
         == UpsertAll(rows, season, DriverKind, RoundKey(None), CalculateStandings(ScriptRows(results, season), season, DriverKind, None))
  {
    var a := Map(DriverLines(results, season), AsStanding);
    var b := CalculateStandings(ScriptRows(results, season), season, DriverKind, None);
    DriverLinesMatchEngine(results, season);
    forall i | 0 <= i < |a| ensures a[i].subject == b[i].subject && RowOf(a[i]) == RowOf(b[i]) {
      assert a[i] == AsStanding(DriverLines(results, season)[i]);
    }
    UpsertAllSeesKeysAndRows(rows, season, DriverKind, 0, a, b);
  }

  /**
   * A ranked run leaves the engine's season-total driver table in place and
   * touches no row of another season, type or round.
   */
  lemma DriverRunStores(rows: map<StandingKey, StandingRow>, results: seq<Result>, seasonYears: set<int>, season: int)
    requires DriverOutcome(results, seasonYears, season).Ranked?
    ensures var after := DriverStandingWrites(rows, results, seasonYears, season);
      && Stored(after, ScriptRows(results, season), season, DriverKind, None)
      && forall k :: k in rows && (k.season != season || k.kind != DriverKind || k.round != 0) ==>
           k in after && after[k] == rows[k]
  {
    DriverWritesMatchEngine(rows, results, season);
    SaveEstablishesStored(rows, ScriptRows(results, season), season, DriverKind, None);
    SaveStoresTable(rows, ScriptRows(results, season), season, DriverKind, None);
  }

  /** Every written line has a driver of the dictionary, hence a latest team. */
  lemma LineDriversAreAggregated(rows: seq<Result>, i: int)
    requires 0 <= i < |Lines(AggregateRows(rows))|
    ensures Lines(AggregateRows(rows))[i].driver in AggregateRows(rows).stats
  {
    var agg := AggregateRows(rows);
    EntryGeIsTotalPreorder();
    var entries := Map(agg.order, (d: nat) => EntryOf(agg, d));
    var sorted := SortedDrivers(agg);
    assert sorted[i] in multiset(entries) by {
      assert sorted[i] in sorted;
    }
    var j :| 0 <= j < |entries| && entries[j] == sorted[i];
    assert Lines(agg)[i].driver == sorted[i].driver;
    assert entries[j] == EntryOf(agg, agg.order[j]);
    assert agg.order[j] in agg.order;
  }

  /**
   * Each ranked driver gets the DriverSeason row of the team of its latest
   * result in the season by (date, round).
   */
  lemma RankedDriversGetLatestTeam(results: seq<Result>, season: int, i: int)
    requires 0 <= i < |DriverLines(results, season)|
    ensures var l := DriverLines(results, season)[i];
      exists r :: (r in results && r.race.season == season && r.driver == l.driver
        && DriverSeason(l.driver, season, r.team) in TeamRows(DriverLines(results, season), season)
        && forall r2 :: r2 in results && r2.race.season == season && r2.driver == l.driver ==> DateRoundLe(r2, r))
  {
    var agg := AggregateRows(ScriptRows(results, season));
    var lines := DriverLines(results, season);
    LineDriversAreAggregated(ScriptRows(results, season), i);
    LatestTeamIsLatestByDateAndRound(results, season, lines[i].driver);
    assert lines[i] in lines;
  }

  /**
   * The script only adds DriverSeason rows: a driver who already has a row
   * for another team keeps it, so the table can hold two teams for one
   * driver and season.
   */
  lemma ScriptCanLeaveTwoTeams()
    ensures var race := Race(2024, 1, 100);
      var results := [Result(race, 1, 8, 1, Some(1), 25, Finished, None)];
      var before := {DriverSeason(1, 2024, 7)};
      var after := DriverSeasonWrites(before, results, {2024}, 2024);
      OneTeamPerDriver(before) && !OneTeamPerDriver(after)
  {
    var race := Race(2024, 1, 100);
    var r := Result(race, 1, 8, 1, Some(1), 25, Finished, None);
    var results := [r];
    assert Select(results, 2024, None) == [r] by {
      assert [r][..0] == [];
    }
    assert 0 < |DriverLines(results, 2024)| by {
      DriverLinesCoverSeason(results, 2024);
      assert SubjectOf(r, DriverKind) in Credited(Select(results, 2024, None), DriverKind);
    }
    RankedDriversGetLatestTeam(results, 2024, 0);
    var after := DriverSeasonWrites({DriverSeason(1, 2024, 7)}, results, {2024}, 2024);
    assert DriverSeason(1, 2024, 7) in after && DriverSeason(1, 2024, 8) in after;
  }

  // ------------------------------------------------------------ constructors

  /** The table after `calculate_constructor_standings`: the engine's whole-season save. */
  function ConstructorWrites(rows: map<StandingKey, StandingRow>, results: seq<Result>, season: int): map<StandingKey, StandingRow> {
    UpsertAll(rows, season, ConstructorKind, 0, CalculateStandings(results, season, ConstructorKind, None)).rows
  }

  /**
   * `calculate_constructor_standings` (lines 98-141): `None` and no write for
   * a season without results, otherwise one round-0 row per constructor.
   */
  method CalculateConstructorStandings(standings: StandingTable, results: seq<Result>, season: int)
    returns (count: Option<nat>)
    modifies standings
    ensures Select(results, season, None) == [] ==> count == None && standings.rows == old(standings.rows)
    ensures Select(results, season, None) != [] ==>
      count == Some(|Credited(Select(results, season, None), ConstructorKind)|)
    ensures standings.rows == ConstructorWrites(old(standings.rows), results, season)
  {
    var table := CalculateStandings(results, season, ConstructorKind, None);
    StandingsAreTable(results, season, ConstructorKind, None);
    if table == [] {
      return None;
    }
    var created, updated := UpsertLines(standings, season, ConstructorKind, 0, table);
    count := Some(|table|);
  }

  // --------------------------------------------------------------------- main

  /** `Result.objects.values_list('race__season').distinct()`. */
  function ResultSeasons(results: seq<Result>): set<int> {
    set r | r in results :: r.race.season
  }

  /** The two tables, the seasons finished so far and the season whose lookup raised, if any. */
  datatype RunState = RunState(standings: map<StandingKey, StandingRow>, driverSeasons: set<DriverSeason>,
                               done: seq<int>, failed: Option<int>)

  /**
   * One iteration of the season loop. A missing Season row raises inside
   * `calculate_driver_standings`; nothing catches it, so the script stops
   * with the seasons before it written.
   */
  function RunSeason(st: RunState, results: seq<Result>, seasonYears: set<int>, season: int): RunState {
    if st.failed.Some? then st
    else if DriverOutcome(results, seasonYears, season) == MissingSeason then st.(failed := Some(season))
    else RunState(ConstructorWrites(DriverStandingWrites(st.standings, results, seasonYears, season), results, season),
                  DriverSeasonWrites(st.driverSeasons, results, seasonYears, season),
                  st.done + [season], None)
  }

  function RunSeasons(st: RunState, results: seq<Result>, seasonYears: set<int>, seasons: seq<int>): RunState {
    if seasons == [] then st
    else RunSeason(RunSeasons(st, results, seasonYears, seasons[..|seasons| - 1]), results, seasonYears, seasons[|seasons| - 1])
  }

  /** One season of the loop of `main`, as a step of `RunSeasons`. */
  method RunSeasonStep(standings: StandingTable, driverSeasons: DriverSeasonTable, results: seq<Result>,
                       seasonYears: set<int>, seasons: seq<int>, i: nat,
                       done: seq<int>, failed: Option<int>, ghost start: RunState)
    returns (done': seq<int>, failed': Option<int>)
    requires i < |seasons|
    requires RunState(standings.rows, driverSeasons.rows, done, failed) == RunSeasons(start, results, seasonYears, seasons[..i])
    modifies standings, driverSeasons
    ensures RunState(standings.rows, driverSeasons.rows, done', failed') == RunSeasons(start, results, seasonYears, seasons[..i + 1])
  {
    assert seasons[..i + 1][..i] == seasons[..i];
    done', failed' := done, failed;
    // once a season has raised, the remaining iterations never run
    if failed == None {
      var outcome := CalculateDriverStandings(standings, driverSeasons, results, seasonYears, seasons[i]);
      if outcome == MissingSeason {
        failed' := Some(seasons[i]);
      } else {
        var count := CalculateConstructorStandings(standings, results, seasons[i]);
        done' := done + [seasons[i]];
      }
    }
  }

  /** `main` (lines 144-201), without its printed report. */
  method CalculateAllSeasons(standings: StandingTable, driverSeasons: DriverSeasonTable,
                             results: seq<Result>, seasonYears: set<int>)
    returns (done: seq<int>, failed: Option<int>)
    modifies standings, driverSeasons
    ensures RunState(standings.rows, driverSeasons.rows, done, failed)
         == RunSeasons(RunState(old(standings.rows), old(driverSeasons.rows), [], None), results, seasonYears,
                       Descending(ResultSeasons(results)))
  {
    var seasons := Descending(ResultSeasons(results));
    ghost var start := RunState(standings.rows, driverSeasons.rows, [], None);
    done, failed := [], None;
    for i := 0 to |seasons|
      invariant RunState(standings.rows, driverSeasons.rows, done, failed) == RunSeasons(start, results, seasonYears, seasons[..i])
    {
      done, failed := RunSeasonStep(standings, driverSeasons, results, seasonYears, seasons, i, done, failed, start);
    }
    assert seasons[..|seasons|] == seasons;
  }


  /**
   * The state after a prefix of the loop: the seasons finished so far are a
   * prefix of `seasons`, each with a Season row or without results, and a
   * failure names the next season, which has results and no Season row.
   */
  ghost predicate StoppedAtFirstMissing(out: RunState, results: seq<Result>, seasonYears: set<int>, seasons: seq<int>) {
    && |out.done| <= |seasons| && out.done == seasons[..|out.done|]
    && (forall k :: 0 <= k < |out.done| ==> seasons[k] in seasonYears || Select(results, seasons[k], None) == [])
    && (out.failed == None ==> out.done == seasons)
    && (out.failed.Some? ==>
          && |out.done| < |seasons| && out.failed == Some(seasons[|out.done|])
          && seasons[|out.done|] !in seasonYears && Select(results, seasons[|out.done|], None) != [])
  }

  lemma StoppedAtFirstMissingStep(prev: RunState, results: seq<Result>, seasonYears: set<int>, init: seq<int>, last: int)
    requires StoppedAtFirstMissing(prev, results, seasonYears, init)
    ensures StoppedAtFirstMissing(RunSeason(prev, results, seasonYears, last), results, seasonYears, init + [last])
  {
    var seasons := init + [last];
    assert init == seasons[..|init|];
    if prev.failed.None? {
      assert seasons == prev.done + [last];
    } else {
      assert init[..|prev.done|] == seasons[..|prev.done|];
    }
  }

  /**
   * The loop finishes the seasons in the given order up to the first one
   * with results and no Season row, where it stops.
   */
  lemma {:induction false} RunStopsAtFirstMissingSeason(st: RunState, results: seq<Result>, seasonYears: set<int>, seasons: seq<int>)
    requires st.failed == None && st.done == []
    ensures StoppedAtFirstMissing(RunSeasons(st, results, seasonYears, seasons), results, seasonYears, seasons)
  {
    if seasons != [] {
      var init, last := seasons[..|seasons| - 1], seasons[|seasons| - 1];
      assert init + [last] == seasons;
      var prev := RunSeasons(st, results, seasonYears, init);
      assert RunSeasons(st, results, seasonYears, seasons) == RunSeason(prev, results, seasonYears, last);
      RunStopsAtFirstMissingSeason(st, results, seasonYears, init);
      StoppedAtFirstMissingStep(prev, results, seasonYears, init, last);
    }
  }

  /** With a Season row for every season that has results, `main` processes them all, newest first. */
  lemma MainProcessesEverySeason(st: RunState, results: seq<Result>, seasonYears: set<int>)
    requires st.failed == None && st.done == []
    requires ResultSeasons(results) <= seasonYears
    ensures var out := RunSeasons(st, results, seasonYears, Descending(ResultSeasons(results)));
      out.failed == None && out.done == Descending(ResultSeasons(results)) && StrictlyDecreasing(out.done)
  {
    var seasons := Descending(ResultSeasons(results));
    RunStopsAtFirstMissingSeason(st, results, seasonYears, seasons);
  }

  /** A stored table survives any change that keeps its season's rows of its kind at round 0. */
  lemma StoredTransfers(before: map<StandingKey, StandingRow>, after: map<StandingKey, StandingRow>,
                        results: seq<Result>, season: int, kind: StandingKind)
    requires Stored(before, results, season, kind, None)
    requires forall k: StandingKey :: k in before && k.season == season && k.kind == kind && k.round == 0 ==> k in after && after[k] == before[k]
    ensures Stored(after, results, season, kind, None)
  {
  }

  /** One finished season stores both of its tables and leaves every other season's rows alone. */
  lemma RunSeasonStores(st: RunState, results: seq<Result>, seasonYears: set<int>, season: int)
    requires st.failed == None && DriverOutcome(results, seasonYears, season).Ranked?
    ensures var out := RunSeason(st, results, seasonYears, season);
      && Stored(out.standings, ScriptRows(results, season), season, DriverKind, None)
      && Stored(out.standings, results, season, ConstructorKind, None)
      && OtherSeasonsKept(st.standings, out.standings, season)
  {
    var mid := DriverStandingWrites(st.standings, results, seasonYears, season);
    var out := RunSeason(st, results, seasonYears, season);
    var sts := CalculateStandings(results, season, ConstructorKind, None);
    DriverRunStores(st.standings, results, seasonYears, season);
    forall k: StandingKey | k.kind != ConstructorKind || k.season != season || k.round != 0
      ensures (k in out.standings <==> k in mid) && (k in mid ==> out.standings[k] == mid[k])
    {
      SaveKeepsOtherKeys(mid, season, ConstructorKind, 0, sts, k);
    }
    StoredTransfers(mid, out.standings, ScriptRows(results, season), season, DriverKind);
    SaveEstablishesStored(mid, results, season, ConstructorKind, None);
    forall k: StandingKey | k.season != season
      ensures (k in out.standings <==> k in st.standings) && (k in st.standings ==> out.standings[k] == st.standings[k])
    {
      SaveKeepsOtherKeys(st.standings, season, DriverKind, 0, Map(DriverLines(results, season), AsStanding), k);
    }
  }

  /** Rows of another season survive a later iteration. */
  lemma StoredSurvivesOtherSeason(before: map<StandingKey, StandingRow>, after: map<StandingKey, StandingRow>,
                                  results: seq<Result>, season: int, kind: StandingKind, other: int)
    requires season != other && OtherSeasonsKept(before, after, other)
    requires Stored(before, results, season, kind, None)
    ensures Stored(after, results, season, kind, None)
  {
    StoredTransfers(before, after, results, season, kind);
  }

  /** Every finished season holds both of its tables. */
  ghost predicate FinishedSeasonsStored(out: RunState, results: seq<Result>) {
    forall s :: s in out.done ==>
      Stored(out.standings, ScriptRows(results, s), s, DriverKind, None)
      && Stored(out.standings, results, s, ConstructorKind, None)
  }

  lemma FinishedSeasonsStoredStep(prev: RunState, results: seq<Result>, seasonYears: set<int>, last: int)
    requires FinishedSeasonsStored(prev, results)
    requires last !in prev.done && Select(results, last, None) != []
    ensures FinishedSeasonsStored(RunSeason(prev, results, seasonYears, last), results)
  {
    var out := RunSeason(prev, results, seasonYears, last);
    if prev.failed.None? && DriverOutcome(results, seasonYears, last) != MissingSeason {
      RunSeasonStores(prev, results, seasonYears, last);
      forall s | s in prev.done
        ensures Stored(out.standings, ScriptRows(results, s), s, DriverKind, None)
             && Stored(out.standings, results, s, ConstructorKind, None)
      {
        StoredSurvivesOtherSeason(prev.standings, out.standings, ScriptRows(results, s), s, DriverKind, last);
        StoredSurvivesOtherSeason(prev.standings, out.standings, results, s, ConstructorKind, last);
      }
      assert out.done == prev.done + [last];
    }
  }

  /** In a sequence without duplicates the last element occurs in no proper prefix, which keeps no duplicates. */
  lemma PrefixAvoidsLast(seasons: seq<int>, done: seq<int>)
    requires NoDuplicates(seasons)
    requires |done| < |seasons| && done == seasons[..|done|]
    ensures seasons[|seasons| - 1] !in done && NoDuplicates(done)
  {
    forall k | 0 <= k < |done| ensures done[k] != seasons[|seasons| - 1] {
      assert done[k] == seasons[k];
    }
  }

  /**
   * After the loop every finished season with results holds the engine's
   * constructor table and the engine's driver table of its rows in
   * (date, round) order, at round 0.
   */
  lemma {:induction false} RunStoresEveryFinishedSeason(st: RunState, results: seq<Result>, seasonYears: set<int>, seasons: seq<int>)
    requires st.failed == None && st.done == []
    requires NoDuplicates(seasons)
    requires forall s :: s in seasons ==> Select(results, s, None) != []
    ensures FinishedSeasonsStored(RunSeasons(st, results, seasonYears, seasons), results)
  {
    if seasons != [] {
      var init, last := seasons[..|seasons| - 1], seasons[|seasons| - 1];
      var prev := RunSeasons(st, results, seasonYears, init);
      assert RunSeasons(st, results, seasonYears, seasons) == RunSeason(prev, results, seasonYears, last);
      PrefixAvoidsLast(seasons, init);
      assert forall s :: s in init ==> s in seasons;
      RunStoresEveryFinishedSeason(st, results, seasonYears, init);
      RunStopsAtFirstMissingSeason(st, results, seasonYears, init);
      PrefixAvoidsLast(seasons, prev.done);
      assert last in seasons;
      FinishedSeasonsStoredStep(prev, results, seasonYears, last);
    }
  }

  /** `main` leaves both tables of every season it finishes in place. */
  lemma MainStoresEveryFinishedSeason(st: RunState, results: seq<Result>, seasonYears: set<int>)
    requires st.failed == None && st.done == []
    ensures var out := RunSeasons(st, results, seasonYears, Descending(ResultSeasons(results)));
      forall s :: s in out.done ==>
        Stored(out.standings, ScriptRows(results, s), s, DriverKind, None)
        && Stored(out.standings, results, s, ConstructorKind, None)
  {
    var seasons := Descending(ResultSeasons(results));
    forall s | s in seasons ensures Select(results, s, None) != [] {
      var r :| r in results && r.race.season == s;
      assert r in Select(results, s, None);
    }
    RunStoresEveryFinishedSeason(st, results, seasonYears, seasons);
  }
}
