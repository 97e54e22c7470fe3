/**
 * The DriverSeason maintenance script (backend/populate_driver_seasons.py).
 *
 * For every season, newest first, and every result row in it, the script
 * takes the row's driver, finds the driver's latest result by (date, round),
 * deletes the driver's rows for that season that name another team, and
 * upserts the row for the latest team; a driver with several results is
 * visited once per result. Afterwards every such driver has exactly one row
 * per season; a second run changes nothing.
 */
module DriverSeasonPopulation {
  import opened Wrappers
  import opened Seqs
  import opened Records
  import opened ChampionshipService
  import opened DriverSeasons
  import opened CalculateStandingsScript

  predicate DateRoundLt(a: Result, b: Result) {
    a.race.date < b.race.date || (a.race.date == b.race.date && a.race.round < b.race.round)
  }

  /**
   * `.order_by('-race__date', '-race__round').first()` over the driver's
   * results in the season: a result no other one follows in (date, round)
   * order, `None` when the driver has none. Equal keys keep the earlier row.
   */
  function LatestResult(results: seq<Result>, driver: nat, season: int): (latest: Option<Result>)
    ensures latest.None? <==> forall r :: r in results ==> r.driver != driver || r.race.season != season
    ensures latest.Some? ==>
      && latest.value in results && latest.value.driver == driver && latest.value.race.season == season
      && forall r :: r in results && r.driver == driver && r.race.season == season ==> DateRoundLe(r, latest.value)
  {
    if results == [] then None
    else
      var prev := LatestResult(results[..|results| - 1], driver, season);
      var r := results[|results| - 1];
      assert forall x :: x in results <==> x in results[..|results| - 1] || x == r by {
        assert results == results[..|results| - 1] + [r];
      }
      if r.driver != driver || r.race.season != season then prev
      else if prev.None? || DateRoundLt(prev.value, r) then Some(r)
      else prev
  }

  /** `Result`'s default ordering within one season: by the race's `round` (`Race` orders by `-season, round`). */
  predicate RoundLe(a: Result, b: Result) {
    a.race.round <= b.race.round
  }

  lemma RoundLeIsTotalPreorder()
    ensures TotalPreorder(RoundLe)
  {
  }

  /**
   * `drivers_in_season`. `values_list('driver').distinct()` keeps the
   * columns of `Result`'s default ordering in the `SELECT DISTINCT`, and
   * `(race, final_position)` differs on every row of a season, so the query
   * yields the driver of every result row of the season, in round order.
   */
  function DriverOf(r: Result): nat {
    r.driver
  }

  function DriversInSeason(results: seq<Result>, season: int): (drivers: seq<nat>)
    ensures |drivers| == |Select(results, season, None)|
    ensures forall d :: d in drivers <==> exists r :: r in results && r.race.season == season && r.driver == d
  {
    var sel := Select(results, season, None);
    RoundLeIsTotalPreorder();
    var rows := SortBy(sel, RoundLe);
    var drivers := Map(rows, DriverOf);
    forall d ensures d in drivers <==> exists r :: r in sel && r.driver == d {
      MapOfPermutation(rows, sel, DriverOf, d, (r: Result) => r.driver == d);
    }
    drivers
  }

  /** A driver is listed once per result row of theirs in the season. */
  lemma DriversInSeasonCounts(results: seq<Result>, season: int, driver: nat)
    ensures multiset(DriversInSeason(results, season))[driver]
         == Count(Select(results, season, None), (r: Result) => r.driver == driver)
  {
    RoundLeIsTotalPreorder();
    var sel := Select(results, season, None);
    MapOfPermutation(SortBy(sel, RoundLe), sel, DriverOf, driver, (r: Result) => r.driver == driver);
  }

  /** The table and the three counters. */
  datatype PopulateState = PopulateState(rows: set<DriverSeason>, created: nat, updated: nat, deleted: nat)

  /** The driver's only row for the season names the team of its latest result. */
  ghost predicate PairSettled(rows: set<DriverSeason>, results: seq<Result>, driver: nat, season: int) {
    var latest := LatestResult(results, driver, season);
    && latest.Some?
    && DriverSeason(driver, season, latest.value.team) in rows
    && forall x :: x in rows && x.driver == driver && x.season == season ==> x.team == latest.value.team
  }

  /** A settled pair has exactly one team. */
  lemma SettledPairHasOneTeam(rows: set<DriverSeason>, results: seq<Result>, driver: nat, season: int)
    requires PairSettled(rows, results, driver, season)
    ensures TeamsOf(rows, driver, season) == {LatestResult(results, driver, season).value.team}
  {
    var t := LatestResult(results, driver, season).value.team;
    assert t in TeamsOf(rows, driver, season) by {
      assert DriverSeason(driver, season, t) in rows;
    }
  }

  /** Whether a pair is settled depends only on that pair's rows. */
  lemma SettledKept(rows: set<DriverSeason>, rows': set<DriverSeason>, results: seq<Result>, driver: nat, season: int)
    requires PairSettled(rows, results, driver, season)
    requires forall x: DriverSeason :: x.driver == driver && x.season == season ==> (x in rows' <==> x in rows)
    ensures PairSettled(rows', results, driver, season)
  {
  }

  /** One pass of the inner loop body (lines 38-75). */
  function ProcessDriver(st: PopulateState, results: seq<Result>, season: int, driver: nat): (after: PopulateState)
    ensures after.created + after.updated == st.created + st.updated + (if LatestResult(results, driver, season).Some? then 1 else 0)
    ensures after.created >= st.created
    ensures after.deleted + |after.rows| == st.deleted + |st.rows| + (after.created - st.created)
    ensures forall x: DriverSeason :: x.driver != driver || x.season != season ==> (x in after.rows <==> x in st.rows)
    ensures LatestResult(results, driver, season).Some? ==> PairSettled(after.rows, results, driver, season)
  {
    match LatestResult(results, driver, season)
    case None => st
    case Some(r) =>
      var others := OtherTeams(st.rows, driver, season, r.team);
      var row := DriverSeason(driver, season, r.team);
      var kept := st.rows - others;
      assert |kept| + |others| == |st.rows| by {
        assert st.rows == kept + others;
      }
      assert row in kept <==> row in st.rows;
      PopulateState(kept + {row},
                    if row in kept then st.created else st.created + 1,
                    if row in kept then st.updated + 1 else st.updated,
                    st.deleted + |others|)
  }

  function ProcessDrivers(st: PopulateState, results: seq<Result>, season: int, drivers: seq<nat>): PopulateState {
    if drivers == [] then st
    else ProcessDriver(ProcessDrivers(st, results, season, drivers[..|drivers| - 1]), results, season, drivers[|drivers| - 1])
  }

  function ProcessSeasons(st: PopulateState, results: seq<Result>, seasons: seq<int>): PopulateState {
    if seasons == [] then st
    else
      var s := seasons[|seasons| - 1];
      ProcessDrivers(ProcessSeasons(st, results, seasons[..|seasons| - 1]), results, s, DriversInSeason(results, s))
  }

  /** Lines 38-75 for one driver, on the table and the three counters. */
  method SettleDriver(table: DriverSeasonTable, results: seq<Result>, season: int, driver: nat,
                      created: nat, updated: nat, deleted: nat)
    returns (created': nat, updated': nat, deleted': nat)
    modifies table
    ensures PopulateState(table.rows, created', updated', deleted')
         == ProcessDriver(PopulateState(old(table.rows), created, updated, deleted), results, season, driver)
  {
    created', updated', deleted' := created, updated, deleted;
    var latest := LatestResult(results, driver, season);
    if latest.Some? {
      var team := latest.value.team;
      var removed := table.DeleteOtherTeams(driver, season, team);
      deleted' := deleted' + removed;
      var isNew := table.UpdateOrCreate(DriverSeason(driver, season, team));
      if isNew {
        created' := created' + 1;
      } else {
        updated' := updated' + 1;
      }
    }
  }

  /** The inner loop of lines 33-75: every driver of one season. */
  method SettleSeason(table: DriverSeasonTable, results: seq<Result>, season: int,
                      created: nat, updated: nat, deleted: nat)
    returns (created': nat, updated': nat, deleted': nat)
    modifies table
    ensures PopulateState(table.rows, created', updated', deleted')
         == ProcessDrivers(PopulateState(old(table.rows), created, updated, deleted), results, season, DriversInSeason(results, season))
  {
    var drivers := DriversInSeason(results, season);
    ghost var before := PopulateState(table.rows, created, updated, deleted);
    created', updated', deleted' := created, updated, deleted;
    for j := 0 to |drivers|
      invariant PopulateState(table.rows, created', updated', deleted') == ProcessDrivers(before, results, season, drivers[..j])
    {
      assert drivers[..j + 1][..j] == drivers[..j];
      created', updated', deleted' := SettleDriver(table, results, season, drivers[j], created', updated', deleted');
    }
    assert drivers[..|drivers|] == drivers;
  }

  /** One season of the outer loop, as a step of `ProcessSeasons`. */
  method SettleSeasonStep(table: DriverSeasonTable, results: seq<Result>, seasons: seq<int>, i: nat,
                          created: nat, updated: nat, deleted: nat, ghost start: PopulateState)
    returns (created': nat, updated': nat, deleted': nat)
    requires i < |seasons|
    requires PopulateState(table.rows, created, updated, deleted) == ProcessSeasons(start, results, seasons[..i])
    modifies table
    ensures PopulateState(table.rows, created', updated', deleted') == ProcessSeasons(start, results, seasons[..i + 1])
  {
    assert seasons[..i + 1][..i] == seasons[..i];
    created', updated', deleted' := SettleSeason(table, results, seasons[i], created, updated, deleted);
  }

  /**
   * `populate_driver_seasons`: `Season.objects.all()` in the model's
   * `-year` order, then every driver with a result in the season.
   */
  method PopulateDriverSeasons(table: DriverSeasonTable, results: seq<Result>, seasonYears: set<int>)
    returns (created: nat, updated: nat, deleted: nat)
    modifies table
    ensures PopulateState(table.rows, created, updated, deleted)
         == ProcessSeasons(PopulateState(old(table.rows), 0, 0, 0), results, Descending(seasonYears))
  {
    var seasons := Descending(seasonYears);
    ghost var start := PopulateState(table.rows, 0, 0, 0);
    created, updated, deleted := 0, 0, 0;
    for i := 0 to |seasons|
      invariant PopulateState(table.rows, created, updated, deleted) == ProcessSeasons(start, results, seasons[..i])
    {
      created, updated, deleted := SettleSeasonStep(table, results, seasons, i, created, updated, deleted, start);
    }
    assert seasons[..|seasons|] == seasons;
  }


  // ------------------------------------------------------------ properties

  /** The inner loop touches only its season's rows of its drivers, and counts one create-or-update per entry. */
  lemma {:induction false} ProcessDriversFrame(st: PopulateState, results: seq<Result>, season: int, drivers: seq<nat>)
    requires forall d :: d in drivers ==> LatestResult(results, d, season).Some?
    ensures var after := ProcessDrivers(st, results, season, drivers);
      && (forall x: DriverSeason :: x.season != season || x.driver !in drivers ==> (x in after.rows <==> x in st.rows))
      && after.created + after.updated == st.created + st.updated + |drivers|
      && after.created >= st.created
      && after.deleted + |after.rows| == st.deleted + |st.rows| + (after.created - st.created)
  {
    if drivers != [] {
      var init, last := drivers[..|drivers| - 1], drivers[|drivers| - 1];
      assert forall d :: d in init ==> d in drivers;
      ProcessDriversFrame(st, results, season, init);
    }
  }

  /** The inner loop settles each of its drivers, however often a driver is listed. */
  lemma {:induction false} ProcessDriversSettles(st: PopulateState, results: seq<Result>, season: int, drivers: seq<nat>)
    requires forall d :: d in drivers ==> LatestResult(results, d, season).Some?
    ensures forall d :: d in drivers ==> PairSettled(ProcessDrivers(st, results, season, drivers).rows, results, d, season)
  {
    if drivers != [] {
      var init, last := drivers[..|drivers| - 1], drivers[|drivers| - 1];
      assert forall d :: d in drivers ==> d in init || d == last by {
        assert drivers == init + [last];
      }
      assert forall d :: d in init ==> d in drivers;
      ProcessDriversSettles(st, results, season, init);
      var prev := ProcessDrivers(st, results, season, init);
      var after := ProcessDriver(prev, results, season, last);
      forall d | d in init && d != last ensures PairSettled(after.rows, results, d, season) {
        SettledKept(prev.rows, after.rows, results, d, season);
      }
    }
  }

  /** The outer loop touches only the rows of its seasons' drivers and keeps the counters consistent. */
  lemma {:induction false} ProcessSeasonsFrame(st: PopulateState, results: seq<Result>, seasons: seq<int>)
    ensures var after := ProcessSeasons(st, results, seasons);
      && (forall x: DriverSeason :: x.season !in seasons || x.driver !in DriversInSeason(results, x.season) ==>
            (x in after.rows <==> x in st.rows))
      && after.created >= st.created
      && after.deleted + |after.rows| == st.deleted + |st.rows| + (after.created - st.created)
  {
    if seasons != [] {
      var init, last := seasons[..|seasons| - 1], seasons[|seasons| - 1];
      assert forall s :: s in init ==> s in seasons;
      ProcessSeasonsFrame(st, results, init);
      ProcessDriversFrame(ProcessSeasons(st, results, init), results, last, DriversInSeason(results, last));
    }
  }

  /** A season's pass leaves the settled pairs of every other season settled. */
  lemma OtherSeasonsStaySettled(prev: PopulateState, results: seq<Result>, season: int, drivers: seq<nat>)
    requires forall d :: d in drivers ==> LatestResult(results, d, season).Some?
    ensures forall s, d :: s != season && PairSettled(prev.rows, results, d, s) ==>
      PairSettled(ProcessDrivers(prev, results, season, drivers).rows, results, d, s)
  {
    ProcessDriversFrame(prev, results, season, drivers);
    var after := ProcessDrivers(prev, results, season, drivers);
    forall s, d | s != season && PairSettled(prev.rows, results, d, s) ensures PairSettled(after.rows, results, d, s) {
      SettledKept(prev.rows, after.rows, results, d, s);
    }
  }

  /** The outer loop settles every pair of a season it processes with a driver of that season. */
  lemma {:induction false} ProcessSeasonsSettles(st: PopulateState, results: seq<Result>, seasons: seq<int>)
    ensures forall s, d :: s in seasons && d in DriversInSeason(results, s) ==>
      PairSettled(ProcessSeasons(st, results, seasons).rows, results, d, s)
  {
    if seasons != [] {
      var init, last := seasons[..|seasons| - 1], seasons[|seasons| - 1];
      ProcessSeasonsSettles(st, results, init);
      var prev := ProcessSeasons(st, results, init);
      var drivers := DriversInSeason(results, last);
      ProcessDriversSettles(prev, results, last, drivers);
      OtherSeasonsStaySettled(prev, results, last, drivers);
      var after := ProcessDrivers(prev, results, last, drivers);
      forall s, d | s in seasons && d in DriversInSeason(results, s) ensures PairSettled(after.rows, results, d, s) {
        if s != last {
          assert s in init by {
            assert seasons == init + [last];
          }
        }
      }
    }
  }

  /**
   * After the script every driver with a result in a season has exactly one
   * row for it, naming the team of the latest result; every other row is as
   * before; and the deleted counter is exactly the number of rows removed.
   */
  lemma PopulateSettlesEveryPair(rows: set<DriverSeason>, results: seq<Result>, seasonYears: set<int>)
    ensures var after := ProcessSeasons(PopulateState(rows, 0, 0, 0), results, Descending(seasonYears));
      && (forall s, d :: s in seasonYears && d in DriversInSeason(results, s) ==>
            TeamsOf(after.rows, d, s) == {LatestResult(results, d, s).value.team})
      && (forall x: DriverSeason :: x.season !in seasonYears || x.driver !in DriversInSeason(results, x.season) ==>
            (x in after.rows <==> x in rows))
      && after.deleted == |rows| + after.created - |after.rows|
  {
    var seasons := Descending(seasonYears);
    ProcessSeasonsFrame(PopulateState(rows, 0, 0, 0), results, seasons);
    ProcessSeasonsSettles(PopulateState(rows, 0, 0, 0), results, seasons);
    var after := ProcessSeasons(PopulateState(rows, 0, 0, 0), results, seasons);
    forall s, d | s in seasonYears && d in DriversInSeason(results, s)
      ensures TeamsOf(after.rows, d, s) == {LatestResult(results, d, s).value.team}
    {
      SettledPairHasOneTeam(after.rows, results, d, s);
    }
  }

  /** The number of result rows of the given seasons: the visits the script makes. */
  function RowCount(results: seq<Result>, seasons: seq<int>): nat {
    if seasons == [] then 0
    else RowCount(results, seasons[..|seasons| - 1]) + |Select(results, seasons[|seasons| - 1], None)|
  }

  /** `created + updated` grows by one per visit, that is per result row of the processed seasons. */
  lemma {:induction false} ProcessSeasonsCounts(st: PopulateState, results: seq<Result>, seasons: seq<int>)
    ensures var after := ProcessSeasons(st, results, seasons);
      after.created + after.updated == st.created + st.updated + RowCount(results, seasons)
  {
    if seasons != [] {
      var init, last := seasons[..|seasons| - 1], seasons[|seasons| - 1];
      ProcessSeasonsCounts(st, results, init);
      ProcessDriversFrame(ProcessSeasons(st, results, init), results, last, DriversInSeason(results, last));
    }
  }

  /** Over distinct seasons, the visits are exactly the result rows whose race is in one of them. */
  lemma {:induction false} RowCountIsSeasonRows(results: seq<Result>, seasons: seq<int>)
    requires NoDuplicates(seasons)
    ensures RowCount(results, seasons) == Count(results, (r: Result) => r.race.season in seasons)
  {
    if seasons == [] {
      KeepNone(results, (r: Result) => r.race.season in seasons);
    } else {
      var init, last := seasons[..|seasons| - 1], seasons[|seasons| - 1];
      RowCountIsSeasonRows(results, init);
      assert last !in init by {
        forall k | 0 <= k < |init| ensures init[k] != last {
          assert init[k] == seasons[k];
        }
      }
      assert forall x :: x in seasons <==> x in init || x == last by {
        assert seasons == init + [last];
      }
      CountSplit(results, (r: Result) => r.race.season in seasons,
                 (r: Result) => r.race.season in init, (r: Result) => InScope(r, last, None));
    }
  }

  /** Over a whole run, `created + updated` is the number of result rows in the seasons of the `Season` table. */
  lemma PopulateCountsEveryRow(rows: set<DriverSeason>, results: seq<Result>, seasonYears: set<int>)
    ensures var after := ProcessSeasons(PopulateState(rows, 0, 0, 0), results, Descending(seasonYears));
      after.created + after.updated == Count(results, (r: Result) => r.race.season in seasonYears)
  {
    var seasons := Descending(seasonYears);
    ProcessSeasonsCounts(PopulateState(rows, 0, 0, 0), results, seasons);
    RowCountIsSeasonRows(results, seasons);
    KeepSame(results, (r: Result) => r.race.season in seasons, (r: Result) => r.race.season in seasonYears);
  }

  /** On a settled pair the loop body only counts an update. */
  lemma SettledStepIsIdle(st: PopulateState, results: seq<Result>, season: int, driver: nat)
    requires PairSettled(st.rows, results, driver, season)
    ensures ProcessDriver(st, results, season, driver) == st.(updated := st.updated + 1)
  {
    var t := LatestResult(results, driver, season).value.team;
    assert OtherTeams(st.rows, driver, season, t) == {};
    assert st.rows - {} + {DriverSeason(driver, season, t)} == st.rows;
  }

  lemma {:induction false} ProcessDriversIdle(st: PopulateState, results: seq<Result>, season: int, drivers: seq<nat>)
    requires forall d :: d in drivers ==> PairSettled(st.rows, results, d, season)
    ensures ProcessDrivers(st, results, season, drivers) == st.(updated := st.updated + |drivers|)
  {
    if drivers != [] {
      var init := drivers[..|drivers| - 1];
      assert forall d :: d in init ==> d in drivers;
      ProcessDriversIdle(st, results, season, init);
      SettledStepIsIdle(ProcessDrivers(st, results, season, init), results, season, drivers[|drivers| - 1]);
    }
  }

  lemma {:induction false} ProcessSeasonsIdle(st: PopulateState, results: seq<Result>, seasons: seq<int>)
    requires forall s, d :: s in seasons && d in DriversInSeason(results, s) ==> PairSettled(st.rows, results, d, s)
    ensures var after := ProcessSeasons(st, results, seasons);
      after.rows == st.rows && after.created == st.created && after.deleted == st.deleted
  {
    if seasons != [] {
      var init, last := seasons[..|seasons| - 1], seasons[|seasons| - 1];
      assert forall s :: s in init ==> s in seasons;
      ProcessSeasonsIdle(st, results, init);
      var prev := ProcessSeasons(st, results, init);
      ProcessDriversIdle(prev, results, last, DriversInSeason(results, last));
    }
  }

  /** A second run over unchanged results deletes nothing, creates nothing and leaves the table as it is. */
  lemma PopulateIsIdempotent(rows: set<DriverSeason>, results: seq<Result>, seasonYears: set<int>)
    ensures var first := ProcessSeasons(PopulateState(rows, 0, 0, 0), results, Descending(seasonYears));
      var second := ProcessSeasons(PopulateState(first.rows, 0, 0, 0), results, Descending(seasonYears));
      second.rows == first.rows && second.created == 0 && second.deleted == 0
  {
    var seasons := Descending(seasonYears);
    ProcessSeasonsSettles(PopulateState(rows, 0, 0, 0), results, seasons);
    var first := ProcessSeasons(PopulateState(rows, 0, 0, 0), results, seasons);
    ProcessSeasonsIdle(PopulateState(first.rows, 0, 0, 0), results, seasons);
  }

  /**
   * `Result` is unique per (race, driver) and `Race` per (season, round), so
   * a driver has at most one result per (season, round).
   */
  ghost predicate ResultKeysUnique(results: seq<Result>) {
    forall a, b ::
      (a in results && b in results && a.driver == b.driver
       && a.race.season == b.race.season && a.race.round == b.race.round) ==> a == b
  }

  /**
   * Where the result keys are unique, the latest team the standings script
   * records and the team this script keeps are the same.
   */
  lemma LatestTeamsAgree(results: seq<Result>, season: int, driver: nat)
    requires ResultKeysUnique(results)
    requires driver in AggregateRows(ScriptRows(results, season)).stats
    ensures LatestResult(results, driver, season).Some?
    ensures AggregateRows(ScriptRows(results, season)).stats[driver].latestTeam
         == Some(LatestResult(results, driver, season).value.team)
  {
    LatestTeamIsLatestByDateAndRound(results, season, driver);
    var r :| r in results && r.race.season == season && r.driver == driver
      && AggregateRows(ScriptRows(results, season)).stats[driver].latestTeam == Some(r.team)
      && forall r2 :: r2 in results && r2.race.season == season && r2.driver == driver ==> DateRoundLe(r2, r);
    var latest := LatestResult(results, driver, season).value;
    assert DateRoundLe(latest, r) && DateRoundLe(r, latest);
  }
}
