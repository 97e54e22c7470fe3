# F1 championship standings — a Dafny model

This project models the championship-standings core of an F1 results
application (a Django backend), and proves what that core promises. A
driver's or constructor's championship is computed from race results: points
are summed, wins (`final_position == 1`) are counted, the subjects are ranked
by points and then wins, and positions are numbered from 1. The rankings are
cached in a `ChampionshipStanding` table, one row per season, kind, round and
subject, with round 0 standing for the season total. Around that engine sit:

- the service that computes, saves and recalculates standings, and reads a
  subject's position history;
- the stand-alone standings script, which aggregates in Python, writes round-0
  rows and records each driver's latest team;
- the `DriverSeason` clean-up script, which leaves one team per driver per
  season;
- the qualifying back-fill and the retirement-reason script;
- the script that creates `Season` rows;
- the `progressive` API action (standings after a given round);
- the constructor serializer (season-specific styling, drivers, championship
  position);
- the `import_f1_data` management command (status classification, result and
  race upserts, standings steps).

Each module corresponds to one source file:

| module | file | source |
|---|---|---|
| `Records`, `Wrappers`, `Seqs` | records.dfy, wrappers.dfy, seqs.dfy | the rows the logic uses (`backend/core/models.py`), an `Option` type, and sequence utilities: filtering, counting, sums, a stable insertion sort, sorted views of sets |
| `ChampionshipService` | championship_service.dfy | `backend/core/services/championship_service.py` |
| `CalculateStandingsScript` | calculate_standings.dfy | `backend/calculate_standings.py` |
| `DriverSeasons` | driver_seasons.dfy | the `DriverSeason` table (`backend/core/models.py`) |
| `DriverSeasonPopulation` | populate_driver_seasons.dfy | `backend/populate_driver_seasons.py` |
| `QualifyingPopulation` | populate_qualifying.dfy | `backend/populate_qualifying.py` |
| `MultiSeason` | prepare_multi_season.dfy | `backend/prepare_multi_season.py` |
| `Progressive` | progressive.dfy | `backend/api/views.py`, action `progressive` |
| `ConstructorSerializer` | constructor_serializer.dfy | `backend/api/serializers.py`, `ConstructorSerializer` |
| `ImportF1Data` | import_f1_data.dfy | `backend/core/management/commands/import_f1_data.py` |

Database tables that a script updates in place are classes whose `rows` field
(a `map`, `set` or `seq`) is reassigned by `UpdateOrCreate`-style methods.
Each loop is a method whose invariant ties the table and the counters to a
fold over the prefix visited so far. The fold functions are what the lemmas
talk about.

Where the database leaves an order open, the model fixes one:

- Subjects tied on both points and wins keep the order in which they first
  appear in the result rows (a stable sort).
- Every other queryset is the given sequence, in the order the source
  requests.

## Model

| member | source | states |
|---|---|---|
| ChampionshipService.Select | backend/core/services/championship_service.py:40-43 | a result row is selected exactly when its race is in the season and, under a truthy ceiling, its round is at most the ceiling |
| ChampionshipService.Subjects | backend/core/services/championship_service.py:46-54 | the aggregation groups: every credited subject exactly once, nobody else |
| ChampionshipService.ScoreGeIsTotalPreorder | backend/core/services/championship_service.py:55 | ordering by `-total_points, -total_wins` is a total preorder, so the ranking is well defined |
| ChampionshipService.TalliesHaveDistinctSubjects | backend/core/services/championship_service.py:46-54 | the grouped totals have one line per subject, carrying that subject's summed points, counted wins and distinct races |
| ChampionshipService.RankedLinesAreTallies | backend/core/services/championship_service.py:46-56 | any reordering of the grouped totals still carries each credited subject's own totals |
| ChampionshipService.RankedSubjectsDistinct | backend/core/services/championship_service.py:46-56 | no subject appears twice in a reordering of the groups |
| ChampionshipService.RankedCoversCredited | backend/core/services/championship_service.py:46-56 | every subject with a selected result appears in a reordering of the groups |
| ChampionshipService.NumberedRankingIsStandings | backend/core/services/championship_service.py:55-68 | a sorted reordering, numbered from 1, is a championship table: positions 1..n, ordered by points then wins, distinct subjects, exact totals, every credited subject present |
| ChampionshipService.StandingsAreTable | backend/core/services/championship_service.py:27-70 | `calculate_*_standings` returns the championship table of the selected rows, one line per credited subject, empty exactly when no row is selected |
| ChampionshipService.StandingsHaveDistinctSubjects | backend/core/services/championship_service.py:59-68 | no driver or constructor is listed twice |
| ChampionshipService.FalsyCeilingsAgree | backend/core/services/championship_service.py:42-43 | `up_to_round=0` selects the same rows as no ceiling |
| ChampionshipService.SelectPermutation | backend/core/services/championship_service.py:46-48 | reordering the result table reorders the selection and changes nothing else |
| ChampionshipService.TotalsIgnoreRowOrder | backend/core/services/championship_service.py:50-53 | the credited subjects and their totals do not depend on the order of the result rows |
| ChampionshipService.WinsGrowWithCeiling | backend/core/services/championship_service.py:42-52 | a later ceiling never gives a subject fewer wins |
| ChampionshipService.PointsGrowWithCeiling | backend/core/services/championship_service.py:42-51 | with non-negative points, a later ceiling never gives a subject fewer points |
| ChampionshipService.RoundKey | backend/core/services/championship_service.py:131 | the stored round is 0 exactly for a falsy ceiling, otherwise the ceiling itself |
| ChampionshipService.CeilingOfRoundKey | backend/core/services/championship_service.py:131-132 | reading the stored round back as a ceiling computes the same table |
| ChampionshipService.StandingTable.constructor | backend/core/models.py:224-259 | the standings table starts empty |
| ChampionshipService.StandingTable.UpdateOrCreate | backend/core/services/championship_service.py:140-150 | `update_or_create` reports creation exactly for a new key and stores the defaults under the key |
| ChampionshipService.UpsertAll | backend/core/services/championship_service.py:137-155 | every line is counted once, as created or as updated |
| ChampionshipService.UpsertAllRows | backend/core/services/championship_service.py:137-150 | the loop's table is the old table overridden by the lines' keys and rows |
| ChampionshipService.EnteredKeys | backend/core/services/championship_service.py:140-144 | the keys written are exactly the keys of the lines |
| ChampionshipService.EnteredValues | backend/core/services/championship_service.py:145-149 | with distinct subjects, each line's key holds that line's position, points and wins |
| ChampionshipService.LastKeyIsFresh | backend/core/services/championship_service.py:140-144 | with distinct subjects, no earlier line writes the last line's key |
| ChampionshipService.UpsertAllCreated | backend/core/services/championship_service.py:152-155 | `created` counts exactly the lines whose key was not stored before |
| ChampionshipService.UpsertAllNothingNew | backend/core/services/championship_service.py:152-155 | when every key is already stored, nothing is created and every line is updated |
| ChampionshipService.UpsertLines | backend/core/services/championship_service.py:137-158 | the upsert loop leaves the table and the two counters the fold describes |
| ChampionshipService.SaveStandings | backend/core/services/championship_service.py:120-200 | `save_*_standings` overrides the old table with the computed table's rows and counts one create-or-update per line |
| ChampionshipService.SaveKeepsOtherKeys | backend/core/services/championship_service.py:140-144 | rows of another season, kind or round are untouched by a save |
| ChampionshipService.UpsertStoresLines | backend/core/services/championship_service.py:140-150 | after the loop each line's key holds that line's row |
| ChampionshipService.SaveStoresTable | backend/core/services/championship_service.py:120-158 | after a save, every line of the computed table is stored, other keys are kept, and `created` counts the new keys |
| ChampionshipService.SaveIsIdempotent | backend/core/services/championship_service.py:120-158 | saving the same standings twice leaves the table unchanged, creates nothing and updates every line |
| ChampionshipService.SeasonRaces | backend/core/services/championship_service.py:217 | the season's races, each as often as the table holds it (same multiset, same count), nothing else, ordered by round |
| ChampionshipService.Recalculate | backend/core/services/championship_service.py:204-246 | the recalculation's final state |
| ChampionshipService.SaveBothStandings | backend/core/services/championship_service.py:228-234 | one loop iteration: the driver save, then the constructor save, with the counters added |
| ChampionshipService.SaveRoundStep | backend/core/services/championship_service.py:227-234 | one iteration extends the fold over the races by one race |
| ChampionshipService.RecalculateAllStandings | backend/core/services/championship_service.py:204-246 | `recalculate_all_standings` saves after each round in round order, then the season total, and returns the summed counters |
| ChampionshipService.SaveRoundsCounts | backend/core/services/championship_service.py:227-234 | over the rounds, created plus updated equals the total size of the per-round tables |
| ChampionshipService.RecalculateCounts | backend/core/services/championship_service.py:219-243 | created plus updated equals the total size of the per-round tables plus the season-total table, for each kind |
| ChampionshipService.SaveEstablishesStored | backend/core/services/championship_service.py:120-158 | a save leaves the computed table stored under its round |
| ChampionshipService.StoredSurvivesSave | backend/core/services/championship_service.py:140-144 | a later save of the same season does not disturb a table already stored for another kind or round |
| ChampionshipService.SaveBothKeepsOtherSeasons | backend/core/services/championship_service.py:228-229 | rows of other seasons are untouched |
| ChampionshipService.SaveBothKeepsStored | backend/core/services/championship_service.py:228-229 | a stored table stays stored across a later round's saves |
| ChampionshipService.SaveBothStores | backend/core/services/championship_service.py:228-229 | after an iteration both the driver and the constructor table for that round are stored |
| ChampionshipService.SaveRoundsStoresRound | backend/core/services/championship_service.py:227-234 | after the loop, each race's round has both tables stored |
| ChampionshipService.SaveRoundsStores | backend/core/services/championship_service.py:227-234 | the loop stores every round's tables, for both kinds |
| ChampionshipService.SaveRoundsKeepsOtherSeasons | backend/core/services/championship_service.py:227-234 | the loop leaves other seasons untouched |
| ChampionshipService.RecalculateStoresEveryRound | backend/core/services/championship_service.py:204-246 | afterwards every round of the season and the season total are stored for both kinds, and other seasons are untouched |
| ChampionshipService.HistoryRoundsStored | backend/core/services/championship_service.py:260-268 | every round in the history filter is positive and has a stored row |
| ChampionshipService.PositionHistory | backend/core/services/championship_service.py:249-298 | the history lists the stored per-round rows (round > 0) of that subject, season and kind, in strictly increasing round order, each exactly as stored, and misses none |
| ChampionshipService.HistoryShowsStoredRanking | backend/core/services/championship_service.py:249-272 | once a round's table is stored, the history shows each subject's position, points and wins from it |
| CalculateStandingsScript.DateRoundLeIsTotalPreorder | backend/calculate_standings.py:23 | ordering by race date, then round, is a total preorder |
| CalculateStandingsScript.ScriptRows | backend/calculate_standings.py:21-23 | the script reads the season's rows, a permutation of the engine's selection, sorted by (date, round) |
| CalculateStandingsScript.AggregateRows | backend/calculate_standings.py:30-47 | every driver in the dictionary has a latest team and date, and the insertion order lists exactly its keys |
| CalculateStandingsScript.AggregateDriverStats | backend/calculate_standings.py:30-47 | the aggregation loop builds the dictionary and its insertion order that the fold describes |
| CalculateStandingsScript.UncreditedHasNoTotals | backend/core/services/championship_service.py:50-52 | a subject without selected rows has zero points and zero wins |
| CalculateStandingsScript.AggregateMatchesEngine | backend/calculate_standings.py:37-42 | the dictionary's keys, in insertion order, are the engine's groups, with the engine's points and wins |
| CalculateStandingsScript.LatestKeptBy | backend/calculate_standings.py:44-47 | a row that does not reach the driver's latest date leaves the latest row in place |
| CalculateStandingsScript.LatestTakenBy | backend/calculate_standings.py:44-47 | a row at or after the driver's latest date becomes the latest (the test is `>=`) |
| CalculateStandingsScript.AggregateLatestTeam | backend/calculate_standings.py:43-47 | the recorded team is that of the driver's last row at the latest date |
| CalculateStandingsScript.LatestTeamIsLatestByDateAndRound | backend/calculate_standings.py:21-47 | the recorded team comes from a result of that driver in that season that is last by (date, round) |
| CalculateStandingsScript.EntryGeIsTotalPreorder | backend/calculate_standings.py:50-54 | the sort key (points, wins), reversed, is a total preorder |
| CalculateStandingsScript.EntriesAreProjectedTallies | backend/calculate_standings.py:50-52 | the dictionary items, in insertion order, are the engine's grouped totals |
| CalculateStandingsScript.SortedDriversAreRankedTallies | backend/calculate_standings.py:50-54 | Python's stable reverse sort yields the engine's ranking |
| CalculateStandingsScript.DriverLinesMatchEngine | backend/calculate_standings.py:50-72 | the script's positions, drivers, points and wins equal the engine's season-total driver table, line by line |
| CalculateStandingsScript.ScriptRowsHaveSameTotals | backend/calculate_standings.py:21-23 | the date ordering changes no driver's totals |
| CalculateStandingsScript.DriverTotalsMatchEngine | backend/calculate_standings.py:37-42 | every written driver has results in the season and is written with that season's summed points and wins |
| CalculateStandingsScript.DriverLinesCoverSeason | backend/calculate_standings.py:37-61 | every driver with a result in the season gets a line |
| CalculateStandingsScript.DriverSeasonWrites | backend/calculate_standings.py:77-84 | the `DriverSeason` table after the driver pass |
| CalculateStandingsScript.WriteDriverLines | backend/calculate_standings.py:61-89 | the write loop upserts each line's round-0 row and adds one `DriverSeason` row per driver with a latest team |
| CalculateStandingsScript.CalculateDriverStandings | backend/calculate_standings.py:16-95 | returns early with no write when the season has no results, writes nothing when the `Season` row is missing, otherwise writes the standings and `DriverSeason` rows and returns the number of drivers |
| CalculateStandingsScript.UpsertAllSeesKeysAndRows | backend/calculate_standings.py:64-75 | an upsert depends only on each line's subject and written fields |
| CalculateStandingsScript.DriverWritesMatchEngine | backend/calculate_standings.py:61-75 | the script's round-0 driver writes equal the service's `save_driver_standings(season)` on the same rows |
| CalculateStandingsScript.DriverRunStores | backend/calculate_standings.py:16-95 | after a ranked pass the season's driver table is stored at round 0, and all other rows are kept |
| CalculateStandingsScript.LineDriversAreAggregated | backend/calculate_standings.py:61-78 | every written driver has dictionary stats |
| CalculateStandingsScript.RankedDriversGetLatestTeam | backend/calculate_standings.py:77-84 | each written driver gets a `DriverSeason` row for the team of their last result by (date, round) |
| CalculateStandingsScript.ScriptCanLeaveTwoTeams | backend/calculate_standings.py:78-84 | the `DriverSeason` upsert only adds, so a driver can end up with two teams in one season |
| CalculateStandingsScript.ConstructorWrites | backend/calculate_standings.py:117-131 | the constructor pass writes the engine's season-total constructor table |
| CalculateStandingsScript.CalculateConstructorStandings | backend/calculate_standings.py:98-141 | no result and no write for a season without results, otherwise one round-0 row per constructor and their count |
| CalculateStandingsScript.RunSeasons | backend/calculate_standings.py:160-166 | the state after the season loop |
| CalculateStandingsScript.RunSeasonStep | backend/calculate_standings.py:160-166 | one iteration extends the fold over the seasons by one season |
| CalculateStandingsScript.CalculateAllSeasons | backend/calculate_standings.py:144-166 | `main` visits the seasons with results in descending order, running the driver and then the constructor pass |
| CalculateStandingsScript.StoppedAtFirstMissingStep | backend/calculate_standings.py:57 | one season keeps the "stopped at the first missing Season" shape |
| CalculateStandingsScript.RunStopsAtFirstMissingSeason | backend/calculate_standings.py:57-166 | the loop finishes a prefix of the seasons, each present or without results, and stops at the first season with results but no `Season` row, since the exception is not caught |
| CalculateStandingsScript.MainProcessesEverySeason | backend/calculate_standings.py:152-166 | when every season with results has a `Season` row, all of them are processed, in strictly decreasing order |
| CalculateStandingsScript.StoredTransfers | backend/calculate_standings.py:64-67 | a table stored at round 0 stays stored when those rows are kept |
| CalculateStandingsScript.RunSeasonStores | backend/calculate_standings.py:165-166 | after a ranked season both its round-0 tables are stored and other seasons are untouched |
| CalculateStandingsScript.StoredSurvivesOtherSeason | backend/calculate_standings.py:160-166 | processing another season does not disturb a stored season |
| CalculateStandingsScript.FinishedSeasonsStoredStep | backend/calculate_standings.py:160-166 | one more season keeps every finished season's tables stored |
| CalculateStandingsScript.PrefixAvoidsLast | backend/calculate_standings.py:152 | with distinct seasons, the last season is not among those finished before it |
| CalculateStandingsScript.RunStoresEveryFinishedSeason | backend/calculate_standings.py:160-166 | each finished season has its driver and constructor season totals stored |
| CalculateStandingsScript.MainStoresEveryFinishedSeason | backend/calculate_standings.py:144-166 | after `main`, every season it finished has both its season-total tables stored |
| DriverSeasons.OtherTeams | backend/populate_driver_seasons.py:52-55 | the rows of that driver and season with another team |
| DriverSeasons.DriverSeasonTable.constructor | backend/core/models.py:101-113 | the table starts empty |
| DriverSeasons.DriverSeasonTable.UpdateOrCreate | backend/populate_driver_seasons.py:64-69 | with all fields in the lookup, the upsert adds the row and reports creation exactly when it was absent |
| DriverSeasons.DriverSeasonTable.DeleteOtherTeams | backend/populate_driver_seasons.py:52-60 | deletes exactly that driver's other-team rows for the season and returns their count |
| DriverSeasonPopulation.LatestResult | backend/populate_driver_seasons.py:41-47 | `None` exactly when the driver has no result in the season, otherwise a result of theirs that is last by (date, round) |
| DriverSeasonPopulation.DriversInSeason | backend/populate_driver_seasons.py:33-35 | one entry per result row of the season, in round order (`distinct()` also compares the columns of `Result`'s default ordering), listing exactly the drivers with a result in the season |
| DriverSeasonPopulation.DriversInSeasonCounts | backend/populate_driver_seasons.py:33-35 | a driver is listed once per result row of theirs in the season |
| DriverSeasonPopulation.SettledPairHasOneTeam | backend/populate_driver_seasons.py:16-17 | a settled pair has exactly one team, the latest |
| DriverSeasonPopulation.ProcessDriver | backend/populate_driver_seasons.py:38-75 | one driver counts one create or update, deletions balance the table size, other pairs are untouched, and the pair is settled on its latest team |
| DriverSeasonPopulation.ProcessSeasons | backend/populate_driver_seasons.py:29-75 | the state after the season loop, visiting a driver once per result row |
| DriverSeasonPopulation.SettleDriver | backend/populate_driver_seasons.py:38-75 | the loop body leaves the table and counters that `ProcessDriver` describes |
| DriverSeasonPopulation.SettleSeason | backend/populate_driver_seasons.py:37-75 | the inner loop processes the season's listed drivers in turn, a driver once per result row |
| DriverSeasonPopulation.SettleSeasonStep | backend/populate_driver_seasons.py:29-75 | one season extends the fold over the seasons by that season's per-row driver list |
| DriverSeasonPopulation.PopulateDriverSeasons | backend/populate_driver_seasons.py:15-80 | the script runs over all seasons in `-year` order and their per-row driver lists, leaving the folded table and counters |
| DriverSeasonPopulation.ProcessDriversFrame | backend/populate_driver_seasons.py:37-75 | a season's pass touches no other pair, counts one create or update per listed entry, and keeps the deletions consistent with the size change |
| DriverSeasonPopulation.ProcessDriversSettles | backend/populate_driver_seasons.py:37-75 | a season's pass settles each listed driver, however often the driver is listed |
| DriverSeasonPopulation.ProcessSeasonsFrame | backend/populate_driver_seasons.py:29-75 | the loop leaves untouched every row whose pair has no result, and keeps the deletions consistent with the size change |
| DriverSeasonPopulation.OtherSeasonsStaySettled | backend/populate_driver_seasons.py:29-75 | a season's pass leaves every other season's settled pairs settled |
| DriverSeasonPopulation.ProcessSeasonsSettles | backend/populate_driver_seasons.py:29-75 | after the loop every (driver, season) pair with results is settled |
| DriverSeasonPopulation.PopulateSettlesEveryPair | backend/populate_driver_seasons.py:15-80 | afterwards every driver with results has exactly one team per season (the latest), other rows are kept, and `deleted` is what the size change implies |
| DriverSeasonPopulation.ProcessSeasonsCounts | backend/populate_driver_seasons.py:71-75 | created plus updated grows by one per visit, that is per result row of the processed seasons |
| DriverSeasonPopulation.RowCountIsSeasonRows | backend/populate_driver_seasons.py:29-35 | over distinct seasons, the visits are exactly the result rows whose race is in one of them |
| DriverSeasonPopulation.PopulateCountsEveryRow | backend/populate_driver_seasons.py:15-80 | after a run, `created_count + updated_count` is the number of result rows in the seasons of the `Season` table |
| DriverSeasonPopulation.SettledStepIsIdle | backend/populate_driver_seasons.py:52-75 | on a settled pair the body deletes and creates nothing and counts one update |
| DriverSeasonPopulation.ProcessDriversIdle | backend/populate_driver_seasons.py:37-75 | a settled season's pass only counts updates |
| DriverSeasonPopulation.ProcessSeasonsIdle | backend/populate_driver_seasons.py:29-75 | on settled pairs the loop changes no row and creates or deletes nothing |
| DriverSeasonPopulation.PopulateIsIdempotent | backend/populate_driver_seasons.py:15-80 | a second run leaves the table unchanged and creates and deletes nothing |
| DriverSeasonPopulation.LatestTeamsAgree | backend/populate_driver_seasons.py:41-49 | with unique result keys, this script's latest team equals the team the standings script records |
| QualifyingPopulation.GridOrder | backend/populate_qualifying.py:37 | a permutation of the race's results (same multiset, same count), ordered by grid position |
| QualifyingPopulation.QualifyingTable.CountFor | backend/populate_qualifying.py:30 | counts the rows of the race |
| QualifyingPopulation.QualifyingTable.Create | backend/populate_qualifying.py:46-55 | appends the row |
| QualifyingPopulation.CreateFromGrid | backend/populate_qualifying.py:43-56 | appends one row per result, in grid order, and counts them |
| QualifyingPopulation.QualifyRaceStep | backend/populate_qualifying.py:26-59 | one race extends the fold over the races |
| QualifyingPopulation.PopulateQualifying | backend/populate_qualifying.py:14-65 | the script processes the 2024 races in round order: it skips races that have rows, counting them, and fills the others from the grid |
| QualifyingPopulation.ExtendsIsTransitive | backend/populate_qualifying.py:26-59 | appending runs compose |
| QualifyingPopulation.QualifyRaceAppends | backend/populate_qualifying.py:29-59 | one race only appends, and every appended row is the grid row of one of its results |
| QualifyingPopulation.QualifyRacesAppends | backend/populate_qualifying.py:26-59 | the loop only appends rows and counts them in `total_created` |
| QualifyingPopulation.QualifyRacesCreateFromResults | backend/populate_qualifying.py:44-56 | every created row copies a result of a processed race |
| QualifyingPopulation.RaceRowsFollowGrid | backend/populate_qualifying.py:37-56 | a race without rows gets exactly its results' rows in grid order, and other races' rows are unchanged |
| QualifyingPopulation.GridRowsAreOrderedByPosition | backend/populate_qualifying.py:37-50 | the created positions are non-decreasing |
| QualifyingPopulation.AppendKeepsSettled | backend/populate_qualifying.py:30-34 | once a race has rows or has no results, it stays that way |
| QualifyingPopulation.GridRowsExist | backend/populate_qualifying.py:44-56 | creating a race's grid rows gives it rows |
| QualifyingPopulation.QualifyRaceSettles | backend/populate_qualifying.py:29-56 | after its iteration a race has rows or has no results |
| QualifyingPopulation.QualifyRaceKeepsSettled | backend/populate_qualifying.py:26-56 | processing one race does not unsettle another |
| QualifyingPopulation.QualifyRacesSettles | backend/populate_qualifying.py:26-59 | after the loop every processed race has rows or has no results |
| QualifyingPopulation.SettledRaceIsIdle | backend/populate_qualifying.py:30-41 | a settled race creates nothing |
| QualifyingPopulation.SettledRacesAreIdle | backend/populate_qualifying.py:26-41 | settled races create nothing |
| QualifyingPopulation.PopulateQualifyingIsIdempotent | backend/populate_qualifying.py:14-65 | a second run creates nothing and leaves the table unchanged |
| QualifyingPopulation.ReasonsFor | backend/populate_qualifying.py:77-111 | retired results draw from the twelve retirement reasons, DSQ results from the two infringements, and any other status from `['Mechanical']`; no list is empty |
| QualifyingPopulation.AssignReasons | backend/populate_qualifying.py:99-117 | the result table keeps its length |
| QualifyingPopulation.ResultRows.constructor | backend/core/models.py:154-194 | the result table as given |
| QualifyingPopulation.ResultRows.AddRetirementReasons | backend/populate_qualifying.py:68-120 | the loop gives each filtered result its cycled reason, leaves every other row unchanged, and returns the number of filtered rows |
| QualifyingPopulation.AssignReasonsAt | backend/populate_qualifying.py:108-114 | the filtered result with index `idx` among the filtered rows gets entry `idx mod len` of its status's list; other rows are unchanged |
| QualifyingPopulation.AssignedReasonsComeFromTheList | backend/populate_qualifying.py:110-114 | an assigned reason comes from the list for the result's status, and only the reason changes |
| QualifyingPopulation.AddRetirementReasonsIsIdempotent | backend/populate_qualifying.py:99-117 | afterwards no row passes the filter, so a second run changes nothing |
| MultiSeason.AllYears | backend/prepare_multi_season.py:15-21 | the years of races and of stored standings, and no others |
| MultiSeason.SeasonTable.constructor | backend/core/models.py:5-18 | the season table starts empty |
| MultiSeason.SeasonTable.GetOrCreate | backend/prepare_multi_season.py:25-28 | `get_or_create` adds the year with the given `is_active` exactly when it is absent and never changes an existing season |
| MultiSeason.CreateYearsInOrder | backend/prepare_multi_season.py:24-33 | the loop leaves the folded table and creation count |
| MultiSeason.CreateSeasons | backend/prepare_multi_season.py:12-36 | `create_seasons` visits all years in ascending order, marking the maximum active |
| MultiSeason.CreateYearsResult | backend/prepare_multi_season.py:24-28 | afterwards exactly the old and the visited years exist, old seasons are unchanged, and a new season is active exactly when it is the top year |
| MultiSeason.CreateYearsCount | backend/prepare_multi_season.py:29-31 | the count equals the growth of the table |
| MultiSeason.PresentYearsAreIdle | backend/prepare_multi_season.py:25-33 | years already present change nothing |
| MultiSeason.CreateSeasonsResult | backend/prepare_multi_season.py:12-36 | all years exist, old seasons are unchanged, a new season is active exactly when it is the latest year, and the count is the number of years not yet present |
| MultiSeason.CreateSeasonsIsIdempotent | backend/prepare_multi_season.py:12-36 | a second run creates nothing |
| MultiSeason.LatestNewYearBecomesDefaultSeason | backend/api/serializers.py:64-65 | when the latest year is new and no later season is active, the serializer's default season is that year |
| Progressive.Strip | backend/api/views.py:144-145 | Python's `int()` trims surrounding whitespace: the result is the slice of the text left after removing whitespace at its two ends, it neither starts nor ends with whitespace, and it keeps every other character |
| Progressive.ShowNatValue | backend/api/views.py:144-145 | a printed number reads back as its value |
| Progressive.ParseShowRoundTrip | backend/api/views.py:144-145 | `int(str(n)) == n` for every integer |
| Progressive.StripTrailingSpace | backend/api/views.py:144-145 | trailing whitespace is ignored |
| Progressive.StripLeadingSpace | backend/api/views.py:144-145 | leading whitespace is ignored |
| Progressive.ParseIgnoresPadding | backend/api/views.py:144-145 | padding a parameter with spaces does not change its value |
| Progressive.ParseRejectsForeignChar | backend/api/views.py:143-147 | a character that is not a digit, space, underscore or sign makes `int()` fail |
| Progressive.RaceScope | backend/api/views.py:150-159 | the rows of the season's races up to and including the round |
| Progressive.LatestInRange | backend/api/views.py:170-174 | `None` exactly when the driver has no row in range, otherwise a row of theirs that is last by (round, date) |
| Progressive.TeamScoreGeIsTotalPreorder | backend/api/views.py:208 | the constructor ordering is a total preorder |
| Progressive.DriverEntries | backend/api/views.py:157-192 | the driver loop builds the lines the ranking describes |
| Progressive.ConstructorEntries | backend/api/views.py:202-219 | the constructor loop builds the lines the ranking describes |
| Progressive.ProgressiveStandings | backend/api/views.py:130-225 | the action returns the response `ProgressiveResponse` describes |
| Progressive.ResponseEchoesParameters | backend/api/views.py:136-225 | well-formed parameters are echoed back with the driver table for `type` missing or `driver`, and with the constructor table for any other type |
| Progressive.MalformedParameterIsRejected | backend/api/views.py:143-147 | a season containing a foreign character gives the "must be integers" error |
| Progressive.RaceScopeIsEngineSelection | backend/api/views.py:150-159 | for a non-zero round, the view's selection is the engine's selection with that ceiling |
| Progressive.ScopeIsItsOwnSelection | backend/api/views.py:158-159 | the scope lies wholly in the season |
| Progressive.DriverRankingMatchesEngine | backend/api/views.py:158-163 | for a non-zero round, the driver ranking equals the engine's table with that ceiling |
| Progressive.DriverLinesOrdered | backend/api/views.py:163-177 | positions are 1..n, and lines are ordered by points then wins, with distinct drivers |
| Progressive.DriverLinesCarryTotals | backend/api/views.py:158-191 | each line's driver has rows in scope and carries their summed points and row-counted wins |
| Progressive.DriverLinesCoverScope | backend/api/views.py:158-166 | every driver with a row in scope has a line |
| Progressive.DriverLinesHaveLatestTeam | backend/api/views.py:170-189 | each line shows the team of that driver's last row in scope by (round, date) |
| Progressive.ZeroRoundIsEmpty | backend/api/views.py:150 | round 0 selects no race, so both tables are empty (the engine reads 0 as the whole season) |
| Progressive.EngineReadsZeroAsWholeSeason | backend/core/services/championship_service.py:42-43 | the engine's table at ceiling 0 is empty only when the season has no rows |
| Progressive.TeamScoresHaveDistinctTeams | backend/api/views.py:203-208 | one group per credited team, with its points and its count of distinct winning races |
| Progressive.ConstructorLinesCarryTotals | backend/api/views.py:203-219 | each line is numbered and carries its team's summed points and distinct-race wins |
| Progressive.ConstructorLinesOrdered | backend/api/views.py:208-211 | lines are ordered by points then wins, with distinct teams |
| Progressive.ConstructorLinesCoverScope | backend/api/views.py:203-210 | every team with a row in scope has a line |
| Progressive.ConstructorLinesRankScope | backend/api/views.py:203-219 | the constructor table ranks every team in scope, once each |
| Progressive.WinRacesStep | backend/api/views.py:207 | one more row adds its race to the distinct wins exactly when it is a win for the team |
| Progressive.DistinctWinsAtMostRowWins | backend/api/views.py:207 | the view's distinct-race wins never exceed the engine's row-counted wins |
| Progressive.DistinctWinsEqualRowWins | backend/api/views.py:207 | with distinct rows and one winning row per race, the two counts agree |
| Progressive.ConstructorWinsCanDiffer | backend/api/views.py:207 | two winning rows of one team in one race count 2 for the engine but 1 for the view |
| Progressive.TeamOrderCanDiffer | backend/api/views.py:170-174 | ordering by (round, date) and by (date, round) can pick different latest teams |
| ImportF1Data.Lower | backend/core/management/commands/import_f1_data.py:241 | `lower()` maps each character and keeps the length |
| ImportF1Data.OccursIff | backend/core/management/commands/import_f1_data.py:242-244 | the substring test holds exactly when the pattern sits at some offset |
| ImportF1Data.ClassifyStatus | backend/core/management/commands/import_f1_data.py:239-245 | the status is `retired` exactly when the lowered text names a retirement word, `dsq` exactly when it does not but says "disqualif", and `finished` otherwise; it is never `dnf` or `dns` |
| ImportF1Data.LowerIsIdempotent | backend/core/management/commands/import_f1_data.py:241 | lowering twice equals lowering once |
| ImportF1Data.ClassifyIgnoresCase | backend/core/management/commands/import_f1_data.py:241 | the classification ignores letter case |
| ImportF1Data.RetirementWordComesFirst | backend/core/management/commands/import_f1_data.py:242-245 | a text naming both an engine and a disqualification is stored as retired |
| ImportF1Data.FinalPosition | backend/core/management/commands/import_f1_data.py:253 | a missing or empty position gives no final position; otherwise the position is read as an integer, or the row fails to parse |
| ImportF1Data.FinalPositionReadsShownNumber | backend/core/management/commands/import_f1_data.py:253 | a printed number is stored as that position |
| ImportF1Data.ResultTable.constructor | backend/core/models.py:154-194 | the result table starts empty |
| ImportF1Data.ResultTable.UpdateOrCreate | backend/core/management/commands/import_f1_data.py:247-262 | the upsert keyed by (race, driver) writes the defaults, keeps an existing retirement reason, and reports creation exactly for a new key |
| ImportF1Data.ImportResults | backend/core/management/commands/import_f1_data.py:227-273 | `_import_results` leaves the folded table and created count, or stops at the first unreadable row |
| ImportF1Data.ImportFailsOnUnreadableRow | backend/core/management/commands/import_f1_data.py:232-271 | the import fails exactly when a row with known driver and constructor has a field `int()` cannot read |
| ImportF1Data.ImportCountsCreatedRows | backend/core/management/commands/import_f1_data.py:264-265 | `imported` equals the growth of the table, and no row is lost |
| ImportF1Data.ImportKeepsRetirementReasons | backend/core/management/commands/import_f1_data.py:250-261 | existing rows keep their retirement reason, and new rows have none |
| ImportF1Data.ImportTouchesOnlyItsRace | backend/core/management/commands/import_f1_data.py:247-249 | rows of other races are untouched |
| ImportF1Data.ImportStoresLastRowPerDriver | backend/core/management/commands/import_f1_data.py:247-261 | each driver's last known row is what is stored for that race and driver |
| ImportF1Data.UnknownRowsAreSkipped | backend/core/management/commands/import_f1_data.py:267-271 | rows with an unknown driver or constructor change nothing |
| ImportF1Data.FilterRounds | backend/core/management/commands/import_f1_data.py:171-172 | a truthy round keeps exactly that round's feeds, and otherwise all feeds are kept |
| ImportF1Data.FilterRoundsIsIdempotent | backend/core/management/commands/import_f1_data.py:171-172 | filtering twice equals filtering once |
| ImportF1Data.RaceTable.constructor | backend/core/models.py:123-143 | the race table starts empty |
| ImportF1Data.RaceTable.UpdateOrCreate | backend/core/management/commands/import_f1_data.py:209-225 | the race keyed by `season_round` is written with its round and date, reporting creation exactly for a new key |
| ImportF1Data.ImportRaces | backend/core/management/commands/import_f1_data.py:165-195 | `import_races` upserts each kept race and then imports its results, leaving the folded tables and counts |
| ImportF1Data.ImportRacesCounts | backend/core/management/commands/import_f1_data.py:177-189 | both counts equal the growth of their tables, and no row is lost |
| ImportF1Data.ImportedRacesAreStored | backend/core/management/commands/import_f1_data.py:177-223 | each imported feed's race is stored with its round and date |
| ImportF1Data.Plan | backend/core/management/commands/import_f1_data.py:63-103 | the steps `handle` runs, in order |
| ImportF1Data.PlanSelectsSteps | backend/core/management/commands/import_f1_data.py:73-103 | `--recalculate-all` runs only the recalculation; otherwise each import runs when its flag is set or no flag is, races take `--round`, and standings follow `--calculate-standings` (one round for a truthy round, else the whole season) |
| ImportF1Data.PlanEndsWithStandings | backend/core/management/commands/import_f1_data.py:92-103 | every step but the last is an import |
| ImportF1Data.RunStandingsStep | backend/core/management/commands/import_f1_data.py:275-301 | the standings step performs the saves or the recalculation the step names |
| ImportF1Data.StandingsStepStoresTables | backend/core/management/commands/import_f1_data.py:280-294 | a round step stores that round's tables; the season step stores every round and the season total |
| ConstructorSerializer.SeasonYear | backend/api/serializers.py:58-65 | a given `season` parameter is used when it reads as an integer, and rejected otherwise |
| ConstructorSerializer.ViewDescribesLatestActiveSeason | backend/api/serializers.py:64-65 | without a parameter, the first active season in `-year` order is used |
| ConstructorSerializer.DisplayValue | backend/api/serializers.py:67-96 | each styling field is the season row's value when that row exists and the value is filled, and the constructor's own value otherwise (no season row, or an unfilled season value) |
| ConstructorSerializer.DisplayFilledIffEitherFilled | backend/api/serializers.py:78-96 | a displayed field is filled exactly when the season's or the base value is filled, and a filled season value wins |
| ConstructorSerializer.FallbackIsPerField | backend/api/serializers.py:78-96 | each field falls back independently of the others |
| ConstructorSerializer.ConstructorDrivers | backend/api/serializers.py:98-108 | exactly the drivers with a result for the team in the season |
| ConstructorSerializer.RankedDriversAreListedUnderTheirTeams | backend/api/serializers.py:98-108 | a driver is ranked in the season exactly when some constructor lists them |
| ConstructorSerializer.ChampionshipPosition | backend/api/serializers.py:110-128 | present exactly when a round-0 constructor row is stored, and then shows its position, points and wins |
| ConstructorSerializer.PositionShowsEngineTotal | backend/api/serializers.py:110-128 | after a season-total save, the serializer shows the engine's position, points and wins |
| ConstructorSerializer.Serialize | backend/api/serializers.py:58-128 | fails exactly on a malformed season parameter, otherwise lists the season's drivers, the stored championship position and the styling with per-field fallback |

## Left out

- Points are exact integers, not floats. The progressive view's
  `round(…, 1)` and the `:.0f` formatting are not modelled. The `or 0.0` of a
  group's `None` sum cannot occur, since every group has at least one row.
- The `ValueError` of `float()` on a fetched `points` value is not modelled;
  fetched points are already numbers.
- Race dates are day numbers. The `strptime` of the race time and the
  free-text race fields are not modelled.
- Network fetches (`F1DataService`) are parameters: the fetched races and
  rows are given as sequences, and `F1APIError` is not modelled.
  `import_drivers` and `import_constructors` appear only as plan steps,
  because their tables are not part of the standings logic.
- The `print` and `stdout` reports, logging, and the top-5 printout at the
  end of `main` are left out; they only display stored rows.
- `@transaction.atomic` is not modelled: every step is sequential and
  failure-free in the model, apart from the errors modelled above.
- `Driver.objects.get` and `Constructor.objects.get` on ids taken from result
  rows always succeed, since those ids reference existing rows. In
  `_import_results` the lookups by external id are modelled, as
  `Known`.
- The race-id string `f"{season}_{round}"` is a pair key (`RaceId`). A changed
  race date on re-import is not pushed into the results already stored for that
  race.
- A missing `grid` key (a `KeyError`) is not modelled; the `grid` field is
  always present in the fetched row.
- `ImportF1Data.Lower`: only ASCII letters are lowered. Python's `lower()`
  also folds other alphabets. That does not change whether the status text
  contains one of the four ASCII words searched for.
- `ImportF1Data.RunStandingsStep`: it covers the standings step on its own.
  The ordering of the import steps before it is stated by
  `ImportF1Data.PlanEndsWithStandings`, not as one combined run.
- `Progressive.ParseInt`: Python's `int()` is modelled for ASCII digits,
  whitespace, one sign and single underscores between digits. Other Unicode
  digits and whitespace are not accepted.
- Database orderings left open by the source: subjects tied on points and wins
  keep their first-appearance order, and an `order_by` on equal keys keeps the
  earlier row.
- `DriverSeasonPopulation.DriversInSeason`: the per-row list is ordered by
  round only. Rows of one race keep their table order instead of following
  `final_position`, whose null placement depends on the database. The order
  of the visits changes neither the final table nor the counters.
- `QualifyingPopulation.ResultRows.AddRetirementReasons`: the queryset's
  order is the given order of the rows.
- The `Qualifying` model definition is not part of this model, so no
  uniqueness constraint is assumed for it. Its time fields are always null and
  are left out.
- `ConstructorSerializer.Serialize`: `DriverSerializer`'s representation is
  reduced to driver ids, and the drivers are a set. The `ValueError` of a
  malformed `season` parameter is a `None` result. Only `car_model`'s filled
  status is stated in the contract; the other three fields follow the same
  rule, stated for all four by `ConstructorSerializer.DisplayFilledIffEitherFilled`.
- `Progressive.DriverEntries`: the constructor object of a driver line is
  reduced to the team id. Names, codes and numbers are lookups and are left
  out.
- Career statistics, the lap table, the other API views and the remaining
  scripts are not part of this model.
