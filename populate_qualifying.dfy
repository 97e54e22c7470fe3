/**
 * The qualifying back-fill script (backend/populate_qualifying.py): one
 * qualifying row per race result of the 2024 races that have none, placed at
 * the result's grid position, and a retirement reason, cycled through a
 * fixed list per status, for every 2024 retirement or disqualification that
 * has none.
 */
module QualifyingPopulation {
  import opened Wrappers
  import opened Seqs
  import opened Records
  import opened ChampionshipService

  /** The only season the script touches. */
  const ScriptSeason := 2024

  /** A qualifying row; the three session times are always null here. */
  datatype Qualifying = Qualifying(race: Race, driver: nat, team: nat, position: int)

  /** The row created for a result: same race, driver and constructor, position = grid position. */
  function FromResult(r: Result): Qualifying {
    Qualifying(r.race, r.driver, r.team, r.grid)
  }

  /** `Result.objects.filter(race=race).order_by('grid_position')`. */
  function GridOrder(results: seq<Result>, race: Race): (grid: seq<Result>)
    ensures forall r :: r in grid <==> r in results && r.race == race
    ensures |grid| == |Keep(results, (r: Result) => r.race == race)|
    ensures forall i, j :: 0 <= i < j < |grid| ==> grid[i].grid <= grid[j].grid
    ensures multiset(grid) == multiset(Keep(results, (r: Result) => r.race == race))
  {
    var mine := Keep(results, (r: Result) => r.race == race);
    assert TotalPreorder((a: Result, b: Result) => a.grid <= b.grid);
    var grid := SortBy(mine, (a: Result, b: Result) => a.grid <= b.grid);
    forall r ensures r in grid <==> r in mine {
      assert r in grid <==> r in multiset(grid);
      assert r in mine <==> r in multiset(mine);
    }
    grid
  }

  /** `Qualifying.objects.filter(race=race).count()`. */
  function Existing(rows: seq<Qualifying>, race: Race): nat {
    Count(rows, (q: Qualifying) => q.race == race)
  }

  /** The qualifying table and the two running totals. */
  datatype QualifyingRun = QualifyingRun(rows: seq<Qualifying>, created: nat, skipped: nat)

  /** One race of `populate_qualifying`. */
  function QualifyRace(st: QualifyingRun, results: seq<Result>, race: Race): QualifyingRun {
    var existing := Existing(st.rows, race);
    if existing > 0 then st.(skipped := st.skipped + existing)
    else
      var grid := GridOrder(results, race);
      if grid == [] then st
      else QualifyingRun(st.rows + Map(grid, FromResult), st.created + |grid|, st.skipped)
  }

  function QualifyRaces(st: QualifyingRun, results: seq<Result>, rs: seq<Race>): QualifyingRun {
    if rs == [] then st
    else QualifyRace(QualifyRaces(st, results, rs[..|rs| - 1]), results, rs[|rs| - 1])
  }

  /** The whole `populate_qualifying`: the 2024 races in round order. */
  function QualifyingRunOf(rows: seq<Qualifying>, races: seq<Race>, results: seq<Result>): QualifyingRun {
    QualifyRaces(QualifyingRun(rows, 0, 0), results, SeasonRaces(races, ScriptSeason))
  }

  /** The qualifying table, in creation order. */
  class QualifyingTable {
    var rows: seq<Qualifying>

    constructor ()
      ensures rows == []
    {
      rows := [];
    }

    /** `Qualifying.objects.filter(race=race).count()`. */
    method CountFor(race: Race) returns (n: nat)
      ensures n == Existing(rows, race)
    {
      n := Count(rows, (q: Qualifying) => q.race == race);
    }

    /** `Qualifying.objects.create(...)`. */
    method Create(q: Qualifying)
      modifies this
      ensures rows == old(rows) + [q]
    {
      rows := rows + [q];
    }
  }

  /** The inner loop: one created row per result, in grid order. */
  method CreateFromGrid(table: QualifyingTable, grid: seq<Result>) returns (count: nat)
    modifies table
    ensures table.rows == old(table.rows) + Map(grid, FromResult)
    ensures count == |grid|
  {
    ghost var start := table.rows;
    count := 0;
    for j := 0 to |grid|
      invariant table.rows == start + Map(grid[..j], FromResult)
      invariant count == j
    {
      assert Map(grid[..j + 1], FromResult) == Map(grid[..j], FromResult) + [FromResult(grid[j])];
      table.Create(FromResult(grid[j]));
      count := count + 1;
    }
    assert grid[..|grid|] == grid;
  }

  /** One race of the loop, as a step of `QualifyRaces`. */
  method QualifyRaceStep(table: QualifyingTable, results: seq<Result>, rs: seq<Race>, i: nat,
                         created: nat, skipped: nat, ghost start: QualifyingRun)
    returns (created': nat, skipped': nat)
    requires i < |rs|
    requires QualifyingRun(table.rows, created, skipped) == QualifyRaces(start, results, rs[..i])
    modifies table
    ensures QualifyingRun(table.rows, created', skipped') == QualifyRaces(start, results, rs[..i + 1])
  {
    assert rs[..i + 1][..i] == rs[..i];
    var race := rs[i];
    created', skipped' := created, skipped;
    var existing := table.CountFor(race);
    if existing > 0 {
      skipped' := skipped + existing;
    } else {
      var grid := GridOrder(results, race);
      if grid != [] {
        var count := CreateFromGrid(table, grid);
        created' := created + count;
      }
    }
  }

  /** `populate_qualifying`. */
  method PopulateQualifying(table: QualifyingTable, races: seq<Race>, results: seq<Result>)
    returns (created: nat, skipped: nat)
    modifies table
    ensures QualifyingRun(table.rows, created, skipped) == QualifyingRunOf(old(table.rows), races, results)
  {
    var rs := SeasonRaces(races, ScriptSeason);
    ghost var start := QualifyingRun(table.rows, 0, 0);
    created, skipped := 0, 0;
    for i := 0 to |rs|
      invariant QualifyingRun(table.rows, created, skipped) == QualifyRaces(start, results, rs[..i])
    {
      created, skipped := QualifyRaceStep(table, results, rs, i, created, skipped, start);
    }
    assert rs[..|rs|] == rs;
  }


  /** `after` keeps the rows of `before` as a prefix, and its created count is the number of rows it added. */
  predicate Extends(before: QualifyingRun, after: QualifyingRun) {
    && |before.rows| <= |after.rows|
    && after.rows[..|before.rows|] == before.rows
    && after.created >= before.created && after.skipped >= before.skipped
    && |after.rows| == |before.rows| + (after.created - before.created)
  }

  /** Every row is the grid row of a result of one of the races. */
  predicate FromRaces(rows: seq<Qualifying>, results: seq<Result>, rs: seq<Race>) {
    forall q :: q in rows ==> exists r :: r in results && r.race in rs && q == FromResult(r)
  }

  lemma ExtendsIsTransitive(a: QualifyingRun, b: QualifyingRun, c: QualifyingRun)
    requires Extends(a, b) && Extends(b, c)
    ensures Extends(a, c)
    ensures c.rows[|a.rows|..] == b.rows[|a.rows|..] + c.rows[|b.rows|..]
  {
    assert c.rows[..|a.rows|] == c.rows[..|b.rows|][..|a.rows|];
  }

  /** One race only appends, and each appended row is the grid row of one of its results. */
  lemma QualifyRaceAppends(st: QualifyingRun, results: seq<Result>, race: Race)
    ensures Extends(st, QualifyRace(st, results, race))
    ensures FromRaces(QualifyRace(st, results, race).rows[|st.rows|..], results, [race])
  {
    var after := QualifyRace(st, results, race);
    if Existing(st.rows, race) == 0 && GridOrder(results, race) != [] {
      var grid := GridOrder(results, race);
      var added := Map(grid, FromResult);
      assert after.rows[|st.rows|..] == added;
      forall q | q in added
        ensures exists r :: r in results && r.race in [race] && q == FromResult(r)
      {
        var k :| 0 <= k < |added| && added[k] == q;
        assert grid[k] in grid;
      }
    } else {
      assert after.rows[|st.rows|..] == [];
    }
  }

  /** The run only appends, and the created count is the number of appended rows. */
  lemma {:induction false} QualifyRacesAppends(st: QualifyingRun, results: seq<Result>, rs: seq<Race>)
    ensures Extends(st, QualifyRaces(st, results, rs))
  {
    if rs != [] {
      var mid := QualifyRaces(st, results, rs[..|rs| - 1]);
      QualifyRacesAppends(st, results, rs[..|rs| - 1]);
      QualifyRaceAppends(mid, results, rs[|rs| - 1]);
      ExtendsIsTransitive(st, mid, QualifyRace(mid, results, rs[|rs| - 1]));
    }
  }

  /** Each appended row is the grid row of a result of one of the races the run visited. */
  lemma {:induction false} QualifyRacesCreateFromResults(st: QualifyingRun, results: seq<Result>, rs: seq<Race>)
    ensures |st.rows| <= |QualifyRaces(st, results, rs).rows|
    ensures FromRaces(QualifyRaces(st, results, rs).rows[|st.rows|..], results, rs)
  {
    if rs != [] {
      var init := rs[..|rs| - 1];
      var race := rs[|rs| - 1];
      var mid := QualifyRaces(st, results, init);
      var after := QualifyRace(mid, results, race);
      QualifyRacesCreateFromResults(st, results, init);
      QualifyRacesAppends(st, results, init);
      QualifyRaceAppends(mid, results, race);
      ExtendsIsTransitive(st, mid, after);
      forall q | q in after.rows[|st.rows|..]
        ensures exists r :: r in results && r.race in rs && q == FromResult(r)
      {
        if q in mid.rows[|st.rows|..] {
          var r :| r in results && r.race in init && q == FromResult(r);
          assert r.race in rs;
        } else {
          var r :| r in results && r.race in [race] && q == FromResult(r);
          assert r.race in rs;
        }
      }
    }
  }

  /**
   * A race without qualifying rows gets exactly one row per result, in grid
   * order; the rows of every other race stay as they were.
   */
  lemma RaceRowsFollowGrid(st: QualifyingRun, results: seq<Result>, race: Race, other: Race)
    requires Existing(st.rows, race) == 0
    requires other != race
    ensures var after := QualifyRace(st, results, race).rows;
      && Keep(after, (q: Qualifying) => q.race == race) == Map(GridOrder(results, race), FromResult)
      && Keep(after, (q: Qualifying) => q.race == other) == Keep(st.rows, (q: Qualifying) => q.race == other)
  {
    var isRace := (q: Qualifying) => q.race == race;
    var isOther := (q: Qualifying) => q.race == other;
    var added := Map(GridOrder(results, race), FromResult);
    assert forall q :: q in added ==> q.race == race;
    KeepAppend(st.rows, added, isRace);
    KeepAppend(st.rows, added, isOther);
    KeepAll(added, isRace);
    KeepNone(added, isOther);
    assert |Keep(st.rows, isRace)| == 0;
  }

  /** The created rows of a race are ordered by position. */
  lemma GridRowsAreOrderedByPosition(results: seq<Result>, race: Race)
    ensures forall i, j :: 0 <= i < j < |Map(GridOrder(results, race), FromResult)| ==>
      Map(GridOrder(results, race), FromResult)[i].position <= Map(GridOrder(results, race), FromResult)[j].position
  {
  }

  /** A race is settled once it has qualifying rows or has no results at all. */
  predicate Settled(rows: seq<Qualifying>, results: seq<Result>, race: Race) {
    Existing(rows, race) > 0 || GridOrder(results, race) == []
  }

  lemma AppendKeepsSettled(rows: seq<Qualifying>, extra: seq<Qualifying>, results: seq<Result>, race: Race)
    requires Settled(rows, results, race)
    ensures Settled(rows + extra, results, race)
  {
    KeepAppend(rows, extra, (q: Qualifying) => q.race == race);
  }

  /** Appending the qualifying rows of a non-empty grid of the race gives the race a row. */
  lemma GridRowsExist(rows: seq<Qualifying>, grid: seq<Result>, race: Race)
    requires grid != [] && grid[0].race == race
    ensures |Keep(rows + Map(grid, FromResult), (q: Qualifying) => q.race == race)| > 0
  {
    var added := Map(grid, FromResult);
    KeepAppend(rows, added, (q: Qualifying) => q.race == race);
    assert added[0] in Keep(added, (q: Qualifying) => q.race == race);
  }

  /** One race settles itself. */
  lemma QualifyRaceSettles(st: QualifyingRun, results: seq<Result>, race: Race)
    ensures Settled(QualifyRace(st, results, race).rows, results, race)
  {
    var grid := GridOrder(results, race);
    if Existing(st.rows, race) == 0 && grid != [] {
      assert grid[0] in grid;
      GridRowsExist(st.rows, grid, race);
    }
  }

  /** One race keeps every settled race settled. */
  lemma QualifyRaceKeepsSettled(st: QualifyingRun, results: seq<Result>, race: Race, other: Race)
    requires Settled(st.rows, results, other)
    ensures Settled(QualifyRace(st, results, race).rows, results, other)
  {
    if Existing(st.rows, race) == 0 && GridOrder(results, race) != [] {
      AppendKeepsSettled(st.rows, Map(GridOrder(results, race), FromResult), results, other);
    }
  }

  /** After the run every race it visited is settled. */
  lemma {:induction false} QualifyRacesSettles(st: QualifyingRun, results: seq<Result>, rs: seq<Race>)
    ensures forall race :: race in rs ==> Settled(QualifyRaces(st, results, rs).rows, results, race)
  {
    if rs != [] {
      var init := rs[..|rs| - 1];
      var last := rs[|rs| - 1];
      var mid := QualifyRaces(st, results, init);
      QualifyRacesSettles(st, results, init);
      QualifyRaceSettles(mid, results, last);
      forall race | race in rs
        ensures Settled(QualifyRace(mid, results, last).rows, results, race)
      {
        if race != last {
          assert race in init;
          QualifyRaceKeepsSettled(mid, results, last, race);
        }
      }
    }
  }

  /** A settled race adds nothing. */
  lemma SettledRaceIsIdle(st: QualifyingRun, results: seq<Result>, race: Race)
    requires Settled(st.rows, results, race)
    ensures QualifyRace(st, results, race).rows == st.rows
    ensures QualifyRace(st, results, race).created == st.created
  {
  }

  /** Over settled races the run creates nothing and changes nothing but the skipped total. */
  lemma {:induction false} SettledRacesAreIdle(st: QualifyingRun, results: seq<Result>, rs: seq<Race>)
    requires forall race :: race in rs ==> Settled(st.rows, results, race)
    ensures QualifyRaces(st, results, rs).rows == st.rows
    ensures QualifyRaces(st, results, rs).created == st.created
  {
    if rs != [] {
      assert forall race :: race in rs[..|rs| - 1] ==> race in rs;
      SettledRacesAreIdle(st, results, rs[..|rs| - 1]);
      SettledRaceIsIdle(QualifyRaces(st, results, rs[..|rs| - 1]), results, rs[|rs| - 1]);
    }
  }

  /** A second run of the script creates no qualifying rows. */
  lemma PopulateQualifyingIsIdempotent(rows: seq<Qualifying>, races: seq<Race>, results: seq<Result>)
    ensures var first := QualifyingRunOf(rows, races, results);
      var second := QualifyingRunOf(first.rows, races, results);
      second.rows == first.rows && second.created == 0
  {
    var rs := SeasonRaces(races, ScriptSeason);
    var first := QualifyingRunOf(rows, races, results);
    QualifyRacesSettles(QualifyingRun(rows, 0, 0), results, rs);
    SettledRacesAreIdle(QualifyingRun(first.rows, 0, 0), results, rs);
  }

  // ------------------------------------------------------ retirement reasons

  const RetiredReasons: seq<string> := [
    "Engine failure", "Gearbox issue", "Hydraulics", "Brake failure",
    "Suspension damage", "Collision", "Collision damage", "Power unit",
    "Electrical", "Electronics", "Water pressure", "Oil leak"]

  const DsqReasons: seq<string> := ["Technical infringement", "Unsafe release"]

  /** `retirement_reasons.get(status, ['Mechanical'])`. */
  function ReasonsFor(status: Status): (reasons: seq<string>)
    ensures |reasons| > 0
    ensures status == Retired ==> reasons == RetiredReasons
    ensures status == Dsq ==> reasons == DsqReasons
    ensures status != Retired && status != Dsq ==> reasons == ["Mechanical"]
  {
    match status
    case Retired => RetiredReasons
    case Dsq => DsqReasons
    case _ => ["Mechanical"]
  }

  /** The filter of `add_retirement_reasons`: a 2024 retirement or disqualification without a reason. */
  predicate NeedsReason(r: Result) {
    r.race.season == ScriptSeason && (r.status == Retired || r.status == Dsq) && r.retirementReason.None?
  }

  /** The `idx`-th filtered result gets entry `idx mod len` of its status's list. */
  function WithReason(r: Result, idx: nat): Result {
    var reasons := ReasonsFor(r.status);
    r.(retirementReason := Some(reasons[idx % |reasons|]))
  }

  /** The result table after `add_retirement_reasons`, in query order. */
  function AssignReasons(rows: seq<Result>): (after: seq<Result>)
    ensures |after| == |rows|
  {
    if rows == [] then []
    else
      var init := rows[..|rows| - 1];
      var last := rows[|rows| - 1];
      AssignReasons(init) + [if NeedsReason(last) then WithReason(last, Count(init, NeedsReason)) else last]
  }

  /** The result rows as the script's query returns them. */
  class ResultRows {
    var rows: seq<Result>

    constructor (rows0: seq<Result>)
      ensures rows == rows0
    {
      rows := rows0;
    }

    /** `add_retirement_reasons`: set and save a reason on each filtered result. */
    method AddRetirementReasons() returns (updated: nat)
      modifies this
      ensures rows == AssignReasons(old(rows))
      ensures updated == Count(old(rows), NeedsReason)
    {
      ghost var start := rows;
      var n := |rows|;
      updated := 0;
      for i := 0 to n
        invariant |rows| == |start|
        invariant rows[..i] == AssignReasons(start[..i])
        invariant rows[i..] == start[i..]
        invariant updated == Count(start[..i], NeedsReason)
      {
        assert start[..i + 1][..i] == start[..i];
        assert rows[i] == start[i];
        var r := rows[i];
        KeepAppend(start[..i], [r], NeedsReason);
        assert start[..i + 1] == start[..i] + [r];
        if NeedsReason(r) {
          rows := rows[i := WithReason(r, updated)];
          updated := updated + 1;
        }
        assert rows[..i + 1] == rows[..i] + [rows[i]];
        assert rows[i + 1..] == start[i + 1..];
      }
      assert rows == rows[..|start|];
      assert start[..|start|] == start;
    }
  }

  /**
   * Row by row: a filtered result gets the reason of its rank among the
   * filtered results, cycled through its status's list, and nothing else
   * changes; every other result is untouched.
   */
  lemma {:induction false} AssignReasonsAt(rows: seq<Result>, i: nat)
    requires i < |rows|
    ensures AssignReasons(rows)[i] ==
      if NeedsReason(rows[i]) then WithReason(rows[i], Count(rows[..i], NeedsReason)) else rows[i]
  {
    var init := rows[..|rows| - 1];
    if i < |rows| - 1 {
      AssignReasonsAt(init, i);
      assert init[..i] == rows[..i];
    } else {
      assert init == rows[..i];
    }
  }

  /** Each assigned reason is from its status's list, and it is the only field that changes. */
  lemma AssignedReasonsComeFromTheList(rows: seq<Result>, i: nat)
    requires i < |rows| && NeedsReason(rows[i])
    ensures var r := AssignReasons(rows)[i];
      && r.retirementReason.Some?
      && r.retirementReason.value in ReasonsFor(rows[i].status)
      && (rows[i].status == Retired ==> r.retirementReason.value in RetiredReasons)
      && (rows[i].status == Dsq ==> r.retirementReason.value in DsqReasons)
      && r.(retirementReason := None) == rows[i]
  {
    AssignReasonsAt(rows, i);
  }

  /** A second run finds no result without a reason and changes nothing. */
  lemma AddRetirementReasonsIsIdempotent(rows: seq<Result>)
    ensures Count(AssignReasons(rows), NeedsReason) == 0
    ensures AssignReasons(AssignReasons(rows)) == AssignReasons(rows)
  {
    var after := AssignReasons(rows);
    forall i | 0 <= i < |after| ensures !NeedsReason(after[i]) {
      AssignReasonsAt(rows, i);
    }
    KeepNone(after, NeedsReason);
    forall i | 0 <= i < |after| ensures AssignReasons(after)[i] == after[i] {
      AssignReasonsAt(after, i);
    }
  }
}
