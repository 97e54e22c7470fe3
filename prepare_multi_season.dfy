/**
 * The season-table bootstrap (backend/prepare_multi_season.py): a `Season`
 * row for every year that has races or stored standings, created only where
 * missing, with the latest of those years marked active.
 *
 * The season table is a map from year to `is_active`; `year` is unique.
 */
module MultiSeason {
  import opened Wrappers
  import opened Seqs
  import opened Records
  import opened ChampionshipService
  import opened ConstructorSerializer

  /** The distinct seasons of the race table and of the standings table. */
  function AllYears(races: seq<Race>, standings: map<StandingKey, StandingRow>): (years: set<int>)
    ensures forall y :: y in years <==>
      (exists r :: r in races && r.season == y) || (exists k :: k in standings && k.season == y)
  {
    (set r | r in races :: r.season) + (set k | k in standings :: k.season)
  }

  /** The season table and the count of created rows. */
  datatype SeasonRun = SeasonRun(seasons: map<int, bool>, created: nat)

  /** `Season.objects.get_or_create(year=year, defaults={'is_active': year == top})`. */
  function CreateYear(st: SeasonRun, year: int, top: int): SeasonRun {
    if year in st.seasons then st else SeasonRun(st.seasons[year := year == top], st.created + 1)
  }

  function CreateYears(st: SeasonRun, years: seq<int>, top: int): SeasonRun {
    if years == [] then st
    else CreateYear(CreateYears(st, years[..|years| - 1], top), years[|years| - 1], top)
  }

  /** The whole `create_seasons`: the years in ascending order, the latest of them active. */
  function CreateSeasonsRun(seasons: map<int, bool>, races: seq<Race>, standings: map<StandingKey, StandingRow>)
    : SeasonRun
  {
    var years := AllYears(races, standings);
    if years == {} then SeasonRun(seasons, 0)
    else CreateYears(SeasonRun(seasons, 0), Ascending(years), MaxOf(years))
  }

  /** The season table. */
  class SeasonTable {
    var seasons: map<int, bool>

    constructor ()
      ensures seasons == map[]
    {
      seasons := map[];
    }

    /** `Season.objects.get_or_create(year=..., defaults={'is_active': ...})`. */
    method GetOrCreate(year: int, active: bool) returns (created: bool)
      modifies this
      ensures created <==> year !in old(seasons)
      ensures seasons == if created then old(seasons)[year := active] else old(seasons)
    {
      created := year !in seasons;
      if created {
        seasons := seasons[year := active];
      }
    }
  }

  /** The loop of `create_seasons` over the ordered years. */
  method CreateYearsInOrder(table: SeasonTable, ordered: seq<int>, top: int) returns (createdCount: nat)
    modifies table
    ensures SeasonRun(table.seasons, createdCount) == CreateYears(SeasonRun(old(table.seasons), 0), ordered, top)
  {
    ghost var start := SeasonRun(table.seasons, 0);
    createdCount := 0;
    for i := 0 to |ordered|
      invariant SeasonRun(table.seasons, createdCount) == CreateYears(start, ordered[..i], top)
    {
      assert ordered[..i + 1][..i] == ordered[..i];
      var created := table.GetOrCreate(ordered[i], ordered[i] == top);
      if created {
        createdCount := createdCount + 1;
      }
    }
    assert ordered[..|ordered|] == ordered;
  }

  /** `create_seasons`: returns the number of seasons created. */
  method CreateSeasons(table: SeasonTable, races: seq<Race>, standings: map<StandingKey, StandingRow>)
    returns (createdCount: nat)
    modifies table
    ensures SeasonRun(table.seasons, createdCount) == CreateSeasonsRun(old(table.seasons), races, standings)
  {
    var years := AllYears(races, standings);
    createdCount := 0;
    if years != {} {
      createdCount := CreateYearsInOrder(table, Ascending(years), MaxOf(years));
    }
  }

  /**
   * After the loop the table holds the old years and the visited ones; old
   * rows are unchanged and a new row is active iff its year is `top`.
   */
  lemma {:induction false} CreateYearsResult(st: SeasonRun, years: seq<int>, top: int)
    ensures var after := CreateYears(st, years, top);
      && (forall y :: y in after.seasons <==> y in st.seasons || y in years)
      && (forall y :: y in st.seasons ==> after.seasons[y] == st.seasons[y])
      && (forall y :: y in after.seasons && y !in st.seasons ==> after.seasons[y] == (y == top))
  {
    if years != [] {
      CreateYearsResult(st, years[..|years| - 1], top);
      assert forall y :: y in years <==> y in years[..|years| - 1] || y == years[|years| - 1];
    }
  }

  /** The count is the number of rows added. */
  lemma {:induction false} CreateYearsCount(st: SeasonRun, years: seq<int>, top: int)
    ensures var after := CreateYears(st, years, top);
      after.created >= st.created && |after.seasons| == |st.seasons| + (after.created - st.created)
  {
    if years != [] {
      CreateYearsCount(st, years[..|years| - 1], top);
    }
  }

  lemma DisjointUnionSize(a: set<int>, b: set<int>, u: set<int>)
    requires forall y :: y in u <==> y in a || y in b
    ensures |u| == |a| + |b - a|
  {
    assert forall y :: y in u <==> y in a + (b - a);
    assert u == a + (b - a);
    assert a !! (b - a);
  }

  /** Years that already have a row change nothing. */
  lemma {:induction false} PresentYearsAreIdle(st: SeasonRun, years: seq<int>, top: int)
    requires forall y :: y in years ==> y in st.seasons
    ensures CreateYears(st, years, top) == st
  {
    if years != [] {
      assert forall y :: y in years[..|years| - 1] ==> y in years;
      PresentYearsAreIdle(st, years[..|years| - 1], top);
    }
  }

  /**
   * `create_seasons` adds a row for exactly the years of races and standings
   * that had none, leaves existing rows alone, makes a new row active iff its
   * year is the latest, and returns the number of rows it added.
   */
  lemma CreateSeasonsResult(seasons: map<int, bool>, races: seq<Race>, standings: map<StandingKey, StandingRow>)
    ensures var years := AllYears(races, standings);
      var after := CreateSeasonsRun(seasons, races, standings);
      && (forall y :: y in after.seasons <==> y in seasons || y in years)
      && (forall y :: y in seasons ==> after.seasons[y] == seasons[y])
      && (forall y :: y in after.seasons && y !in seasons ==>
            after.seasons[y] == (forall z :: z in years ==> z <= y))
      && after.created == |years - seasons.Keys|
  {
    var years := AllYears(races, standings);
    if years != {} {
      var top := MaxOf(years);
      var ordered := Ascending(years);
      var st := SeasonRun(seasons, 0);
      CreateYearsResult(st, ordered, top);
      CreateYearsCount(st, ordered, top);
      var after := CreateYears(st, ordered, top);
      DisjointUnionSize(seasons.Keys, years, after.seasons.Keys);
    }
  }

  /** A second run creates nothing and changes nothing. */
  lemma CreateSeasonsIsIdempotent(seasons: map<int, bool>, races: seq<Race>, standings: map<StandingKey, StandingRow>)
    ensures var first := CreateSeasonsRun(seasons, races, standings).seasons;
      var second := CreateSeasonsRun(first, races, standings);
      second.seasons == first && second.created == 0
  {
    var first := CreateSeasonsRun(seasons, races, standings).seasons;
    CreateSeasonsResult(seasons, races, standings);
    var years := AllYears(races, standings);
    if years != {} {
      PresentYearsAreIdle(SeasonRun(first, 0), Ascending(years), MaxOf(years));
    }
  }

  /**
   * When the latest year is new and no older row is active past it, the API
   * then describes that year by default.
   */
  lemma LatestNewYearBecomesDefaultSeason(seasons: map<int, bool>, races: seq<Race>,
                                          standings: map<StandingKey, StandingRow>, top: int)
    requires top in AllYears(races, standings)
    requires forall y :: y in AllYears(races, standings) ==> y <= top
    requires top !in seasons
    requires forall y :: y in seasons && seasons[y] ==> y <= top
    ensures SeasonYear(None, CreateSeasonsRun(seasons, races, standings).seasons) == Year(top)
  {
    CreateSeasonsResult(seasons, races, standings);
    var after := CreateSeasonsRun(seasons, races, standings).seasons;
    assert top in after && after[top];
    forall a | a in after && after[a]
      ensures a <= top
    {
      if a !in seasons {
        assert forall z :: z in AllYears(races, standings) ==> z <= a;
      }
    }
    ViewDescribesLatestActiveSeason(after, top);
  }
}
