/**
 * The constructor representation of the API (`ConstructorSerializer` in
 * backend/api/serializers.py): which season it describes, the display fields
 * that a per-season row overrides, the season's drivers, and the stored
 * season-total constructor standing.
 */
module ConstructorSerializer {
  import opened Wrappers
  import opened Seqs
  import opened Records
  import opened ChampionshipService
  import opened Progressive

  /** The display fields a constructor and its per-season row both carry; all are nullable. */
  datatype Style = Style(
    carModel: Option<string>,
    carImageUrl: Option<string>,
    teamColor: Option<string>,
    teamColorSecondary: Option<string>)

  datatype Field = CarModel | CarImageUrl | TeamColor | TeamColorSecondary

  function FieldOf(s: Style, f: Field): Option<string> {
    match f
    case CarModel => s.carModel
    case CarImageUrl => s.carImageUrl
    case TeamColor => s.teamColor
    case TeamColorSecondary => s.teamColorSecondary
  }

  /** Python truthiness of a nullable text field. */
  predicate Filled(v: Option<string>) {
    v.Some? && v.value != []
  }

  /** The `ConstructorSeason` lookup; `(team, season)` is unique. */
  datatype StyleKey = StyleKey(team: nat, year: int)

  /** The season a representation describes, or the `ValueError` of a malformed `season` parameter. */
  datatype YearChoice = Year(year: int) | BadSeasonParameter

  /**
   * `_get_season_year`: the `season` query parameter when present, else the
   * year of the first active season in `-year` order, else 2024.
   */
  function SeasonYear(param: Option<string>, seasons: map<int, bool>): (y: YearChoice)
    ensures param.Some? ==> (y.Year? <==> ParseInt(param.value).Some?)
    ensures param.Some? && y.Year? ==> ParseInt(param.value) == Some(y.year)
    ensures param.None? && (exists a :: a in seasons && seasons[a]) ==>
      y.Year? && y.year in seasons && seasons[y.year] && forall a :: a in seasons && seasons[a] ==> a <= y.year
    ensures param.None? && !(exists a :: a in seasons && seasons[a]) ==> y == Year(2024)
  {
    if param.Some? then
      match ParseInt(param.value)
      case Some(n) => Year(n)
      case None => BadSeasonParameter
    else
      var active := set a | a in seasons && seasons[a];
      assert forall a :: a in seasons && seasons[a] ==> a in active;
      if active == {} then Year(2024) else Year(MaxOf(active))
  }

  /** A field of the representation: the season row's value if it is filled, else the constructor's own. */
  function DisplayValue(base: Style, styles: map<StyleKey, Style>, team: nat, year: int, f: Field)
    : (v: Option<string>)
    ensures v == FieldOf(base, f) || (StyleKey(team, year) in styles && v == FieldOf(styles[StyleKey(team, year)], f))
    ensures StyleKey(team, year) !in styles ==> v == FieldOf(base, f)
    ensures StyleKey(team, year) in styles && Filled(FieldOf(styles[StyleKey(team, year)], f)) ==>
      v == FieldOf(styles[StyleKey(team, year)], f)
    ensures !(StyleKey(team, year) in styles && Filled(FieldOf(styles[StyleKey(team, year)], f))) ==>
      v == FieldOf(base, f)
  {
    var key := StyleKey(team, year);
    if key in styles && Filled(FieldOf(styles[key], f)) then FieldOf(styles[key], f) else FieldOf(base, f)
  }

  /** The shown value is filled exactly when the season value or the constructor's own is. */
  lemma DisplayFilledIffEitherFilled(base: Style, styles: map<StyleKey, Style>, team: nat, year: int, f: Field)
    ensures var key := StyleKey(team, year);
      Filled(DisplayValue(base, styles, team, year, f)) <==>
        (key in styles && Filled(FieldOf(styles[key], f))) || Filled(FieldOf(base, f))
    ensures var key := StyleKey(team, year);
      key in styles && Filled(FieldOf(styles[key], f)) ==> DisplayValue(base, styles, team, year, f) == FieldOf(styles[key], f)
  {
  }

  /** Each field falls back on its own: changing a season row's other fields does not change it. */
  lemma FallbackIsPerField(base: Style, styles: map<StyleKey, Style>, team: nat, year: int, f: Field, row: Style)
    requires StyleKey(team, year) in styles
    requires FieldOf(row, f) == FieldOf(styles[StyleKey(team, year)], f)
    ensures DisplayValue(base, styles[StyleKey(team, year) := row], team, year, f)
      == DisplayValue(base, styles, team, year, f)
  {
  }

  /** `get_drivers`: the distinct drivers with a result for the constructor in the season. */
  function ConstructorDrivers(results: seq<Result>, team: nat, year: int): (ds: set<nat>)
    ensures forall d :: d in ds <==>
      exists r :: r in results && r.team == team && r.race.season == year && r.driver == d
  {
    set r | r in results && r.team == team && r.race.season == year :: r.driver
  }

  /**
   * The drivers ranked in the season's driver championship are exactly the
   * drivers listed under some constructor for that season.
   */
  lemma RankedDriversAreListedUnderTheirTeams(results: seq<Result>, year: int)
    ensures forall d :: d in Credited(Select(results, year, None), DriverKind) <==>
      exists c :: d in ConstructorDrivers(results, c, year)
  {
    var sel := Select(results, year, None);
    forall d | d in Credited(sel, DriverKind)
      ensures exists c :: d in ConstructorDrivers(results, c, year)
    {
      var r :| r in sel && SubjectOf(r, DriverKind) == d;
      assert d in ConstructorDrivers(results, r.team, year);
    }
    forall d, c | d in ConstructorDrivers(results, c, year)
      ensures d in Credited(sel, DriverKind)
    {
      var r :| r in results && r.team == c && r.race.season == year && r.driver == d;
      assert r in sel;
    }
  }

  /** The `championship_position` object. */
  datatype Summary = Summary(position: nat, points: int, wins: nat)

  /** `get_championship_position`: the stored round-0 constructor standing of the season, if any. */
  function ChampionshipPosition(rows: map<StandingKey, StandingRow>, team: nat, year: int): (s: Option<Summary>)
    ensures s.Some? <==> StandingKey(year, ConstructorKind, 0, team) in rows
    ensures s.Some? ==> var row := rows[StandingKey(year, ConstructorKind, 0, team)];
      s.value == Summary(row.position, row.points, row.wins)
  {
    var key := StandingKey(year, ConstructorKind, 0, team);
    if key in rows then Some(Summary(rows[key].position, rows[key].points, rows[key].wins)) else None
  }

  /**
   * Once the season total is stored, the representation shows the position,
   * points and wins the engine ranks the constructor with.
   */
  lemma PositionShowsEngineTotal(rows: map<StandingKey, StandingRow>, results: seq<Result>, year: int, line: Standing)
    requires Stored(rows, results, year, ConstructorKind, None)
    requires line in CalculateStandings(results, year, ConstructorKind, None)
    ensures ChampionshipPosition(rows, line.subject, year) == Some(Summary(line.position, line.points, line.wins))
    ensures line.points == Points(Select(results, year, None), ConstructorKind, line.subject)
    ensures line.wins == Wins(Select(results, year, None), ConstructorKind, line.subject)
  {
    StandingsAreTable(results, year, ConstructorKind, None);
    assert RoundKey(None) == 0;
  }

  /** A constructor's whole representation, apart from its own stored columns. */
  datatype ConstructorView = ConstructorView(
    carModel: Option<string>,
    carImageUrl: Option<string>,
    teamColor: Option<string>,
    teamColorSecondary: Option<string>,
    drivers: set<nat>,
    championshipPosition: Option<Summary>)

  /** The serializer's output; `None` is the `ValueError` of a malformed `season` parameter. */
  function Serialize(team: nat, base: Style, param: Option<string>, seasons: map<int, bool>,
                     styles: map<StyleKey, Style>, results: seq<Result>, rows: map<StandingKey, StandingRow>)
    : (view: Option<ConstructorView>)
    ensures view.None? <==> SeasonYear(param, seasons).BadSeasonParameter?
    ensures view.Some? ==> var y := SeasonYear(param, seasons).year;
      && view.value.drivers == ConstructorDrivers(results, team, y)
      && view.value.championshipPosition == ChampionshipPosition(rows, team, y)
      && (Filled(view.value.carModel) <==> (StyleKey(team, y) in styles && Filled(styles[StyleKey(team, y)].carModel)) || Filled(base.carModel))
  {
    match SeasonYear(param, seasons)
    case BadSeasonParameter => None
    case Year(y) =>
      DisplayFilledIffEitherFilled(base, styles, team, y, CarModel);
      Some(ConstructorView(
        DisplayValue(base, styles, team, y, CarModel),
        DisplayValue(base, styles, team, y, CarImageUrl),
        DisplayValue(base, styles, team, y, TeamColor),
        DisplayValue(base, styles, team, y, TeamColorSecondary),
        ConstructorDrivers(results, team, y),
        ChampionshipPosition(rows, team, y)))
  }

  /** Without a `season` parameter the representation describes the latest active season. */
  lemma ViewDescribesLatestActiveSeason(seasons: map<int, bool>, y: int)
    requires y in seasons && seasons[y]
    requires forall a :: a in seasons && seasons[a] ==> a <= y
    ensures SeasonYear(None, seasons) == Year(y)
  {
  }
}
