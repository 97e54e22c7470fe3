/**
 * The rows of the championship database that the standings logic reads and
 * writes (backend/core/models.py), reduced to the fields the logic uses.
 *
 * Points are exact integers (for example tenths of a point) rather than
 * floats, and race dates are day numbers. Drivers and constructors are
 * identified by their database ids.
 */
module Records {
  import opened Wrappers

  /** A race weekend, identified by (season, round). */
  datatype Race = Race(season: int, round: int, date: int)

  datatype Status = Finished | Dnf | Dsq | Dns | Retired

  /**
   * One driver's result in one race, with the race it belongs to (the `race`
   * foreign key, joined); `team` is the `constructor` foreign key.
   */
  datatype Result = Result(
    race: Race,
    driver: nat,
    team: nat,
    grid: int,
    finalPosition: Option<int>,
    points: int,
    status: Status,
    retirementReason: Option<string>)

  /** The `standing_type` of a championship standing: `'driver'` or `'constructor'`. */
  datatype StandingKind = DriverKind | ConstructorKind

  /** Whom a result is credited to in a championship of the given kind. */
  function SubjectOf(r: Result, kind: StandingKind): nat {
    match kind
    case DriverKind => r.driver
    case ConstructorKind => r.team
  }

  /** A race win: `final_position == 1`. */
  predicate IsWin(r: Result) {
    r.finalPosition == Some(1)
  }

  /** One line of a computed championship table. */
  datatype Standing = Standing(position: nat, subject: nat, points: int, wins: nat, races: nat)

  /** The lookup fields of a stored standing; round 0 is the season total. */
  datatype StandingKey = StandingKey(season: int, kind: StandingKind, round: int, subject: nat)

  /** The fields a save rewrites on a stored standing. */
  datatype StandingRow = StandingRow(position: nat, points: int, wins: nat)

  /** "Ranks no lower than": more points, or equal points and at least as many wins. */
  predicate RanksAbove(p1: int, w1: int, p2: int, w2: int) {
    p1 > p2 || (p1 == p2 && w1 >= w2)
  }
}
