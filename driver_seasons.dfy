/**
 * The DriverSeason table (backend/core/models.py, `DriverSeason`): which
 * team a driver drove for in a season. Rows are unique on (driver, season,
 * constructor), so the table is a set of triples.
 */
module DriverSeasons {

  datatype DriverSeason = DriverSeason(driver: nat, season: int, team: nat)

  /** The rows of `rows` for the driver and season whose team is not `team`. */
  function OtherTeams(rows: set<DriverSeason>, driver: nat, season: int, team: nat): (others: set<DriverSeason>)
    ensures others <= rows
    ensures forall r :: r in others <==> r in rows && r.driver == driver && r.season == season && r.team != team
  {
    set r | r in rows && r.driver == driver && r.season == season && r.team != team
  }

  /** The teams a driver has rows for in a season. */
  function TeamsOf(rows: set<DriverSeason>, driver: nat, season: int): set<nat> {
    set r | r in rows && r.driver == driver && r.season == season :: r.team
  }

  /** At most one team per driver per season. */
  ghost predicate OneTeamPerDriver(rows: set<DriverSeason>) {
    forall a, b :: a in rows && b in rows && a.driver == b.driver && a.season == b.season ==> a.team == b.team
  }

  class DriverSeasonTable {
    var rows: set<DriverSeason>

    constructor ()
      ensures rows == {}
    {
      rows := {};
    }

    /**
     * `update_or_create` on all three fields with empty defaults: adds the
     * row when it is missing and changes nothing otherwise.
     */
    method UpdateOrCreate(row: DriverSeason) returns (created: bool)
      modifies this
      ensures created <==> row !in old(rows)
      ensures rows == old(rows) + {row}
    {
      created := row !in rows;
      rows := rows + {row};
    }

    /** Deletes the driver's rows of the season for any team but `team`, returning how many. */
    method DeleteOtherTeams(driver: nat, season: int, team: nat) returns (deleted: nat)
      modifies this
      ensures rows == old(rows) - OtherTeams(old(rows), driver, season, team)
      ensures deleted == |OtherTeams(old(rows), driver, season, team)|
    {
      var others := OtherTeams(rows, driver, season, team);
      deleted := |others|;
      rows := rows - others;
    }
  }
}
