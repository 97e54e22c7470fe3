/**
 * The standings engine (backend/core/services/championship_service.py).
 *
 * `CalculateStandings` is the aggregation query: results of one season,
 * optionally up to a round ceiling, grouped by driver or constructor, with
 * summed points, counted wins and counted distinct races, ranked by points
 * and then wins, numbered from 1. `SaveStandings` upserts a ranking into the
 * cached standings table, `RecalculateAllStandings` does so after every round
 * and for the season total, and `PositionHistory` reads one subject's
 * per-round positions back.
 *
 * Where the database leaves ties on both points and wins unordered, the model
 * fixes one order: tied subjects keep the order in which they first appear
 * in the result rows.
 */
module ChampionshipService {
  import opened Wrappers
  import opened Seqs
  import opened Records

  // ---------------------------------------------------------------- selection

  /** Python truthiness of `up_to_round`: `None` and `0` are both false. */
  predicate Truthy(upTo: Option<int>) {
    upTo.Some? && upTo.value != 0
  }

  /** The query filter: the race is in the season and, under a truthy ceiling, at or before it. */
  predicate InScope(r: Result, season: int, upTo: Option<int>) {
    r.race.season == season && (Truthy(upTo) ==> r.race.round <= upTo.value)
  }

  /** The result rows the aggregation reads, in table order. */
  function Select(results: seq<Result>, season: int, upTo: Option<int>): (sel: seq<Result>)
    ensures forall r :: r in sel <==> r in results && InScope(r, season, upTo)
  {
    Keep(results, (r: Result) => InScope(r, season, upTo))
  }

  // -------------------------------------------------------------- aggregation

  /** Sum of the points of the subject's results (`Sum('points')`). */
  function Points(sel: seq<Result>, kind: StandingKind, s: nat): int {
    Sum(sel, (r: Result) => if SubjectOf(r, kind) == s then r.points else 0)
  }

  /** Number of the subject's results with `final_position == 1`. */
  function Wins(sel: seq<Result>, kind: StandingKind, s: nat): nat {
    Count(sel, (r: Result) => SubjectOf(r, kind) == s && IsWin(r))
  }

  /** The distinct races the subject has results in (`Count('race', distinct=True)`). */
  function RacesOf(sel: seq<Result>, kind: StandingKind, s: nat): set<Race> {
    set r | r in sel && SubjectOf(r, kind) == s :: r.race
  }

  /** The subjects with at least one selected result: the groups of the query. */
  function Credited(sel: seq<Result>, kind: StandingKind): set<nat> {
    set r | r in sel :: SubjectOf(r, kind)
  }

  /** Each credited subject once, in order of first appearance. */
  function Subjects(sel: seq<Result>, kind: StandingKind): (ss: seq<nat>)
    ensures NoDuplicates(ss)
    ensures forall x :: x in ss <==> x in Credited(sel, kind)
    ensures |ss| == |Credited(sel, kind)|
  {
    if sel == [] then []
    else
      var init, last := sel[..|sel| - 1], sel[|sel| - 1];
      var prev := Subjects(init, kind);
      var s := SubjectOf(last, kind);
      assert sel == init + [last];
      assert Credited(sel, kind) == Credited(init, kind) + {s};
      if s in prev then prev else prev + [s]
  }

  /** One group of the aggregation, before ranking. */
  datatype Tally = Tally(subject: nat, points: int, wins: nat, races: nat)

  function TallyOf(sel: seq<Result>, kind: StandingKind, s: nat): Tally {
    Tally(s, Points(sel, kind, s), Wins(sel, kind, s), |RacesOf(sel, kind, s)|)
  }

  function Tallies(sel: seq<Result>, kind: StandingKind): seq<Tally> {
    var ss := Subjects(sel, kind);
    seq(|ss|, i requires 0 <= i < |ss| => TallyOf(sel, kind, ss[i]))
  }

  /** `order_by('-total_points', '-total_wins')` as a comparison. */
  predicate ScoreGe(a: Tally, b: Tally) {
    RanksAbove(a.points, a.wins, b.points, b.wins)
  }

  lemma ScoreGeIsTotalPreorder()
    ensures TotalPreorder(ScoreGe)
  {
  }

  /** `enumerate(standings, start=1)`. */
  function Number(ts: seq<Tally>): seq<Standing> {
    seq(|ts|, i requires 0 <= i < |ts| =>
      Standing(i + 1, ts[i].subject, ts[i].points, ts[i].wins, ts[i].races))
  }

  /**
   * `r` is a championship table of the selected results: positions 1..n in
   * list order, ordered by (points, wins) descending, one line per credited
   * subject and nobody else, each line carrying that subject's totals.
   */
  ghost predicate IsStandingsOf(r: seq<Standing>, sel: seq<Result>, kind: StandingKind) {
    && (forall i :: 0 <= i < |r| ==> r[i].position == i + 1)
    && (forall i, j :: 0 <= i < j < |r| ==>
          RanksAbove(r[i].points, r[i].wins, r[j].points, r[j].wins))
    && (forall i, j :: 0 <= i < j < |r| ==> r[i].subject != r[j].subject)
    && (forall i :: 0 <= i < |r| ==>
          && r[i].subject in Credited(sel, kind)
          && r[i].points == Points(sel, kind, r[i].subject)
          && r[i].wins == Wins(sel, kind, r[i].subject)
          && r[i].races == |RacesOf(sel, kind, r[i].subject)|)
    && (forall s :: s in Credited(sel, kind) ==> exists i :: 0 <= i < |r| && r[i].subject == s)
  }

  lemma TalliesHaveDistinctSubjects(sel: seq<Result>, kind: StandingKind)
    ensures NoDuplicates(Tallies(sel, kind))
    ensures forall i, j :: 0 <= i < j < |Tallies(sel, kind)| ==>
      Tallies(sel, kind)[i].subject != Tallies(sel, kind)[j].subject
  {
    var ss := Subjects(sel, kind);
    var ts := Tallies(sel, kind);
    forall i, j | 0 <= i < j < |ts| ensures ts[i].subject != ts[j].subject {
      assert ts[i].subject == ss[i] && ts[j].subject == ss[j];
    }
  }

  /** Every line of a permutation of the tallies is the tally of a credited subject. */
  lemma RankedLinesAreTallies(sel: seq<Result>, kind: StandingKind, ranked: seq<Tally>)
    requires multiset(ranked) == multiset(Tallies(sel, kind))
    ensures forall i :: 0 <= i < |ranked| ==>
      ranked[i].subject in Credited(sel, kind) && ranked[i] == TallyOf(sel, kind, ranked[i].subject)
  {
    var ts := Tallies(sel, kind);
    forall i | 0 <= i < |ranked|
      ensures ranked[i].subject in Credited(sel, kind) && ranked[i] == TallyOf(sel, kind, ranked[i].subject)
    {
      assert ranked[i] in multiset(ts);
      var k :| 0 <= k < |ts| && ts[k] == ranked[i];
      assert Subjects(sel, kind)[k] in Subjects(sel, kind);
    }
  }

  lemma RankedSubjectsDistinct(sel: seq<Result>, kind: StandingKind, ranked: seq<Tally>)
    requires multiset(ranked) == multiset(Tallies(sel, kind))
    ensures forall i, j :: 0 <= i < j < |ranked| ==> ranked[i].subject != ranked[j].subject
  {
    TalliesHaveDistinctSubjects(sel, kind);
    PermutationKeepsNoDuplicates(Tallies(sel, kind), ranked);
    RankedLinesAreTallies(sel, kind, ranked);
  }

  lemma RankedCoversCredited(sel: seq<Result>, kind: StandingKind, ranked: seq<Tally>)
    requires multiset(ranked) == multiset(Tallies(sel, kind))
    ensures forall s :: s in Credited(sel, kind) ==> exists i :: 0 <= i < |ranked| && ranked[i].subject == s
  {
    var ss := Subjects(sel, kind);
    var ts := Tallies(sel, kind);
    forall s | s in Credited(sel, kind) ensures exists i :: 0 <= i < |ranked| && ranked[i].subject == s {
      var k :| 0 <= k < |ss| && ss[k] == s;
      assert ts[k] in multiset(ranked);
      var i :| 0 <= i < |ranked| && ranked[i] == ts[k];
    }
  }

  lemma NumberedRankingIsStandings(sel: seq<Result>, kind: StandingKind, ranked: seq<Tally>)
    requires multiset(ranked) == multiset(Tallies(sel, kind))
    requires SortedBy(ranked, ScoreGe)
    ensures IsStandingsOf(Number(ranked), sel, kind)
  {
    var r := Number(ranked);
    RankedLinesAreTallies(sel, kind, ranked);
    RankedSubjectsDistinct(sel, kind, ranked);
    RankedCoversCredited(sel, kind, ranked);
    forall s | s in Credited(sel, kind) ensures exists i :: 0 <= i < |r| && r[i].subject == s {
      var i :| 0 <= i < |ranked| && ranked[i].subject == s;
      assert r[i].subject == s;
    }
  }

  /**
   * `calculate_driver_standings` / `calculate_constructor_standings`: the
   * table of the season's results up to the ceiling, if it is truthy.
   */
  function CalculateStandings(results: seq<Result>, season: int, kind: StandingKind, upTo: Option<int>): seq<Standing> {
    ScoreGeIsTotalPreorder();
    var sel := Select(results, season, upTo);
    Number(SortBy(Tallies(sel, kind), ScoreGe))
  }

  /**
   * The computed table is the championship table of the selected results,
   * with one line per credited subject, and it is empty exactly when no
   * result is selected.
   */
  lemma StandingsAreTable(results: seq<Result>, season: int, kind: StandingKind, upTo: Option<int>)
    ensures var sel := Select(results, season, upTo);
      var r := CalculateStandings(results, season, kind, upTo);
      && IsStandingsOf(r, sel, kind)
      && |r| == |Credited(sel, kind)|
      && (r == [] <==> sel == [])
  {
    var sel := Select(results, season, upTo);
    ScoreGeIsTotalPreorder();
    NumberedRankingIsStandings(sel, kind, SortBy(Tallies(sel, kind), ScoreGe));
    assert sel != [] ==> SubjectOf(sel[0], kind) in Credited(sel, kind);
  }

  /** Lines of a computed table are for distinct subjects. */
  lemma StandingsHaveDistinctSubjects(results: seq<Result>, season: int, kind: StandingKind, upTo: Option<int>)
    ensures var r := CalculateStandings(results, season, kind, upTo);
      forall i, j :: 0 <= i < j < |r| ==> r[i].subject != r[j].subject
  {
    StandingsAreTable(results, season, kind, upTo);
  }

  // ------------------------------------------------------ properties of the table

  /** `None` and `0` both select the whole season. */
  lemma FalsyCeilingsAgree(results: seq<Result>, season: int)
    ensures Select(results, season, Some(0)) == Select(results, season, None)
  {
    KeepSame(results, (r: Result) => InScope(r, season, Some(0)), (r: Result) => InScope(r, season, None));
  }

  lemma SelectPermutation(a: seq<Result>, b: seq<Result>, season: int, upTo: Option<int>)
    requires multiset(a) == multiset(b)
    ensures multiset(Select(a, season, upTo)) == multiset(Select(b, season, upTo))
  {
    var p := (r: Result) => InScope(r, season, upTo);
    forall x ensures multiset(Select(a, season, upTo))[x] == multiset(Select(b, season, upTo))[x] {
      KeepCounts(a, p, x);
      KeepCounts(b, p, x);
    }
  }

  /**
   * The totals do not depend on the order of the result rows: only the order
   * of subjects tied on both points and wins does.
   */
  lemma TotalsIgnoreRowOrder(a: seq<Result>, b: seq<Result>, season: int, kind: StandingKind, upTo: Option<int>, s: nat)
    requires multiset(a) == multiset(b)
    ensures Credited(Select(a, season, upTo), kind) == Credited(Select(b, season, upTo), kind)
    ensures TallyOf(Select(a, season, upTo), kind, s) == TallyOf(Select(b, season, upTo), kind, s)
  {
    var sa, sb := Select(a, season, upTo), Select(b, season, upTo);
    SelectPermutation(a, b, season, upTo);
    assert forall r :: r in sa <==> r in sb by {
      forall r ensures r in sa <==> r in sb {
        assert r in sa <==> r in multiset(sa);
        assert r in sb <==> r in multiset(sb);
      }
    }
    SumPermutation(sa, sb, (r: Result) => if SubjectOf(r, kind) == s then r.points else 0);
    CountPermutation(sa, sb, (r: Result) => SubjectOf(r, kind) == s && IsWin(r));
    assert RacesOf(sa, kind, s) == RacesOf(sb, kind, s);
  }

  /** A higher ceiling never lowers a subject's win count. */
  lemma WinsGrowWithCeiling(results: seq<Result>, season: int, kind: StandingKind, low: int, high: int, s: nat)
    requires low != 0 && low <= high
    ensures Wins(Select(results, season, Some(low)), kind, s) <= Wins(Select(results, season, Some(high)), kind, s)
  {
    KeepWider(results, (r: Result) => InScope(r, season, Some(low)), (r: Result) => InScope(r, season, Some(high)),
      (r: Result) => SubjectOf(r, kind) == s && IsWin(r));
  }

  /** With non-negative points, a higher ceiling never lowers a subject's points. */
  lemma PointsGrowWithCeiling(results: seq<Result>, season: int, kind: StandingKind, low: int, high: int, s: nat)
    requires low != 0 && low <= high
    requires forall r :: r in results ==> r.points >= 0
    ensures Points(Select(results, season, Some(low)), kind, s) <= Points(Select(results, season, Some(high)), kind, s)
  {
    SumWider(results, (r: Result) => InScope(r, season, Some(low)), (r: Result) => InScope(r, season, Some(high)),
      (r: Result) => if SubjectOf(r, kind) == s then r.points else 0);
  }

  // ------------------------------------------------------------------ saving

  /** `up_to_round or 0`: the round a save stores under, 0 being the season total. */
  function RoundKey(upTo: Option<int>): (round: int)
    ensures round == 0 <==> !Truthy(upTo)
    ensures Truthy(upTo) ==> round == upTo.value
  {
    if Truthy(upTo) then upTo.value else 0
  }

  /** The ceiling whose ranking is stored under `round`. */
  function CeilingOf(round: int): Option<int> {
    if round == 0 then None else Some(round)
  }

  /** A ceiling and the ceiling of its round key compute the same table. */
  lemma CeilingOfRoundKey(results: seq<Result>, season: int, kind: StandingKind, upTo: Option<int>)
    ensures CalculateStandings(results, season, kind, CeilingOf(RoundKey(upTo)))
         == CalculateStandings(results, season, kind, upTo)
  {
    if upTo == Some(0) {
      FalsyCeilingsAgree(results, season);
    }
  }

  function KeyOf(season: int, kind: StandingKind, round: int, st: Standing): StandingKey {
    StandingKey(season, kind, round, st.subject)
  }

  /** The `defaults` of the upsert: the only fields a save rewrites. */
  function RowOf(st: Standing): StandingRow {
    StandingRow(st.position, st.points, st.wins)
  }

  /** The cached standings table; each lookup key holds at most one row. */
  class StandingTable {
    var rows: map<StandingKey, StandingRow>

    constructor ()
      ensures rows == map[]
    {
      rows := map[];
    }

    /** `update_or_create`: reports whether the key was new. */
    method UpdateOrCreate(key: StandingKey, row: StandingRow) returns (created: bool)
      modifies this
      ensures created <==> key !in old(rows)
      ensures rows == old(rows)[key := row]
    {
      created := key !in rows;
      rows := rows[key := row];
    }
  }

  datatype SaveOutcome = SaveOutcome(rows: map<StandingKey, StandingRow>, created: nat, updated: nat)

  /** The effect of upserting the lines `sts` one after the other, with the two counters. */
  function UpsertAll(rows: map<StandingKey, StandingRow>, season: int, kind: StandingKind, round: int, sts: seq<Standing>)
    : (o: SaveOutcome)
    ensures o.created + o.updated == |sts|
  {
    if sts == [] then SaveOutcome(rows, 0, 0)
    else
      var prev := UpsertAll(rows, season, kind, round, sts[..|sts| - 1]);
      var st := sts[|sts| - 1];
      var key := KeyOf(season, kind, round, st);
      if key in prev.rows then SaveOutcome(prev.rows[key := RowOf(st)], prev.created, prev.updated + 1)
      else SaveOutcome(prev.rows[key := RowOf(st)], prev.created + 1, prev.updated)
  }

  /** The rows the lines `sts` stand for, a later line winning on a repeated key. */
  function Entered(season: int, kind: StandingKind, round: int, sts: seq<Standing>): map<StandingKey, StandingRow> {
    if sts == [] then map[]
    else
      var st := sts[|sts| - 1];
      Entered(season, kind, round, sts[..|sts| - 1])[KeyOf(season, kind, round, st) := RowOf(st)]
  }

  lemma MergeThenUpdate(a: map<StandingKey, StandingRow>, b: map<StandingKey, StandingRow>, k: StandingKey, v: StandingRow)
    ensures (a + b)[k := v] == a + b[k := v]
  {
  }

  /** Upserting overrides exactly the entered keys and keeps every other row. */
  lemma {:induction false} UpsertAllRows(rows: map<StandingKey, StandingRow>, season: int, kind: StandingKind, round: int, sts: seq<Standing>)
    ensures UpsertAll(rows, season, kind, round, sts).rows == rows + Entered(season, kind, round, sts)
  {
    if sts != [] {
      var st := sts[|sts| - 1];
      UpsertAllRows(rows, season, kind, round, sts[..|sts| - 1]);
      MergeThenUpdate(rows, Entered(season, kind, round, sts[..|sts| - 1]), KeyOf(season, kind, round, st), RowOf(st));
    }
  }

  lemma {:induction false} EnteredKeys(season: int, kind: StandingKind, round: int, sts: seq<Standing>)
    ensures forall k :: k in Entered(season, kind, round, sts) <==>
      exists i :: 0 <= i < |sts| && k == KeyOf(season, kind, round, sts[i])
  {
    if sts != [] {
      var init := sts[..|sts| - 1];
      EnteredKeys(season, kind, round, init);
      forall k ensures k in Entered(season, kind, round, sts) <==>
        exists i :: 0 <= i < |sts| && k == KeyOf(season, kind, round, sts[i])
      {
        if k in Entered(season, kind, round, init) {
          var i :| 0 <= i < |init| && k == KeyOf(season, kind, round, init[i]);
          assert sts[i] == init[i];
        }
        if i :| 0 <= i < |sts| && k == KeyOf(season, kind, round, sts[i]) {
          if i < |init| {
            assert sts[i] == init[i];
          }
        }
      }
    }
  }

  /** With distinct subjects, every line is stored under its own key. */
  lemma {:induction false} EnteredValues(season: int, kind: StandingKind, round: int, sts: seq<Standing>)
    requires forall i, j :: 0 <= i < j < |sts| ==> sts[i].subject != sts[j].subject
    ensures forall i :: 0 <= i < |sts| ==>
      KeyOf(season, kind, round, sts[i]) in Entered(season, kind, round, sts)
      && Entered(season, kind, round, sts)[KeyOf(season, kind, round, sts[i])] == RowOf(sts[i])
  {
    if sts != [] {
      var init := sts[..|sts| - 1];
      EnteredValues(season, kind, round, init);
      forall i | 0 <= i < |sts|
        ensures KeyOf(season, kind, round, sts[i]) in Entered(season, kind, round, sts)
             && Entered(season, kind, round, sts)[KeyOf(season, kind, round, sts[i])] == RowOf(sts[i])
      {
        if i < |init| {
          assert sts[i] == init[i];
        }
      }
    }
  }

  lemma LastKeyIsFresh(season: int, kind: StandingKind, round: int, sts: seq<Standing>)
    requires sts != []
    requires forall i, j :: 0 <= i < j < |sts| ==> sts[i].subject != sts[j].subject
    ensures KeyOf(season, kind, round, sts[|sts| - 1]) !in Entered(season, kind, round, sts[..|sts| - 1])
  {
    EnteredKeys(season, kind, round, sts[..|sts| - 1]);
  }

  /** The lines whose key is not stored in `rows`. */
  function NewLines(rows: map<StandingKey, StandingRow>, season: int, kind: StandingKind, round: int, sts: seq<Standing>): seq<Standing> {
    Keep(sts, (st: Standing) => KeyOf(season, kind, round, st) !in rows)
  }

  /** `created` counts exactly the lines whose key was not stored yet. */
  lemma {:induction false} UpsertAllCreated(rows: map<StandingKey, StandingRow>, season: int, kind: StandingKind, round: int, sts: seq<Standing>)
    requires forall i, j :: 0 <= i < j < |sts| ==> sts[i].subject != sts[j].subject
    ensures UpsertAll(rows, season, kind, round, sts).created == |NewLines(rows, season, kind, round, sts)|
  {
    if sts != [] {
      var init := sts[..|sts| - 1];
      UpsertAllCreated(rows, season, kind, round, init);
      UpsertAllRows(rows, season, kind, round, init);
      LastKeyIsFresh(season, kind, round, sts);
    }
  }

  /** A save whose every key is already stored creates nothing. */
  lemma {:induction false} UpsertAllNothingNew(rows: map<StandingKey, StandingRow>, season: int, kind: StandingKind, round: int, sts: seq<Standing>)
    requires forall i :: 0 <= i < |sts| ==> KeyOf(season, kind, round, sts[i]) in rows
    ensures UpsertAll(rows, season, kind, round, sts).created == 0
    ensures UpsertAll(rows, season, kind, round, sts).updated == |sts|
  {
    if sts != [] {
      var init := sts[..|sts| - 1];
      UpsertAllNothingNew(rows, season, kind, round, init);
      UpsertAllRows(rows, season, kind, round, init);
    }
  }

  /** The loop of a save: upserts each line under (season, kind, round, subject), counting. */
  method UpsertLines(table: StandingTable, season: int, kind: StandingKind, round: int, standings: seq<Standing>)
    returns (created: nat, updated: nat)
    modifies table
    ensures var o := UpsertAll(old(table.rows), season, kind, round, standings);
      table.rows == o.rows && created == o.created && updated == o.updated
  {
    ghost var start := table.rows;
    created, updated := 0, 0;
    for i := 0 to |standings|
      invariant var o := UpsertAll(start, season, kind, round, standings[..i]);
        table.rows == o.rows && created == o.created && updated == o.updated
    {
      var st := standings[i];
      assert standings[..i + 1][..i] == standings[..i];
      var isCreated := table.UpdateOrCreate(StandingKey(season, kind, round, st.subject), StandingRow(st.position, st.points, st.wins));
      if isCreated {
        created := created + 1;
      } else {
        updated := updated + 1;
      }
    }
    assert standings[..|standings|] == standings;
  }

  /**
   * `save_driver_standings` / `save_constructor_standings`: upserts the
   * computed table under (season, kind, `up_to_round or 0`, subject) and
   * counts the rows created and updated.
   */
  method SaveStandings(table: StandingTable, results: seq<Result>, season: int, kind: StandingKind, upTo: Option<int>)
    returns (created: nat, updated: nat)
    modifies table
    ensures var o := UpsertAll(old(table.rows), season, kind, RoundKey(upTo), CalculateStandings(results, season, kind, upTo));
      table.rows == o.rows && created == o.created && updated == o.updated
    ensures table.rows == old(table.rows) + Entered(season, kind, RoundKey(upTo), CalculateStandings(results, season, kind, upTo))
    ensures created + updated == |CalculateStandings(results, season, kind, upTo)|
  {
    var roundNum := RoundKey(upTo);
    var standings := CalculateStandings(results, season, kind, upTo);
    UpsertAllRows(table.rows, season, kind, roundNum, standings);
    created, updated := UpsertLines(table, season, kind, roundNum, standings);
  }

  /** A save leaves alone every key of another kind, another round or another season. */
  lemma SaveKeepsOtherKeys(rows: map<StandingKey, StandingRow>, season: int, kind: StandingKind, round: int, sts: seq<Standing>, k: StandingKey)
    requires k.season != season || k.kind != kind || k.round != round
    ensures var after := UpsertAll(rows, season, kind, round, sts).rows;
      (k in after <==> k in rows) && (k in rows ==> after[k] == rows[k])
  {
    UpsertAllRows(rows, season, kind, round, sts);
    EnteredKeys(season, kind, round, sts);
  }

  /** With distinct subjects, every line ends up stored under its key. */
  lemma UpsertStoresLines(rows: map<StandingKey, StandingRow>, season: int, kind: StandingKind, round: int, sts: seq<Standing>)
    requires forall i, j :: 0 <= i < j < |sts| ==> sts[i].subject != sts[j].subject
    ensures var after := UpsertAll(rows, season, kind, round, sts).rows;
      forall i :: 0 <= i < |sts| ==>
        KeyOf(season, kind, round, sts[i]) in after && after[KeyOf(season, kind, round, sts[i])] == RowOf(sts[i])
  {
    UpsertAllRows(rows, season, kind, round, sts);
    EnteredValues(season, kind, round, sts);
  }

  /**
   * A save stores every line of the computed table under its key, counts as
   * created exactly the lines that were not stored before, and leaves every
   * other row as it was.
   */
  lemma SaveStoresTable(rows: map<StandingKey, StandingRow>, results: seq<Result>, season: int, kind: StandingKind, upTo: Option<int>)
    ensures var sts := CalculateStandings(results, season, kind, upTo);
      var o := UpsertAll(rows, season, kind, RoundKey(upTo), sts);
      && (forall i :: 0 <= i < |sts| ==>
            KeyOf(season, kind, RoundKey(upTo), sts[i]) in o.rows
            && o.rows[KeyOf(season, kind, RoundKey(upTo), sts[i])] == RowOf(sts[i]))
      && (forall k :: k in rows && (k.season != season || k.kind != kind || k.round != RoundKey(upTo)) ==>
            k in o.rows && o.rows[k] == rows[k])
      && o.created == |NewLines(rows, season, kind, RoundKey(upTo), sts)|
  {
    var sts := CalculateStandings(results, season, kind, upTo);
    var round := RoundKey(upTo);
    StandingsHaveDistinctSubjects(results, season, kind, upTo);
    UpsertStoresLines(rows, season, kind, round, sts);
    forall k | k in rows && (k.season != season || k.kind != kind || k.round != round)
      ensures var after := UpsertAll(rows, season, kind, round, sts).rows; k in after && after[k] == rows[k]
    {
      SaveKeepsOtherKeys(rows, season, kind, round, sts, k);
    }
    UpsertAllCreated(rows, season, kind, round, sts);
  }

  /** Saving again over unchanged results creates nothing and stores the same rows. */
  lemma SaveIsIdempotent(rows: map<StandingKey, StandingRow>, results: seq<Result>, season: int, kind: StandingKind, upTo: Option<int>)
    ensures var sts := CalculateStandings(results, season, kind, upTo);
      var first := UpsertAll(rows, season, kind, RoundKey(upTo), sts);
      var second := UpsertAll(first.rows, season, kind, RoundKey(upTo), sts);
      second.rows == first.rows && second.created == 0 && second.updated == |sts|
  {
    var sts := CalculateStandings(results, season, kind, upTo);
    var round := RoundKey(upTo);
    var first := UpsertAll(rows, season, kind, round, sts);
    UpsertAllRows(rows, season, kind, round, sts);
    UpsertAllRows(first.rows, season, kind, round, sts);
    EnteredKeys(season, kind, round, sts);
    var e := Entered(season, kind, round, sts);
    assert rows + e + e == rows + e;
    forall i | 0 <= i < |sts| ensures KeyOf(season, kind, round, sts[i]) in first.rows {
    }
    UpsertAllNothingNew(first.rows, season, kind, round, sts);
  }

  // ------------------------------------------------------------ recalculation

  datatype Stats = Stats(driverCreated: nat, driverUpdated: nat, constructorCreated: nat, constructorUpdated: nat)

  datatype RecalcState = RecalcState(rows: map<StandingKey, StandingRow>, stats: Stats)

  /** `Race.objects.filter(season=season).order_by('round')`. */
  function SeasonRaces(races: seq<Race>, season: int): (rs: seq<Race>)
    ensures forall r :: r in rs <==> r in races && r.season == season
    ensures forall i, j :: 0 <= i < j < |rs| ==> rs[i].round <= rs[j].round
    ensures multiset(rs) == multiset(Keep(races, (r: Race) => r.season == season))
    ensures |rs| == Count(races, (r: Race) => r.season == season)
  {
    var mine := Keep(races, (r: Race) => r.season == season);
    assert TotalPreorder((a: Race, b: Race) => a.round <= b.round);
    var rs := SortBy(mine, (a: Race, b: Race) => a.round <= b.round);
    forall r ensures r in rs <==> r in mine {
      assert r in rs <==> r in multiset(rs);
      assert r in mine <==> r in multiset(mine);
    }
    rs
  }

  /** The driver save and then the constructor save for one ceiling, with the counts added up. */
  function SaveBoth(st: RecalcState, results: seq<Result>, season: int, upTo: Option<int>): RecalcState {
    var d := UpsertAll(st.rows, season, DriverKind, RoundKey(upTo), CalculateStandings(results, season, DriverKind, upTo));
    var c := UpsertAll(d.rows, season, ConstructorKind, RoundKey(upTo), CalculateStandings(results, season, ConstructorKind, upTo));
    RecalcState(c.rows, Stats(
      st.stats.driverCreated + d.created, st.stats.driverUpdated + d.updated,
      st.stats.constructorCreated + c.created, st.stats.constructorUpdated + c.updated))
  }

  /** `SaveBoth` after each race of `rs`, in order, with that race's round as the ceiling. */
  function SaveRounds(st: RecalcState, results: seq<Result>, season: int, rs: seq<Race>): RecalcState {
    if rs == [] then st
    else SaveBoth(SaveRounds(st, results, season, rs[..|rs| - 1]), results, season, Some(rs[|rs| - 1].round))
  }

  /** The whole effect of `recalculate_all_standings`: every round in order, then the season total. */
  function Recalculate(rows: map<StandingKey, StandingRow>, races: seq<Race>, results: seq<Result>, season: int): RecalcState {
    var afterRounds := SaveRounds(RecalcState(rows, Stats(0, 0, 0, 0)), results, season, SeasonRaces(races, season));
    SaveBoth(afterRounds, results, season, None)
  }

  /** One iteration of the recalculation loop: the driver save, then the constructor save. */
  method SaveBothStandings(table: StandingTable, results: seq<Result>, season: int, upTo: Option<int>, stats: Stats)
    returns (stats': Stats)
    modifies table
    ensures RecalcState(table.rows, stats') == SaveBoth(RecalcState(old(table.rows), stats), results, season, upTo)
  {
    var dc, du := SaveStandings(table, results, season, DriverKind, upTo);
    var cc, cu := SaveStandings(table, results, season, ConstructorKind, upTo);
    stats' := Stats(stats.driverCreated + dc, stats.driverUpdated + du,
                    stats.constructorCreated + cc, stats.constructorUpdated + cu);
  }

  /** One round of the recalculation loop, as a step of `SaveRounds`. */
  method SaveRoundStep(table: StandingTable, results: seq<Result>, season: int, rs: seq<Race>, i: nat,
                       stats: Stats, ghost start: RecalcState)
    returns (stats': Stats)
    requires i < |rs|
    requires RecalcState(table.rows, stats) == SaveRounds(start, results, season, rs[..i])
    modifies table
    ensures RecalcState(table.rows, stats') == SaveRounds(start, results, season, rs[..i + 1])
  {
    assert rs[..i + 1][..i] == rs[..i];
    stats' := SaveBothStandings(table, results, season, Some(rs[i].round), stats);
  }

  /** `recalculate_all_standings`. */
  method RecalculateAllStandings(table: StandingTable, races: seq<Race>, results: seq<Result>, season: int)
    returns (stats: Stats)
    modifies table
    ensures RecalcState(table.rows, stats) == Recalculate(old(table.rows), races, results, season)
  {
    var seasonRaces := SeasonRaces(races, season);
    ghost var start := RecalcState(table.rows, Stats(0, 0, 0, 0));
    stats := Stats(0, 0, 0, 0);
    for i := 0 to |seasonRaces|
      invariant RecalcState(table.rows, stats) == SaveRounds(start, results, season, seasonRaces[..i])
    {
      stats := SaveRoundStep(table, results, season, seasonRaces, i, stats, start);
    }
    assert seasonRaces[..|seasonRaces|] == seasonRaces;
    stats := SaveBothStandings(table, results, season, None, stats);
  }


  /** Size of the table computed after each race of `rs`. */
  function RoundSizes(results: seq<Result>, season: int, kind: StandingKind, rs: seq<Race>): nat {
    if rs == [] then 0
    else
      var last := CalculateStandings(results, season, kind, Some(rs[|rs| - 1].round));
      RoundSizes(results, season, kind, rs[..|rs| - 1]) + |last|
  }

  lemma {:induction false} SaveRoundsCounts(st: RecalcState, results: seq<Result>, season: int, rs: seq<Race>)
    ensures var o := SaveRounds(st, results, season, rs);
      && o.stats.driverCreated + o.stats.driverUpdated
         == st.stats.driverCreated + st.stats.driverUpdated + RoundSizes(results, season, DriverKind, rs)
      && o.stats.constructorCreated + o.stats.constructorUpdated
         == st.stats.constructorCreated + st.stats.constructorUpdated + RoundSizes(results, season, ConstructorKind, rs)
  {
    if rs != [] {
      SaveRoundsCounts(st, results, season, rs[..|rs| - 1]);
    }
  }

  /**
   * Each pair of statistics adds up to the sizes of all the tables saved:
   * one per race of the season and one for the season total.
   */
  lemma RecalculateCounts(rows: map<StandingKey, StandingRow>, races: seq<Race>, results: seq<Result>, season: int)
    ensures var o := Recalculate(rows, races, results, season);
      var rs := SeasonRaces(races, season);
      && o.stats.driverCreated + o.stats.driverUpdated
         == RoundSizes(results, season, DriverKind, rs) + |CalculateStandings(results, season, DriverKind, None)|
      && o.stats.constructorCreated + o.stats.constructorUpdated
         == RoundSizes(results, season, ConstructorKind, rs) + |CalculateStandings(results, season, ConstructorKind, None)|
  {
    SaveRoundsCounts(RecalcState(rows, Stats(0, 0, 0, 0)), results, season, SeasonRaces(races, season));
  }

  /** Every line of the table computed for `upTo` is stored under its key. */
  ghost predicate Stored(rows: map<StandingKey, StandingRow>, results: seq<Result>, season: int, kind: StandingKind, upTo: Option<int>) {
    forall st :: st in CalculateStandings(results, season, kind, upTo) ==>
      KeyOf(season, kind, RoundKey(upTo), st) in rows && rows[KeyOf(season, kind, RoundKey(upTo), st)] == RowOf(st)
  }

  /** Rows of other seasons are neither added, removed nor changed. */
  ghost predicate OtherSeasonsKept(before: map<StandingKey, StandingRow>, after: map<StandingKey, StandingRow>, season: int) {
    forall k: StandingKey :: k.season != season ==> (k in after <==> k in before) && (k in before ==> after[k] == before[k])
  }

  lemma SaveEstablishesStored(rows: map<StandingKey, StandingRow>, results: seq<Result>, season: int, kind: StandingKind, upTo: Option<int>)
    ensures Stored(UpsertAll(rows, season, kind, RoundKey(upTo), CalculateStandings(results, season, kind, upTo)).rows,
                   results, season, kind, upTo)
  {
    var sts := CalculateStandings(results, season, kind, upTo);
    SaveStoresTable(rows, results, season, kind, upTo);
    forall st | st in sts ensures exists i :: 0 <= i < |sts| && sts[i] == st {
      var i :| 0 <= i < |sts| && sts[i] == st;
    }
  }

  /**
   * Stored lines survive a later save of the same season: one for another
   * kind or round does not touch them, and one for the same kind and round
   * stores the same table again.
   */
  lemma StoredSurvivesSave(rows: map<StandingKey, StandingRow>, results: seq<Result>, season: int,
                           kind: StandingKind, upTo: Option<int>, kind2: StandingKind, upTo2: Option<int>)
    requires Stored(rows, results, season, kind, upTo)
    ensures Stored(UpsertAll(rows, season, kind2, RoundKey(upTo2), CalculateStandings(results, season, kind2, upTo2)).rows,
                   results, season, kind, upTo)
  {
    if kind == kind2 && RoundKey(upTo) == RoundKey(upTo2) {
      CeilingOfRoundKey(results, season, kind, upTo);
      CeilingOfRoundKey(results, season, kind, upTo2);
      SaveEstablishesStored(rows, results, season, kind, upTo2);
    } else {
      forall st | st in CalculateStandings(results, season, kind, upTo)
        ensures var after := UpsertAll(rows, season, kind2, RoundKey(upTo2), CalculateStandings(results, season, kind2, upTo2)).rows;
          KeyOf(season, kind, RoundKey(upTo), st) in after && after[KeyOf(season, kind, RoundKey(upTo), st)] == RowOf(st)
      {
        SaveKeepsOtherKeys(rows, season, kind2, RoundKey(upTo2), CalculateStandings(results, season, kind2, upTo2), KeyOf(season, kind, RoundKey(upTo), st));
      }
    }
  }

  lemma SaveBothKeepsOtherSeasons(st: RecalcState, results: seq<Result>, season: int, upTo: Option<int>)
    ensures OtherSeasonsKept(st.rows, SaveBoth(st, results, season, upTo).rows, season)
  {
    var d := UpsertAll(st.rows, season, DriverKind, RoundKey(upTo), CalculateStandings(results, season, DriverKind, upTo));
    forall k: StandingKey | k.season != season
      ensures var after := SaveBoth(st, results, season, upTo).rows;
        (k in after <==> k in st.rows) && (k in st.rows ==> after[k] == st.rows[k])
    {
      SaveKeepsOtherKeys(st.rows, season, DriverKind, RoundKey(upTo), CalculateStandings(results, season, DriverKind, upTo), k);
      SaveKeepsOtherKeys(d.rows, season, ConstructorKind, RoundKey(upTo), CalculateStandings(results, season, ConstructorKind, upTo), k);
    }
  }

  lemma SaveBothKeepsStored(st: RecalcState, results: seq<Result>, season: int, upTo: Option<int>, kind: StandingKind, upTo2: Option<int>)
    requires Stored(st.rows, results, season, kind, upTo2)
    ensures Stored(SaveBoth(st, results, season, upTo).rows, results, season, kind, upTo2)
  {
    var d := UpsertAll(st.rows, season, DriverKind, RoundKey(upTo), CalculateStandings(results, season, DriverKind, upTo));
    StoredSurvivesSave(st.rows, results, season, kind, upTo2, DriverKind, upTo);
    StoredSurvivesSave(d.rows, results, season, kind, upTo2, ConstructorKind, upTo);
  }

  lemma SaveBothStores(st: RecalcState, results: seq<Result>, season: int, upTo: Option<int>, kind: StandingKind)
    ensures Stored(SaveBoth(st, results, season, upTo).rows, results, season, kind, upTo)
  {
    var d := UpsertAll(st.rows, season, DriverKind, RoundKey(upTo), CalculateStandings(results, season, DriverKind, upTo));
    SaveEstablishesStored(st.rows, results, season, DriverKind, upTo);
    StoredSurvivesSave(d.rows, results, season, DriverKind, upTo, ConstructorKind, upTo);
    SaveEstablishesStored(d.rows, results, season, ConstructorKind, upTo);
  }

  lemma {:induction false} SaveRoundsStoresRound(st: RecalcState, results: seq<Result>, season: int, rs: seq<Race>,
                                                  kind: StandingKind, race: Race)
    requires race in rs
    ensures Stored(SaveRounds(st, results, season, rs).rows, results, season, kind, Some(race.round))
  {
    var init, last := rs[..|rs| - 1], rs[|rs| - 1];
    var mid := SaveRounds(st, results, season, init);
    if race == last {
      SaveBothStores(mid, results, season, Some(last.round), kind);
    } else {
      assert race in init by {
        assert rs == init + [last];
      }
      SaveRoundsStoresRound(st, results, season, init, kind, race);
      SaveBothKeepsStored(mid, results, season, Some(last.round), kind, Some(race.round));
    }
  }

  lemma SaveRoundsStores(st: RecalcState, results: seq<Result>, season: int, rs: seq<Race>)
    ensures forall kind, race :: race in rs ==>
      Stored(SaveRounds(st, results, season, rs).rows, results, season, kind, Some(race.round))
  {
    forall kind, race | race in rs
      ensures Stored(SaveRounds(st, results, season, rs).rows, results, season, kind, Some(race.round))
    {
      SaveRoundsStoresRound(st, results, season, rs, kind, race);
    }
  }


  lemma {:induction false} SaveRoundsKeepsOtherSeasons(st: RecalcState, results: seq<Result>, season: int, rs: seq<Race>)
    ensures OtherSeasonsKept(st.rows, SaveRounds(st, results, season, rs).rows, season)
  {
    if rs != [] {
      var init, last := rs[..|rs| - 1], rs[|rs| - 1];
      SaveRoundsKeepsOtherSeasons(st, results, season, init);
      SaveBothKeepsOtherSeasons(SaveRounds(st, results, season, init), results, season, Some(last.round));
    }
  }


  /**
   * After `recalculate_all_standings`, the table holds, for both kinds, the
   * ranking the engine computes after every race of the season (under that
   * race's round) and for the whole season (under round 0); rows of other
   * seasons are as they were.
   */
  lemma RecalculateStoresEveryRound(rows: map<StandingKey, StandingRow>, races: seq<Race>, results: seq<Result>, season: int)
    ensures var after := Recalculate(rows, races, results, season).rows;
      && (forall kind, race :: race in races && race.season == season ==>
            Stored(after, results, season, kind, Some(race.round)))
      && (forall kind :: Stored(after, results, season, kind, None))
      && OtherSeasonsKept(rows, after, season)
  {
    var st := RecalcState(rows, Stats(0, 0, 0, 0));
    var rs := SeasonRaces(races, season);
    var mid := SaveRounds(st, results, season, rs);
    SaveRoundsStores(st, results, season, rs);
    SaveRoundsKeepsOtherSeasons(st, results, season, rs);
    SaveBothKeepsOtherSeasons(mid, results, season, None);
    forall kind, race | race in races && race.season == season
      ensures Stored(Recalculate(rows, races, results, season).rows, results, season, kind, Some(race.round))
    {
      SaveBothKeepsStored(mid, results, season, None, kind, Some(race.round));
    }
    forall kind ensures Stored(Recalculate(rows, races, results, season).rows, results, season, kind, None) {
      SaveBothStores(mid, results, season, None, kind);
    }
  }

  // ----------------------------------------------------------------- history

  datatype HistoryEntry = HistoryEntry(round: int, position: nat, points: int, wins: nat)

  /** The rounds after which the subject has a stored standing of this kind; the total (round 0) is excluded. */
  function HistoryRounds(rows: map<StandingKey, StandingRow>, subject: nat, season: int, kind: StandingKind): set<int> {
    set k | k in rows && k.subject == subject && k.season == season && k.kind == kind && k.round > 0 :: k.round
  }

  lemma HistoryRoundsStored(rows: map<StandingKey, StandingRow>, subject: nat, season: int, kind: StandingKind)
    ensures forall x :: x in HistoryRounds(rows, subject, season, kind) ==>
      x > 0 && StandingKey(season, kind, x, subject) in rows
  {
    forall x | x in HistoryRounds(rows, subject, season, kind)
      ensures x > 0 && StandingKey(season, kind, x, subject) in rows
    {
      var k :| k in rows && k.subject == subject && k.season == season && k.kind == kind && k.round > 0 && k.round == x;
      assert k == StandingKey(season, kind, x, subject);
    }
  }

  /**
   * `get_driver_position_history` / `get_constructor_position_history`: the
   * subject's stored standings of the season and kind, round 0 left out, by
   * ascending round.
   */
  function PositionHistory(rows: map<StandingKey, StandingRow>, subject: nat, season: int, kind: StandingKind)
    : (h: seq<HistoryEntry>)
    ensures forall i, j :: 0 <= i < j < |h| ==> h[i].round < h[j].round
    ensures forall i :: 0 <= i < |h| ==>
      && h[i].round > 0
      && StandingKey(season, kind, h[i].round, subject) in rows
      && var row := rows[StandingKey(season, kind, h[i].round, subject)];
         h[i] == HistoryEntry(h[i].round, row.position, row.points, row.wins)
    ensures forall k :: k in rows && k.subject == subject && k.season == season && k.kind == kind && k.round > 0 ==>
      exists i :: 0 <= i < |h| && h[i].round == k.round
  {
    var rounds := Ascending(HistoryRounds(rows, subject, season, kind));
    HistoryRoundsStored(rows, subject, season, kind);
    var h := seq(|rounds|, i requires 0 <= i < |rounds| =>
      var row := rows[StandingKey(season, kind, rounds[i], subject)];
      HistoryEntry(rounds[i], row.position, row.points, row.wins));
    forall k | k in rows && k.subject == subject && k.season == season && k.kind == kind && k.round > 0
      ensures exists i :: 0 <= i < |h| && h[i].round == k.round
    {
      assert k.round in HistoryRounds(rows, subject, season, kind);
      var i :| 0 <= i < |rounds| && rounds[i] == k.round;
      assert h[i].round == k.round;
    }
    h
  }

  /**
   * Read back from a table that stores the ranking after round `round > 0`,
   * the history shows the subject's position, points and wins of that
   * ranking for that round.
   */
  lemma HistoryShowsStoredRanking(rows: map<StandingKey, StandingRow>, results: seq<Result>, season: int,
                                  kind: StandingKind, round: int, st: Standing)
    requires round > 0
    requires Stored(rows, results, season, kind, Some(round))
    requires st in CalculateStandings(results, season, kind, Some(round))
    ensures var h := PositionHistory(rows, st.subject, season, kind);
      exists i :: 0 <= i < |h| && h[i] == HistoryEntry(round, st.position, st.points, st.wins)
  {
    var h := PositionHistory(rows, st.subject, season, kind);
    var k := KeyOf(season, kind, round, st);
    assert k in rows;
    var i :| 0 <= i < |h| && h[i].round == k.round;
  }
}
