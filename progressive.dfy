/**
 * The `progressive` action of the standings API (backend/api/views.py).
 *
 * It checks and parses the `season` and `round` query parameters, then
 * ranks the results of the season's races up to that round: drivers with the
 * engine's aggregation plus each driver's latest team, constructors with
 * their wins counted as distinct races. Unlike the engine, a round of 0 is a
 * real ceiling (no race has round 0, so the ranking is empty), the latest
 * team is ordered by round before date, and two winning rows of one team in
 * one race count as one win.
 */
module Progressive {
  import opened Wrappers
  import opened Seqs
  import opened Records
  import opened ChampionshipService
  import opened DriverSeasonPopulation

  // -------------------------------------------------------------- int(...)

  predicate IsSpace(c: char) {
    c == ' ' || c == '\t' || c == '\n' || c == '\r' || c == '\U{000B}' || c == '\U{000C}'
  }

  predicate IsDigit(c: char) {
    '0' <= c <= '9'
  }

  function DigitValue(c: char): nat
    requires IsDigit(c)
  {
    c as int - '0' as int
  }

  /** `t` is `s` with some whitespace removed at its two ends and nothing else. */
  ghost predicate TrimOf(t: string, s: string) {
    exists i, j :: 0 <= i <= j <= |s| && t == s[i..j]
      && (forall k :: 0 <= k < i ==> IsSpace(s[k]))
      && (forall k :: j <= k < |s| ==> IsSpace(s[k]))
  }

  lemma TrimOfItself(s: string)
    ensures TrimOf(s, s)
  {
    assert s == s[0..|s|];
  }

  lemma TrimDropsFirst(t: string, s: string)
    requires s != [] && IsSpace(s[0]) && TrimOf(t, s[1..])
    ensures TrimOf(t, s)
  {
    var i, j :| 0 <= i <= j <= |s[1..]| && t == s[1..][i..j]
      && (forall k :: 0 <= k < i ==> IsSpace(s[1..][k]))
      && (forall k :: j <= k < |s[1..]| ==> IsSpace(s[1..][k]));
    assert t == s[i + 1..j + 1];
    forall k | 0 <= k < i + 1 ensures IsSpace(s[k]) {
      if k > 0 {
        assert s[k] == s[1..][k - 1];
      }
    }
    forall k | j + 1 <= k < |s| ensures IsSpace(s[k]) {
      assert s[k] == s[1..][k - 1];
    }
  }

  lemma TrimDropsLast(t: string, s: string)
    requires s != [] && IsSpace(s[|s| - 1]) && TrimOf(t, s[..|s| - 1])
    ensures TrimOf(t, s)
  {
    var s' := s[..|s| - 1];
    var i, j :| 0 <= i <= j <= |s'| && t == s'[i..j]
      && (forall k :: 0 <= k < i ==> IsSpace(s'[k]))
      && (forall k :: j <= k < |s'| ==> IsSpace(s'[k]));
    assert t == s[i..j];
    forall k | 0 <= k < i ensures IsSpace(s[k]) {
      assert s[k] == s'[k];
    }
    forall k | j <= k < |s| ensures IsSpace(s[k]) {
      if k < |s'| {
        assert s[k] == s'[k];
      }
    }
  }

  /** Trimming keeps every character that is not whitespace and adds none. */
  lemma TrimKeepsText(t: string, s: string)
    requires TrimOf(t, s)
    ensures |t| <= |s|
    ensures forall c :: c in t ==> c in s
    ensures forall c :: c in s && !IsSpace(c) ==> c in t
  {
    var i, j :| 0 <= i <= j <= |s| && t == s[i..j]
      && (forall k :: 0 <= k < i ==> IsSpace(s[k]))
      && (forall k :: j <= k < |s| ==> IsSpace(s[k]));
    forall c | c in s && !IsSpace(c) ensures c in t {
      var k :| 0 <= k < |s| && s[k] == c;
      assert t[k - i] == c;
    }
  }

  /** The surrounding whitespace `int()` ignores, removed. */
  function Strip(s: string): (t: string)
    ensures |t| <= |s|
    ensures t != [] ==> !IsSpace(t[0]) && !IsSpace(t[|t| - 1])
    ensures forall c :: c in t ==> c in s
    ensures forall c :: c in s && !IsSpace(c) ==> c in t
    ensures TrimOf(t, s)
  {
    if s == [] then
      TrimOfItself(s);
      s
    else if IsSpace(s[0]) then
      var t := Strip(s[1..]);
      TrimDropsFirst(t, s);
      TrimKeepsText(t, s);
      t
    else if IsSpace(s[|s| - 1]) then
      var t := Strip(s[..|s| - 1]);
      TrimDropsLast(t, s);
      TrimKeepsText(t, s);
      t
    else
      TrimOfItself(s);
      s
  }

  /** Digits with single underscores between them, as `int()` accepts them. */
  predicate WellFormedDigits(b: string) {
    && |b| > 0 && IsDigit(b[0]) && IsDigit(b[|b| - 1])
    && (forall i :: 0 <= i < |b| ==> IsDigit(b[i]) || b[i] == '_')
    && (forall i :: 0 <= i < |b| - 1 ==> IsDigit(b[i]) || IsDigit(b[i + 1]))
  }

  function DigitsValue(b: string): nat
    requires forall i :: 0 <= i < |b| ==> IsDigit(b[i]) || b[i] == '_'
  {
    if b == [] then 0
    else
      var last := b[|b| - 1];
      if last == '_' then DigitsValue(b[..|b| - 1]) else 10 * DigitsValue(b[..|b| - 1]) + DigitValue(last)
  }

  /** Python's `int(s)` on a decimal string: `None` where it raises `ValueError`. */
  function ParseInt(s: string): Option<int> {
    ParseSigned(Strip(s))
  }

  /** An optional sign followed by well-formed digits. */
  function ParseSigned(t: string): Option<int> {
    if t == [] then None
    else
      var body := if t[0] == '-' || t[0] == '+' then t[1..] else t;
      if !WellFormedDigits(body) then None
      else
        var value: int := DigitsValue(body);
        Some(if t[0] == '-' then -value else value)
  }

  function DigitChar(d: nat): (c: char)
    requires d < 10
    ensures IsDigit(c) && DigitValue(c) == d
  {
    ('0' as int + d) as char
  }

  /** The decimal rendering of a number, as a client writes it in the query string. */
  function ShowNat(n: nat): (s: string)
    ensures |s| > 0 && forall i :: 0 <= i < |s| ==> IsDigit(s[i])
  {
    if n < 10 then [DigitChar(n)] else ShowNat(n / 10) + [DigitChar(n % 10)]
  }

  function ShowInt(n: int): string {
    if n < 0 then "-" + ShowNat(-n) else ShowNat(n)
  }

  lemma {:induction false} ShowNatValue(n: nat)
    ensures DigitsValue(ShowNat(n)) == n
  {
    if n >= 10 {
      var s := ShowNat(n);
      assert s[..|s| - 1] == ShowNat(n / 10);
      ShowNatValue(n / 10);
    }
  }

  /** Every integer a client writes in decimal is read back as itself. */
  lemma ParseShowRoundTrip(n: int)
    ensures ParseInt(ShowInt(n)) == Some(n)
  {
    var s := ShowInt(n);
    var digits := if n < 0 then ShowNat(-n) else ShowNat(n);
    assert Strip(s) == s;
    assert (if s[0] == '-' || s[0] == '+' then s[1..] else s) == digits;
    ShowNatValue(if n < 0 then -n else n);
  }

  /** Surrounding whitespace does not change what `int()` reads. */
  lemma {:induction false} StripTrailingSpace(s: string, c: char)
    requires IsSpace(c)
    ensures Strip(s + [c]) == Strip(s)
  {
    if s != [] && IsSpace(s[0]) {
      assert (s + [c])[1..] == s[1..] + [c];
      StripTrailingSpace(s[1..], c);
    } else if s != [] {
      assert (s + [c])[..|s|] == s;
    }
  }

  lemma StripLeadingSpace(c: char, s: string)
    requires IsSpace(c)
    ensures Strip([c] + s) == Strip(s)
  {
    assert ([c] + s)[1..] == s;
  }

  lemma ParseIgnoresPadding(s: string)
    ensures ParseInt([' '] + s + [' ']) == ParseInt(s)
  {
    assert [' '] + s + [' '] == [' '] + (s + [' ']);
    StripLeadingSpace(' ', s + [' ']);
    StripTrailingSpace(s, ' ');
    assert Strip([' '] + s + [' ']) == Strip(s);
  }

  /** A character other than a digit, a sign, an underscore or whitespace makes `int()` raise. */
  lemma ParseRejectsForeignChar(s: string, i: int)
    requires 0 <= i < |s|
    requires !IsDigit(s[i]) && !IsSpace(s[i]) && s[i] != '_' && s[i] != '-' && s[i] != '+'
    ensures ParseInt(s) == None
  {
    var t := Strip(s);
    var c := s[i];
    assert c in t;
    var body := if t[0] == '-' || t[0] == '+' then t[1..] else t;
    assert c in body by {
      if t[0] != c {
        var k :| 0 <= k < |t| && t[k] == c;
        assert k > 0;
        assert t[1..][k - 1] == c;
      }
    }
  }

  // --------------------------------------------------------------- drivers

  /** `Result.objects.filter(race__in=races)` with races of the season up to the round. */
  function RaceScope(results: seq<Result>, season: int, round: int): (scope: seq<Result>)
    ensures forall r :: r in scope <==> r in results && r.race.season == season && r.race.round <= round
  {
    Keep(results, (r: Result) => r.race.season == season && r.race.round <= round)
  }

  /**
   * The driver aggregation: the engine's query shape over the rows in
   * scope (grouped by driver, points summed, P1 rows counted, ordered by
   * points then wins).
   */
  function DriverRanking(results: seq<Result>, season: int, round: int): seq<Standing> {
    CalculateStandings(RaceScope(results, season, round), season, DriverKind, None)
  }

  predicate RoundDateLt(a: Result, b: Result) {
    a.race.round < b.race.round || (a.race.round == b.race.round && a.race.date < b.race.date)
  }

  predicate RoundDateLe(a: Result, b: Result) {
    a.race.round < b.race.round || (a.race.round == b.race.round && a.race.date <= b.race.date)
  }

  /**
   * `.order_by('-race__round', '-race__date').first()` over the driver's
   * results of the season up to the round. Equal keys keep the earlier row.
   */
  function LatestInRange(results: seq<Result>, driver: nat, season: int, round: int): (latest: Option<Result>)
    ensures latest.None? <==>
      forall r :: r in results ==> r.driver != driver || r.race.season != season || r.race.round > round
    ensures latest.Some? ==>
      && latest.value in results && latest.value.driver == driver
      && latest.value.race.season == season && latest.value.race.round <= round
      && forall r :: r in results && r.driver == driver && r.race.season == season && r.race.round <= round ==>
           RoundDateLe(r, latest.value)
  {
    if results == [] then None
    else
      var prev := LatestInRange(results[..|results| - 1], driver, season, round);
      var r := results[|results| - 1];
      assert forall x :: x in results <==> x in results[..|results| - 1] || x == r by {
        assert results == results[..|results| - 1] + [r];
      }
      if r.driver != driver || r.race.season != season || r.race.round > round then prev
      else if prev.None? || RoundDateLt(prev.value, r) then Some(r)
      else prev
  }

  function TeamOf(latest: Option<Result>): Option<nat> {
    if latest.Some? then Some(latest.value.team) else None
  }

  /** One entry of the driver response (the display fields are lookups and left out). */
  datatype DriverLine = DriverLine(position: nat, driver: nat, team: Option<nat>, points: int, wins: nat)

  function DriverLinesOf(results: seq<Result>, season: int, round: int): seq<DriverLine> {
    var ranking := DriverRanking(results, season, round);
    seq(|ranking|, i requires 0 <= i < |ranking| =>
      DriverLine(i + 1, ranking[i].subject, TeamOf(LatestInRange(results, ranking[i].subject, season, round)),
                 ranking[i].points, ranking[i].wins))
  }

  // ---------------------------------------------------------- constructors

  /** The distinct races in scope the team won: `Count('race', filter=P1, distinct=True)`. */
  function WinRaces(sel: seq<Result>, team: nat): set<Race> {
    set r | r in sel && r.team == team && IsWin(r) :: r.race
  }

  datatype TeamScore = TeamScore(team: nat, points: int, wins: nat)

  predicate TeamScoreGe(a: TeamScore, b: TeamScore) {
    RanksAbove(a.points, a.wins, b.points, b.wins)
  }

  lemma TeamScoreGeIsTotalPreorder()
    ensures TotalPreorder(TeamScoreGe)
  {
  }

  function TeamScores(sel: seq<Result>): seq<TeamScore> {
    var teams := Subjects(sel, ConstructorKind);
    seq(|teams|, i requires 0 <= i < |teams| =>
      TeamScore(teams[i], Points(sel, ConstructorKind, teams[i]), |WinRaces(sel, teams[i])|))
  }

  function ConstructorRanking(results: seq<Result>, season: int, round: int): seq<TeamScore> {
    TeamScoreGeIsTotalPreorder();
    SortBy(TeamScores(RaceScope(results, season, round)), TeamScoreGe)
  }

  datatype ConstructorLine = ConstructorLine(position: nat, team: nat, points: int, wins: nat)

  function ConstructorLinesOf(results: seq<Result>, season: int, round: int): seq<ConstructorLine> {
    var ranked := ConstructorRanking(results, season, round);
    seq(|ranked|, i requires 0 <= i < |ranked| =>
      ConstructorLine(i + 1, ranked[i].team, ranked[i].points, ranked[i].wins))
  }

  // --------------------------------------------------------------- the action

  datatype Response =
    | BadRequest(error: string)
    | DriverTable(season: int, round: int, drivers: seq<DriverLine>)
    | ConstructorTable(season: int, round: int, constructors: seq<ConstructorLine>)

  const MissingParameters := "season and round parameters are required"
  const NotIntegers := "season and round must be integers"

  /** A query parameter is truthy when present and non-empty. */
  predicate Given(p: Option<string>) {
    p.Some? && p.value != ""
  }

  function ProgressiveResponse(seasonParam: Option<string>, roundParam: Option<string>, typeParam: Option<string>,
                               results: seq<Result>): Response
  {
    if !Given(seasonParam) || !Given(roundParam) then BadRequest(MissingParameters)
    else
      var season, round := ParseInt(seasonParam.value), ParseInt(roundParam.value);
      if season.None? || round.None? then BadRequest(NotIntegers)
      else if typeParam.GetOr("driver") == "driver" then
        DriverTable(season.value, round.value, DriverLinesOf(results, season.value, round.value))
      else ConstructorTable(season.value, round.value, ConstructorLinesOf(results, season.value, round.value))
  }

  /** The driver loop (lines 166-192): one appended entry per ranked driver. */
  method DriverEntries(results: seq<Result>, season: int, round: int) returns (standings: seq<DriverLine>)
    ensures standings == DriverLinesOf(results, season, round)
  {
    var ranking := DriverRanking(results, season, round);
    ghost var lines := DriverLinesOf(results, season, round);
    standings := [];
    for i := 0 to |ranking|
      invariant standings == lines[..i]
    {
      var latest := LatestInRange(results, ranking[i].subject, season, round);
      standings := standings + [DriverLine(i + 1, ranking[i].subject, TeamOf(latest), ranking[i].points, ranking[i].wins)];
    }
  }

  /** The constructor loop (lines 210-219). */
  method ConstructorEntries(results: seq<Result>, season: int, round: int) returns (standings: seq<ConstructorLine>)
    ensures standings == ConstructorLinesOf(results, season, round)
  {
    var ranked := ConstructorRanking(results, season, round);
    standings := [];
    for i := 0 to |ranked|
      invariant standings == ConstructorLinesOf(results, season, round)[..i]
    {
      standings := standings + [ConstructorLine(i + 1, ranked[i].team, ranked[i].points, ranked[i].wins)];
    }
  }

  /** `ChampionshipStandingViewSet.progressive` (lines 130-225). */
  method ProgressiveStandings(seasonParam: Option<string>, roundParam: Option<string>, typeParam: Option<string>,
                              results: seq<Result>)
    returns (response: Response)
    ensures response == ProgressiveResponse(seasonParam, roundParam, typeParam, results)
  {
    if !Given(seasonParam) || !Given(roundParam) {
      return BadRequest(MissingParameters);
    }
    var parsedSeason, parsedRound := ParseInt(seasonParam.value), ParseInt(roundParam.value);
    if parsedSeason.None? || parsedRound.None? {
      return BadRequest(NotIntegers);
    }
    var season, round := parsedSeason.value, parsedRound.value;
    if typeParam.GetOr("driver") == "driver" {
      var standings := DriverEntries(results, season, round);
      response := DriverTable(season, round, standings);
    } else {
      var standings := ConstructorEntries(results, season, round);
      response := ConstructorTable(season, round, standings);
    }
  }

  // ------------------------------------------------------------ properties

  /** Parameters a client writes in decimal come back in the response, and `type` picks the table. */
  lemma ResponseEchoesParameters(season: int, round: int, typeParam: Option<string>, results: seq<Result>)
    ensures var response := ProgressiveResponse(Some(ShowInt(season)), Some(ShowInt(round)), typeParam, results);
      if typeParam == None || typeParam == Some("driver")
      then response == DriverTable(season, round, DriverLinesOf(results, season, round))
      else response == ConstructorTable(season, round, ConstructorLinesOf(results, season, round))
  {
    ParseShowRoundTrip(season);
    ParseShowRoundTrip(round);
  }

  /** A parameter with a character `int()` cannot read is answered with the error before any ranking. */
  lemma MalformedParameterIsRejected(seasonParam: string, roundParam: string, typeParam: Option<string>,
                                     results: seq<Result>, i: int)
    requires 0 <= i < |seasonParam| && roundParam != ""
    requires !IsDigit(seasonParam[i]) && !IsSpace(seasonParam[i])
    requires seasonParam[i] != '_' && seasonParam[i] != '-' && seasonParam[i] != '+'
    ensures ProgressiveResponse(Some(seasonParam), Some(roundParam), typeParam, results) == BadRequest(NotIntegers)
  {
    ParseRejectsForeignChar(seasonParam, i);
  }

  /** For a non-zero round the rows in scope are exactly the engine's rows under that ceiling. */
  lemma RaceScopeIsEngineSelection(results: seq<Result>, season: int, round: int)
    requires round != 0
    ensures RaceScope(results, season, round) == Select(results, season, Some(round))
  {
    KeepSame(results, (r: Result) => r.race.season == season && r.race.round <= round,
             (r: Result) => InScope(r, season, Some(round)));
  }

  lemma ScopeIsItsOwnSelection(results: seq<Result>, season: int, round: int)
    ensures Select(RaceScope(results, season, round), season, None) == RaceScope(results, season, round)
  {
    KeepAll(RaceScope(results, season, round), (r: Result) => InScope(r, season, None));
  }

  /** For a non-zero round the driver ranking is the engine's ranking under that ceiling. */
  lemma DriverRankingMatchesEngine(results: seq<Result>, season: int, round: int)
    requires round != 0
    ensures DriverRanking(results, season, round) == CalculateStandings(results, season, DriverKind, Some(round))
  {
    RaceScopeIsEngineSelection(results, season, round);
    ScopeIsItsOwnSelection(results, season, round);
  }

  /** The driver entries are numbered 1..n and ordered by (points, wins), each driver once. */
  lemma DriverLinesOrdered(results: seq<Result>, season: int, round: int)
    ensures var lines := DriverLinesOf(results, season, round);
      && (forall i :: 0 <= i < |lines| ==> lines[i].position == i + 1)
      && (forall i, j :: 0 <= i < j < |lines| ==>
            RanksAbove(lines[i].points, lines[i].wins, lines[j].points, lines[j].wins) && lines[i].driver != lines[j].driver)
  {
    ScopeIsItsOwnSelection(results, season, round);
    StandingsAreTable(RaceScope(results, season, round), season, DriverKind, None);
  }

  /** Each driver entry carries a driver with a result in scope, its points and its P1 count. */
  lemma DriverLinesCarryTotals(results: seq<Result>, season: int, round: int)
    ensures var lines := DriverLinesOf(results, season, round);
      var scope := RaceScope(results, season, round);
      forall i :: 0 <= i < |lines| ==>
        && lines[i].driver in Credited(scope, DriverKind)
        && lines[i].points == Points(scope, DriverKind, lines[i].driver)
        && lines[i].wins == Wins(scope, DriverKind, lines[i].driver)
  {
    ScopeIsItsOwnSelection(results, season, round);
    StandingsAreTable(RaceScope(results, season, round), season, DriverKind, None);
  }

  /** Every driver with a result in scope has an entry. */
  lemma DriverLinesCoverScope(results: seq<Result>, season: int, round: int)
    ensures var lines := DriverLinesOf(results, season, round);
      forall d :: d in Credited(RaceScope(results, season, round), DriverKind) ==>
        exists i :: 0 <= i < |lines| && lines[i].driver == d
  {
    var scope := RaceScope(results, season, round);
    var lines := DriverLinesOf(results, season, round);
    var ranking := DriverRanking(results, season, round);
    ScopeIsItsOwnSelection(results, season, round);
    StandingsAreTable(scope, season, DriverKind, None);
    forall d | d in Credited(scope, DriverKind) ensures exists i :: 0 <= i < |lines| && lines[i].driver == d {
      var i :| 0 <= i < |ranking| && ranking[i].subject == d;
      assert lines[i].driver == d;
    }
  }

  /**
   * Every ranked driver has a team: the one of its result in scope with the
   * highest round, ties broken by the later date.
   */
  lemma DriverLinesHaveLatestTeam(results: seq<Result>, season: int, round: int, i: int)
    requires 0 <= i < |DriverLinesOf(results, season, round)|
    ensures var l := DriverLinesOf(results, season, round)[i];
      exists r :: (r in RaceScope(results, season, round) && r.driver == l.driver && l.team == Some(r.team)
        && forall r2 :: r2 in RaceScope(results, season, round) && r2.driver == l.driver ==> RoundDateLe(r2, r))
  {
    var scope := RaceScope(results, season, round);
    var lines := DriverLinesOf(results, season, round);
    DriverLinesCarryTotals(results, season, round);
    var d := lines[i].driver;
    var w :| w in scope && SubjectOf(w, DriverKind) == d;
    var latest := LatestInRange(results, d, season, round);
    assert latest.Some?;
    assert latest.value in scope;
  }

  /**
   * No race has round 0, so a round of 0 ranks nobody, where the engine
   * reads a ceiling of 0 as the whole season.
   */
  lemma ZeroRoundIsEmpty(results: seq<Result>, season: int)
    requires forall r :: r in results ==> r.race.round >= 1
    ensures DriverLinesOf(results, season, 0) == []
    ensures ConstructorLinesOf(results, season, 0) == []
  {
    var scope := RaceScope(results, season, 0);
    KeepNone(results, (r: Result) => r.race.season == season && r.race.round <= 0);
    ScopeIsItsOwnSelection(results, season, 0);
    StandingsAreTable(scope, season, DriverKind, None);
  }

  /** The engine's table under a ceiling of 0 is the whole season's, empty only without results. */
  lemma EngineReadsZeroAsWholeSeason(results: seq<Result>, season: int)
    ensures CalculateStandings(results, season, DriverKind, Some(0)) == [] <==> Select(results, season, None) == []
  {
    FalsyCeilingsAgree(results, season);
    StandingsAreTable(results, season, DriverKind, Some(0));
  }

  lemma TeamScoresHaveDistinctTeams(sel: seq<Result>)
    ensures NoDuplicates(TeamScores(sel))
    ensures forall i :: 0 <= i < |TeamScores(sel)| ==>
      TeamScores(sel)[i].team in Credited(sel, ConstructorKind)
      && TeamScores(sel)[i] == TeamScore(TeamScores(sel)[i].team, Points(sel, ConstructorKind, TeamScores(sel)[i].team),
                                         |WinRaces(sel, TeamScores(sel)[i].team)|)
  {
    var teams := Subjects(sel, ConstructorKind);
    var ts := TeamScores(sel);
    forall i, j | 0 <= i < j < |ts| ensures ts[i] != ts[j] {
      assert ts[i].team == teams[i] && ts[j].team == teams[j];
    }
    forall i | 0 <= i < |ts| ensures ts[i].team in Credited(sel, ConstructorKind) {
      assert teams[i] in teams;
    }
  }

  /** Each constructor entry carries a team with results in scope, that team's points and its won races. */
  lemma ConstructorLinesCarryTotals(results: seq<Result>, season: int, round: int)
    ensures var lines := ConstructorLinesOf(results, season, round);
      var scope := RaceScope(results, season, round);
      forall i :: 0 <= i < |lines| ==>
        && lines[i].position == i + 1
        && lines[i].team in Credited(scope, ConstructorKind)
        && lines[i].points == Points(scope, ConstructorKind, lines[i].team)
        && lines[i].wins == |WinRaces(scope, lines[i].team)|
  {
    var scope := RaceScope(results, season, round);
    var ts := TeamScores(scope);
    var ranked := ConstructorRanking(results, season, round);
    TeamScoresHaveDistinctTeams(scope);
    forall i | 0 <= i < |ranked|
      ensures ranked[i].team in Credited(scope, ConstructorKind)
        && ranked[i] == TeamScore(ranked[i].team, Points(scope, ConstructorKind, ranked[i].team), |WinRaces(scope, ranked[i].team)|)
    {
      assert ranked[i] in multiset(ts);
      var k :| 0 <= k < |ts| && ts[k] == ranked[i];
    }
  }

  /** The constructor entries are ordered by (points, wins) and name distinct teams. */
  lemma ConstructorLinesOrdered(results: seq<Result>, season: int, round: int)
    ensures var lines := ConstructorLinesOf(results, season, round);
      forall i, j :: 0 <= i < j < |lines| ==>
        RanksAbove(lines[i].points, lines[i].wins, lines[j].points, lines[j].wins) && lines[i].team != lines[j].team
  {
    var scope := RaceScope(results, season, round);
    var ts := TeamScores(scope);
    var ranked := ConstructorRanking(results, season, round);
    var lines := ConstructorLinesOf(results, season, round);
    TeamScoresHaveDistinctTeams(scope);
    PermutationKeepsNoDuplicates(ts, ranked);
    ConstructorLinesCarryTotals(results, season, round);
    forall i, j | 0 <= i < j < |lines| ensures lines[i].team != lines[j].team {
      assert ranked[i] != ranked[j];
    }
  }

  /** Every team with a result in scope has an entry. */
  lemma ConstructorLinesCoverScope(results: seq<Result>, season: int, round: int)
    ensures var lines := ConstructorLinesOf(results, season, round);
      forall c :: c in Credited(RaceScope(results, season, round), ConstructorKind) ==>
        exists i :: 0 <= i < |lines| && lines[i].team == c
  {
    var scope := RaceScope(results, season, round);
    var ts := TeamScores(scope);
    var ranked := ConstructorRanking(results, season, round);
    var lines := ConstructorLinesOf(results, season, round);
    TeamScoresHaveDistinctTeams(scope);
    ConstructorLinesCarryTotals(results, season, round);
    forall c | c in Credited(scope, ConstructorKind) ensures exists i :: 0 <= i < |lines| && lines[i].team == c {
      var teams := Subjects(scope, ConstructorKind);
      var k :| 0 <= k < |teams| && teams[k] == c;
      assert ts[k] in multiset(ranked);
      var i :| 0 <= i < |ranked| && ranked[i] == ts[k];
      assert lines[i].team == c;
    }
  }

  /** The constructor entries are ordered by (points, wins), one per team with results in scope. */
  lemma ConstructorLinesRankScope(results: seq<Result>, season: int, round: int)
    ensures var lines := ConstructorLinesOf(results, season, round);
      var scope := RaceScope(results, season, round);
      && (forall i, j :: 0 <= i < j < |lines| ==>
            RanksAbove(lines[i].points, lines[i].wins, lines[j].points, lines[j].wins) && lines[i].team != lines[j].team)
      && (forall c :: c in Credited(scope, ConstructorKind) ==> exists i :: 0 <= i < |lines| && lines[i].team == c)
  {
    ConstructorLinesOrdered(results, season, round);
    ConstructorLinesCoverScope(results, season, round);
  }

  lemma WinRacesStep(sel: seq<Result>, team: nat)
    requires sel != []
    ensures var r := sel[|sel| - 1];
      WinRaces(sel, team) == WinRaces(sel[..|sel| - 1], team) + (if r.team == team && IsWin(r) then {r.race} else {})
  {
    assert sel == sel[..|sel| - 1] + [sel[|sel| - 1]];
  }

  /** Counting distinct won races never exceeds counting winning rows. */
  lemma {:induction false} DistinctWinsAtMostRowWins(sel: seq<Result>, team: nat)
    ensures |WinRaces(sel, team)| <= Wins(sel, ConstructorKind, team)
  {
    if sel != [] {
      DistinctWinsAtMostRowWins(sel[..|sel| - 1], team);
      WinRacesStep(sel, team);
    }
  }

  /** A team wins a race with at most one of its result rows. */
  ghost predicate OneWinningRowPerRace(sel: seq<Result>, team: nat) {
    forall a, b :: a in sel && b in sel && a.team == team && b.team == team && IsWin(a) && IsWin(b) && a.race == b.race ==> a == b
  }

  /** With distinct rows and one winning row per race, both counts agree. */
  lemma {:induction false} DistinctWinsEqualRowWins(sel: seq<Result>, team: nat)
    requires NoDuplicates(sel) && OneWinningRowPerRace(sel, team)
    ensures |WinRaces(sel, team)| == Wins(sel, ConstructorKind, team)
  {
    if sel != [] {
      var init, r := sel[..|sel| - 1], sel[|sel| - 1];
      assert forall x :: x in init ==> x in sel;
      DistinctWinsEqualRowWins(init, team);
      WinRacesStep(sel, team);
      assert r !in init;
    }
  }

  /** Two winning rows of one team in one race: the engine counts two wins, this action one. */
  lemma ConstructorWinsCanDiffer()
    ensures var race := Race(2024, 1, 100);
      var sel := [Result(race, 1, 5, 1, Some(1), 25, Finished, None), Result(race, 2, 5, 2, Some(1), 25, Finished, None)];
      Wins(sel, ConstructorKind, 5) == 2 && |WinRaces(sel, 5)| == 1
  {
    var race := Race(2024, 1, 100);
    var a := Result(race, 1, 5, 1, Some(1), 25, Finished, None);
    var b := Result(race, 2, 5, 2, Some(1), 25, Finished, None);
    var sel := [a, b];
    assert sel[..1] == [a];
    assert [a][..0] == [];
    WinRacesStep(sel, 5);
    WinRacesStep([a], 5);
  }

  /**
   * The action orders a driver's results by round first, the DriverSeason
   * script by date first: when a later round was raced on an earlier date
   * they pick different teams.
   */
  lemma TeamOrderCanDiffer()
    ensures var early := Result(Race(2024, 1, 20), 1, 10, 1, Some(1), 25, Finished, None);
      var late := Result(Race(2024, 2, 10), 1, 20, 1, Some(1), 25, Finished, None);
      var results := [early, late];
      TeamOf(LatestInRange(results, 1, 2024, 2)) == Some(20) && LatestResult(results, 1, 2024) == Some(early)
  {
    var early := Result(Race(2024, 1, 20), 1, 10, 1, Some(1), 25, Finished, None);
    var late := Result(Race(2024, 2, 10), 1, 20, 1, Some(1), 25, Finished, None);
    var results := [early, late];
    assert results[..1] == [early];
    assert [early][..0] == [];
  }
}
