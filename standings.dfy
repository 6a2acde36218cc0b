/** The standings table ("Classificacao"): every match is read once from each
    side, each side is scored as a win, draw or loss, the sides are summed per
    team, goal difference is added, and the rows are ranked on points, goal
    difference and goals scored. */
module Standings {
  import opened Matches
  import opened Sorting
  import opened Grouping

  /** One side of one match, seen from that side: Time, Gols_Pro, Gols_Contra. */
  datatype TeamRecord = TeamRecord(team: string, goalsFor: nat, goalsAgainst: nat)

  /** The grouping key of a record: Time. */
  function Team(r: TeamRecord): string { r.team }

  /** A row of the standings table: Time, Jogos, Pontos, Vitorias, Empates,
      Derrotas, Gols_Pro, Gols_Contra and Saldo. */
  datatype Standing = Standing(
    team: string,
    games: nat,
    points: nat,
    wins: nat,
    draws: nat,
    losses: nat,
    goalsFor: nat,
    goalsAgainst: nat,
    goalDiff: int)

  /** A ranked row with its 1-based position in the final table. */
  datatype Placed = Placed(position: nat, row: Standing)

  // ---------------------------------------------------------------------------
  // Splitting matches into team-perspective records

  /** The Time1 column with its scores as (for, against). */
  function HomeRecords(ms: seq<Match>): (recs: seq<TeamRecord>)
    ensures |recs| == |ms|
    ensures forall i :: 0 <= i < |ms| ==> recs[i] == TeamRecord(ms[i].team1, ms[i].score1, ms[i].score2)
  {
    if ms == [] then []
    else [TeamRecord(ms[0].team1, ms[0].score1, ms[0].score2)] + HomeRecords(ms[1..])
  }

  /** The Time2 column with the scores swapped. */
  function AwayRecords(ms: seq<Match>): (recs: seq<TeamRecord>)
    ensures |recs| == |ms|
    ensures forall i :: 0 <= i < |ms| ==> recs[i] == TeamRecord(ms[i].team2, ms[i].score2, ms[i].score1)
  {
    if ms == [] then []
    else [TeamRecord(ms[0].team2, ms[0].score2, ms[0].score1)] + AwayRecords(ms[1..])
  }

  /** All Time1 records followed by all Time2 records. */
  function Perspectives(ms: seq<Match>): (recs: seq<TeamRecord>)
    ensures |recs| == 2 * |ms|
  {
    HomeRecords(ms) + AwayRecords(ms)
  }

  // ---------------------------------------------------------------------------
  // The per-record columns

  predicate IsWin(r: TeamRecord) { r.goalsFor > r.goalsAgainst }
  predicate IsDraw(r: TeamRecord) { r.goalsFor == r.goalsAgainst }
  predicate IsLoss(r: TeamRecord) { r.goalsFor < r.goalsAgainst }

  /** Pontos of one record: 3 for a win, 1 for a draw, 0 otherwise. */
  function Points(r: TeamRecord): (p: nat)
    ensures IsWin(r) <==> p == 3
    ensures IsDraw(r) <==> p == 1
    ensures IsLoss(r) <==> p == 0
  {
    if r.goalsFor > r.goalsAgainst then 3 else if r.goalsFor == r.goalsAgainst then 1 else 0
  }

  /** The boolean columns Vitoria, Empate and Derrota, summed as 1 or 0. */
  function Win(r: TeamRecord): nat { if IsWin(r) then 1 else 0 }
  function Draw(r: TeamRecord): nat { if IsDraw(r) then 1 else 0 }
  function Loss(r: TeamRecord): nat { if IsLoss(r) then 1 else 0 }

  function GoalsFor(r: TeamRecord): nat { r.goalsFor }
  function GoalsAgainst(r: TeamRecord): nat { r.goalsAgainst }

  /** Exactly one of win, draw and loss holds for a record, and its points
      are 3 for the win and 1 for the draw. */
  lemma RecordOutcome(r: TeamRecord)
    ensures Win(r) + Draw(r) + Loss(r) == 1
    ensures Points(r) == 3 * Win(r) + Draw(r)
  {
  }

  // ---------------------------------------------------------------------------
  // Column sums per team

  /** Summed per team, the games are wins plus draws plus losses, and the
      points are 3 per win plus 1 per draw. */
  lemma {:induction false} SumOutcomes(recs: seq<TeamRecord>, t: string)
    ensures Sum(recs, Team, t, One) == Sum(recs, Team, t, Win) + Sum(recs, Team, t, Draw) + Sum(recs, Team, t, Loss)
    ensures Sum(recs, Team, t, Points) == 3 * Sum(recs, Team, t, Win) + Sum(recs, Team, t, Draw)
  {
    if recs != [] {
      SumOutcomes(recs[1..], t);
      RecordOutcome(recs[0]);
    }
  }

  /** The home and away sides of the first match, added to the sums of the rest. */
  lemma SidesStep(ms: seq<Match>, t: string, col: TeamRecord -> nat)
    requires ms != []
    ensures var m := ms[0];
      var home, away := TeamRecord(m.team1, m.score1, m.score2), TeamRecord(m.team2, m.score2, m.score1);
      Sum(HomeRecords(ms), Team, t, col) + Sum(AwayRecords(ms), Team, t, col)
      == (if m.team1 == t then col(home) else 0) + (if m.team2 == t then col(away) else 0)
         + Sum(HomeRecords(ms[1..]), Team, t, col) + Sum(AwayRecords(ms[1..]), Team, t, col)
  {
    var m := ms[0];
    var home, away := TeamRecord(m.team1, m.score1, m.score2), TeamRecord(m.team2, m.score2, m.score1);
    assert HomeRecords(ms) == [home] + HomeRecords(ms[1..]);
    assert AwayRecords(ms) == [away] + AwayRecords(ms[1..]);
    SumCons(home, HomeRecords(ms[1..]), Team, t, col);
    SumCons(away, AwayRecords(ms[1..]), Team, t, col);
  }

  /** Every match gives team `t` one record per side it plays, so its games
      are its appearances in either column. */
  lemma {:induction false} SidesGames(ms: seq<Match>, t: string)
    ensures Sum(HomeRecords(ms), Team, t, One) + Sum(AwayRecords(ms), Team, t, One) == Appearances(ms, t)
  {
    if ms != [] {
      SidesGames(ms[1..], t);
      SidesStep(ms, t, One);
    }
  }

  /** The records carry the goals of the team's own side as goals for. */
  lemma {:induction false} SidesGoalsFor(ms: seq<Match>, t: string)
    ensures Sum(HomeRecords(ms), Team, t, GoalsFor) + Sum(AwayRecords(ms), Team, t, GoalsFor) == GoalsScored(ms, t)
  {
    if ms != [] {
      SidesGoalsFor(ms[1..], t);
      SidesStep(ms, t, GoalsFor);
    }
  }

  /** ... and the opponent's goals as goals against. */
  lemma {:induction false} SidesGoalsAgainst(ms: seq<Match>, t: string)
    ensures Sum(HomeRecords(ms), Team, t, GoalsAgainst) + Sum(AwayRecords(ms), Team, t, GoalsAgainst) == GoalsAllowed(ms, t)
  {
    if ms != [] {
      SidesGoalsAgainst(ms[1..], t);
      SidesStep(ms, t, GoalsAgainst);
    }
  }

  /** Wins, draws and losses are judged from the team's own side of each match. */
  lemma {:induction false} SidesResults(ms: seq<Match>, t: string)
    ensures Sum(HomeRecords(ms), Team, t, Win) + Sum(AwayRecords(ms), Team, t, Win) == Wins(ms, t)
    ensures Sum(HomeRecords(ms), Team, t, Draw) + Sum(AwayRecords(ms), Team, t, Draw) == Draws(ms, t)
    ensures Sum(HomeRecords(ms), Team, t, Loss) + Sum(AwayRecords(ms), Team, t, Loss) == Losses(ms, t)
  {
    if ms != [] {
      SidesResults(ms[1..], t);
      SidesStep(ms, t, Win);
      SidesStep(ms, t, Draw);
      SidesStep(ms, t, Loss);
    }
  }

  // ---------------------------------------------------------------------------
  // Grouping by team

  /** The standings row of team `t`: every column summed over its records,
      and Saldo = Gols_Pro - Gols_Contra. */
  function StandingOf(recs: seq<TeamRecord>, t: string): (s: Standing)
    ensures s.team == t
    ensures s.games == s.wins + s.draws + s.losses
    ensures s.points == 3 * s.wins + s.draws
  {
    SumOutcomes(recs, t);
    Standing(t, Sum(recs, Team, t, One), Sum(recs, Team, t, Points),
      Sum(recs, Team, t, Win), Sum(recs, Team, t, Draw), Sum(recs, Team, t, Loss),
      Sum(recs, Team, t, GoalsFor), Sum(recs, Team, t, GoalsAgainst),
      Sum(recs, Team, t, GoalsFor) - Sum(recs, Team, t, GoalsAgainst))
  }

  lemma StandingWithout(recs: seq<TeamRecord>, t: string, u: string)
    requires u != t
    ensures StandingOf(Without(recs, Team, t), u) == StandingOf(recs, u)
  {
    SumWithout(recs, Team, t, u, One);
    SumWithout(recs, Team, t, u, Points);
    SumWithout(recs, Team, t, u, Win);
    SumWithout(recs, Team, t, u, Draw);
    SumWithout(recs, Team, t, u, Loss);
    SumWithout(recs, Team, t, u, GoalsFor);
    SumWithout(recs, Team, t, u, GoalsAgainst);
  }

  function TeamName(s: Standing): string { s.team }

  /** A team's row carries its name and depends on that team's records only. */
  lemma StandingRows()
    ensures RowBuilder(Team, StandingOf, TeamName)
  {
    forall recs, t, u | u != t ensures StandingOf(Without(recs, Team, t), u) == StandingOf(recs, u) {
      StandingWithout(recs, t, u);
    }
  }

  /** groupby("Time").agg(...): one row per team that has a record, each
      row holding that team's sums. */
  function GroupByTeam(recs: seq<TeamRecord>): (rows: seq<Standing>)
    ensures forall i :: 0 <= i < |rows| ==> rows[i] == StandingOf(recs, rows[i].team)
    ensures DistinctKeys(rows, TeamName)
    ensures Names(rows, TeamName) == Names(recs, Team)
  {
    StandingRows();
    Group(recs, Team, StandingOf, TeamName)
  }

  // ---------------------------------------------------------------------------
  // Goal difference sums to zero

  function GoalDiff(s: Standing): int { s.goalDiff }

  /** Grouping loses no goal: the Saldo column adds up to all goals scored
      minus all goals conceded. */
  lemma {:induction false} GroupGoalDiffSum(recs: seq<TeamRecord>)
    ensures SumOf(GroupByTeam(recs), GoalDiff) == ColumnTotal(recs, GoalsFor) - ColumnTotal(recs, GoalsAgainst)
    decreases |recs|
  {
    if recs != [] {
      var t := recs[0].team;
      var others := Without(recs, Team, t);
      assert others == Without(recs[1..], Team, t);
      GroupGoalDiffSum(others);
      TotalWithout(recs, Team, t, GoalsFor);
      TotalWithout(recs, Team, t, GoalsAgainst);
      assert GroupByTeam(recs)[1..] == GroupByTeam(others);
    }
  }

  lemma {:induction false} SidesBalance(ms: seq<Match>)
    ensures ColumnTotal(HomeRecords(ms), GoalsFor) == ColumnTotal(AwayRecords(ms), GoalsAgainst)
    ensures ColumnTotal(HomeRecords(ms), GoalsAgainst) == ColumnTotal(AwayRecords(ms), GoalsFor)
  {
    if ms != [] {
      SidesBalance(ms[1..]);
    }
  }

  /** Every goal is scored by one side and conceded by the other, so over all
      team records goals for and goals against are equal. */
  lemma PerspectivesBalance(ms: seq<Match>)
    ensures ColumnTotal(Perspectives(ms), GoalsFor) == ColumnTotal(Perspectives(ms), GoalsAgainst)
  {
    TotalConcat(HomeRecords(ms), AwayRecords(ms), GoalsFor);
    TotalConcat(HomeRecords(ms), AwayRecords(ms), GoalsAgainst);
    SidesBalance(ms);
  }

  // ---------------------------------------------------------------------------
  // Ranking

  /** `a` may stand above `b`: sort_values(["Pontos", "Saldo", "Gols_Pro"],
      ascending=False) compares the three keys lexicographically, descending. */
  predicate RanksAbove(a: Standing, b: Standing) {
    a.points > b.points
    || (a.points == b.points
        && (a.goalDiff > b.goalDiff
            || (a.goalDiff == b.goalDiff && a.goalsFor >= b.goalsFor)))
  }

  lemma RanksAboveIsTotalPreorder()
    ensures Total(RanksAbove) && Transitive(RanksAbove)
  {
  }

  /** Positions first, first + 1, ... given to the rows in order. */
  function Number(rows: seq<Standing>, first: nat): (table: seq<Placed>)
    ensures |table| == |rows|
    ensures forall i :: 0 <= i < |table| ==> table[i].position == first + i && table[i].row == rows[i]
  {
    if rows == [] then [] else [Placed(first, rows[0])] + Number(rows[1..], first + 1)
  }

  function PlacedGoalDiff(p: Placed): int { p.row.goalDiff }

  lemma {:induction false} NumberKeepsGoalDiffSum(rows: seq<Standing>, first: nat)
    ensures SumOf(Number(rows, first), PlacedGoalDiff) == SumOf(rows, GoalDiff)
  {
    if rows != [] {
      NumberKeepsGoalDiffSum(rows[1..], first + 1);
      assert Number(rows, first)[1..] == Number(rows[1..], first + 1);
    }
  }

  /** The grouped rows, ranked and numbered. */
  function Ranked(rows: seq<Standing>): seq<Placed> {
    Number(Sort(rows, RanksAbove), 1)
  }

  /** Ranking and numbering keep exactly the grouped rows. */
  lemma RankedRows(rows: seq<Standing>)
    ensures var table := Ranked(rows);
      && (forall i :: 0 <= i < |table| ==> table[i].row in rows)
      && (forall s :: s in rows ==> exists i :: 0 <= i < |table| && table[i].row == s)
  {
    var sorted := Sort(rows, RanksAbove);
    var table := Number(sorted, 1);
    forall i | 0 <= i < |table| ensures table[i].row in rows {
      assert sorted[i] in multiset(sorted);
    }
    forall s | s in rows ensures exists i :: 0 <= i < |table| && table[i].row == s {
      assert s in multiset(sorted);
      var i :| 0 <= i < |sorted| && sorted[i] == s;
      assert table[i].row == s;
    }
  }

  /** Ranking keeps the teams distinct and puts every row at or above the
      next one. */
  lemma RankedOrder(rows: seq<Standing>)
    requires DistinctKeys(rows, TeamName)
    ensures var table := Ranked(rows);
      && (forall i, j :: 0 <= i < j < |table| ==> table[i].row.team != table[j].row.team)
      && (forall i :: 0 < i < |table| ==> RanksAbove(table[i - 1].row, table[i].row))
  {
    var sorted := Sort(rows, RanksAbove);
    var table := Number(sorted, 1);
    RanksAboveIsTotalPreorder();
    SortSorted(rows, RanksAbove);
    SortKeepsDistinctKeys(rows, RanksAbove, TeamName);
    forall i, j | 0 <= i < j < |table| ensures table[i].row.team != table[j].row.team {
      assert TeamName(sorted[i]) != TeamName(sorted[j]);
    }
    forall i | 0 < i < |table| ensures RanksAbove(table[i - 1].row, table[i].row) {
      assert RanksAbove(sorted[i - 1], sorted[i]);
    }
  }

  lemma SidesTeams(ms: seq<Match>)
    ensures Names(Perspectives(ms), Team) == Teams(ms)
  {
    var h := HomeRecords(ms);
    var a := AwayRecords(ms);
    forall x | x in Names(h + a, Team) ensures x in Teams(ms) {
      var r: TeamRecord :| r in h + a && r.team == x;
      if r in h {
        var i :| 0 <= i < |h| && h[i] == r;
        assert ms[i] in ms;
      } else {
        var i :| 0 <= i < |a| && a[i] == r;
        assert ms[i] in ms;
      }
    }
    forall x | x in Teams(ms) ensures x in Names(h + a, Team) {
      var m :| m in ms && (m.team1 == x || m.team2 == x);
      var i :| 0 <= i < |ms| && ms[i] == m;
      assert h[i] in h + a && a[i] in h + a;
    }
  }

  /** Every ranked row is the sum of the records of its own team. */
  lemma RankedStandings(recs: seq<TeamRecord>, rows: seq<Standing>)
    requires forall i :: 0 <= i < |rows| ==> rows[i] == StandingOf(recs, rows[i].team)
    ensures forall i :: 0 <= i < |Ranked(rows)| ==> Ranked(rows)[i].row == StandingOf(recs, Ranked(rows)[i].row.team)
  {
    var table := Ranked(rows);
    RankedRows(rows);
    forall i | 0 <= i < |table| ensures table[i].row == StandingOf(recs, table[i].row.team) {
      assert table[i].row in rows;
      var j :| 0 <= j < |rows| && rows[j] == table[i].row;
    }
  }

  /** A table holding exactly the rows `rows` names exactly their teams. */
  lemma TableNames(table: seq<Placed>, rows: seq<Standing>, names: set<string>)
    requires forall i :: 0 <= i < |table| ==> table[i].row in rows
    requires forall s :: s in rows ==> exists i :: 0 <= i < |table| && table[i].row == s
    requires Names(rows, TeamName) == names
    ensures forall t :: t in names <==> exists i :: 0 <= i < |table| && table[i].row.team == t
  {
    forall t | t in names ensures exists i :: 0 <= i < |table| && table[i].row.team == t {
      var s :| s in rows && s.team == t;
      var i :| 0 <= i < |table| && table[i].row == s;
    }
  }

  /** The ranked table names exactly the teams of the sheet. */
  lemma RankedTeams(ms: seq<Match>, rows: seq<Standing>)
    requires rows == GroupByTeam(Perspectives(ms))
    ensures forall t :: t in Teams(ms) <==> exists i :: 0 <= i < |Ranked(rows)| && Ranked(rows)[i].row.team == t
  {
    RankedRows(rows);
    SidesTeams(ms);
    TableNames(Ranked(rows), rows, Teams(ms));
  }

  /** The classification table: one numbered row per team of the sheet, each
      holding that team's totals, ranked by points, goal difference and goals
      scored. */
  function Classification(ms: seq<Match>): (table: seq<Placed>)
    ensures forall i :: 0 <= i < |table| ==> table[i].position == i + 1
    ensures forall i :: 0 <= i < |table| ==> table[i].row == StandingOf(Perspectives(ms), table[i].row.team)
    ensures forall i, j :: 0 <= i < j < |table| ==> table[i].row.team != table[j].row.team
    ensures forall t :: t in Teams(ms) <==> exists i :: 0 <= i < |table| && table[i].row.team == t
    ensures forall i :: 0 < i < |table| ==> RanksAbove(table[i - 1].row, table[i].row)
  {
    var recs := Perspectives(ms);
    var rows := GroupByTeam(recs);
    RankedStandings(recs, rows);
    RankedOrder(rows);
    RankedTeams(ms, rows);
    Ranked(rows)
  }

  // ---------------------------------------------------------------------------
  // Properties of the finished table

  lemma {:induction false} AppearancesPositive(ms: seq<Match>, t: string)
    requires t in Teams(ms)
    ensures Appearances(ms, t) >= 1
  {
    if ms[0].team1 != t && ms[0].team2 != t {
      assert t in Teams(ms[1..]) by {
        var m :| m in ms && (t == m.team1 || t == m.team2);
        var k :| 0 <= k < |ms| && ms[k] == m;
        assert ms[1..][k - 1] == m;
      }
      AppearancesPositive(ms[1..], t);
    }
  }

  /** The row of team `t`, counted from the sheet: Jogos is its number of
      appearances, Vitorias, Empates, Derrotas and the goals come from its own
      side of each match, Jogos = Vitorias + Empates + Derrotas, Pontos =
      3 Vitorias + Empates, and Saldo = Gols_Pro - Gols_Contra. */
  lemma TeamRow(ms: seq<Match>, t: string)
    ensures var s := StandingOf(Perspectives(ms), t);
      && s.games == Appearances(ms, t)
      && s.wins == Wins(ms, t) && s.draws == Draws(ms, t) && s.losses == Losses(ms, t)
      && s.games == s.wins + s.draws + s.losses
      && s.points == 3 * s.wins + s.draws
      && s.goalsFor == GoalsScored(ms, t) && s.goalsAgainst == GoalsAllowed(ms, t)
      && s.goalDiff == s.goalsFor - s.goalsAgainst
  {
    var h, a := HomeRecords(ms), AwayRecords(ms);
    SumConcat(h, a, Team, t, One);
    SumConcat(h, a, Team, t, Win);
    SumConcat(h, a, Team, t, Draw);
    SumConcat(h, a, Team, t, Loss);
    SumConcat(h, a, Team, t, GoalsFor);
    SumConcat(h, a, Team, t, GoalsAgainst);
    SidesGames(ms, t);
    SidesResults(ms, t);
    SidesGoalsFor(ms, t);
    SidesGoalsAgainst(ms, t);
    SumOutcomes(Perspectives(ms), t);
  }

  /** Every row of the finished table is its team's row as counted from the
      sheet, and every team in the table has played at least once. */
  lemma ClassificationRow(ms: seq<Match>, i: nat)
    requires i < |Classification(ms)|
    ensures var s := Classification(ms)[i].row;
      && s.games == Appearances(ms, s.team) >= 1
      && s.wins == Wins(ms, s.team) && s.draws == Draws(ms, s.team) && s.losses == Losses(ms, s.team)
      && s.games == s.wins + s.draws + s.losses
      && s.points == 3 * s.wins + s.draws
      && s.goalsFor == GoalsScored(ms, s.team) && s.goalsAgainst == GoalsAllowed(ms, s.team)
      && s.goalDiff == s.goalsFor - s.goalsAgainst
  {
    var s := Classification(ms)[i].row;
    TeamRow(ms, s.team);
    assert s.team in Teams(ms);
    AppearancesPositive(ms, s.team);
  }

  /** The Saldo column of the finished table sums to zero. */
  lemma ClassificationGoalDiffSum(ms: seq<Match>)
    ensures SumOf(Classification(ms), PlacedGoalDiff) == 0
  {
    var recs := Perspectives(ms);
    var rows := GroupByTeam(recs);
    var sorted := Sort(rows, RanksAbove);
    NumberKeepsGoalDiffSum(sorted, 1);
    SortKeepsSum(rows, RanksAbove, GoalDiff);
    GroupGoalDiffSum(recs);
    PerspectivesBalance(ms);
  }

  /** Any two rows, not only neighbours, are in ranking order. */
  lemma ClassificationOrdered(ms: seq<Match>, i: nat, j: nat)
    requires i < j < |Classification(ms)|
    ensures RanksAbove(Classification(ms)[i].row, Classification(ms)[j].row)
  {
    var table := Classification(ms);
    var rows := seq(|table|, k requires 0 <= k < |table| => table[k].row);
    RanksAboveIsTotalPreorder();
    SortedAllPairs(rows, RanksAbove, i, j);
  }

  lemma SumPair(a: TeamRecord, b: TeamRecord, t: string, col: TeamRecord -> nat)
    ensures Sum([a, b], Team, t, col) == (if a.team == t then col(a) else 0) + (if b.team == t then col(b) else 0)
  {
    SumCons(a, [b], Team, t, col);
    SumCons(b, [], Team, t, col);
    assert [a] + [b] == [a, b];
    assert [b] + [] == [b];
  }

  /** The row a single record makes on its own. */
  function RecordStanding(r: TeamRecord): Standing {
    Standing(r.team, 1, Points(r), Win(r), Draw(r), Loss(r), r.goalsFor, r.goalsAgainst, r.goalsFor - r.goalsAgainst)
  }

  /** With two records of two different teams, each team's row is its own record's. */
  lemma PairStandings(a: TeamRecord, b: TeamRecord)
    requires a.team != b.team
    ensures StandingOf([a, b], a.team) == RecordStanding(a)
    ensures StandingOf([a, b], b.team) == RecordStanding(b)
  {
    SumPair(a, b, a.team, One);
    SumPair(a, b, a.team, Points);
    SumPair(a, b, a.team, Win);
    SumPair(a, b, a.team, Draw);
    SumPair(a, b, a.team, Loss);
    SumPair(a, b, a.team, GoalsFor);
    SumPair(a, b, a.team, GoalsAgainst);
    SumPair(a, b, b.team, One);
    SumPair(a, b, b.team, Points);
    SumPair(a, b, b.team, Win);
    SumPair(a, b, b.team, Draw);
    SumPair(a, b, b.team, Loss);
    SumPair(a, b, b.team, GoalsFor);
    SumPair(a, b, b.team, GoalsAgainst);
  }

  /** A single 3-1 match: the winner is first with 3 points and Saldo +2, the
      loser second with 0 points and Saldo -2. */
  lemma SingleMatchTable()
    ensures Classification([Match("A", "B", 3, 1, "X", "Y")])
         == [Placed(1, Standing("A", 1, 3, 1, 0, 0, 3, 1, 2)),
             Placed(2, Standing("B", 1, 0, 0, 0, 1, 1, 3, -2))]
  {
    var ms := [Match("A", "B", 3, 1, "X", "Y")];
    var a, b := TeamRecord("A", 3, 1), TeamRecord("B", 1, 3);
    assert HomeRecords(ms) == [a];
    assert AwayRecords(ms) == [b];
    var recs := [a, b];
    assert Perspectives(ms) == recs;
    assert Without(recs, Team, "A") == [b];
    assert Without([b], Team, "B") == [];
    StandingRows();
    assert Group([], Team, StandingOf, TeamName) == [];
    assert Group([b], Team, StandingOf, TeamName) == [StandingOf([b], "B")];
    assert GroupByTeam(recs) == [StandingOf(recs, "A"), StandingOf([b], "B")];
    var rowA, rowB := Standing("A", 1, 3, 1, 0, 0, 3, 1, 2), Standing("B", 1, 0, 0, 0, 1, 1, 3, -2);
    PairStandings(a, b);
    StandingWithout(recs, "A", "B");
    assert StandingOf(recs, "A") == rowA;
    assert StandingOf([b], "B") == rowB;
    assert Sort([rowB], RanksAbove) == [rowB];
    assert Sort([rowA, rowB], RanksAbove) == [rowA, rowB];
  }
}
