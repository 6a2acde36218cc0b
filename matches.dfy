/** One row of the match sheet and what the sheet says about a single team or
    goalkeeper, read match by match. These per-name counts are the reference
    the two aggregations are proved against. */
module Matches {

  /** A played match: columns Time1, Time2, Resultado_Time1, Resultado_Time2,
      Goleiro_Time1 and Goleiro_Time2. Scores are present on every row. */
  datatype Match = Match(
    team1: string,
    team2: string,
    score1: nat,
    score2: nat,
    keeper1: string,
    keeper2: string)

  /** How many sides of the sheet name team `t` (a team listed on both sides
      of one match is counted twice). */
  function Appearances(ms: seq<Match>, t: string): nat {
    if ms == [] then 0
    else (if ms[0].team1 == t then 1 else 0) + (if ms[0].team2 == t then 1 else 0)
         + Appearances(ms[1..], t)
  }

  /** Goals scored by team `t` over the sheet. */
  function GoalsScored(ms: seq<Match>, t: string): nat {
    if ms == [] then 0
    else (if ms[0].team1 == t then ms[0].score1 else 0) + (if ms[0].team2 == t then ms[0].score2 else 0)
         + GoalsScored(ms[1..], t)
  }

  /** Goals scored against team `t` over the sheet. */
  function GoalsAllowed(ms: seq<Match>, t: string): nat {
    if ms == [] then 0
    else (if ms[0].team1 == t then ms[0].score2 else 0) + (if ms[0].team2 == t then ms[0].score1 else 0)
         + GoalsAllowed(ms[1..], t)
  }

  /** Matches in which team `t` won, drew or lost, one per side it played. */
  function Wins(ms: seq<Match>, t: string): nat {
    if ms == [] then 0
    else (if ms[0].team1 == t && ms[0].score1 > ms[0].score2 then 1 else 0)
         + (if ms[0].team2 == t && ms[0].score2 > ms[0].score1 then 1 else 0)
         + Wins(ms[1..], t)
  }

  function Draws(ms: seq<Match>, t: string): nat {
    if ms == [] then 0
    else (if ms[0].team1 == t && ms[0].score1 == ms[0].score2 then 1 else 0)
         + (if ms[0].team2 == t && ms[0].score2 == ms[0].score1 then 1 else 0)
         + Draws(ms[1..], t)
  }

  function Losses(ms: seq<Match>, t: string): nat {
    if ms == [] then 0
    else (if ms[0].team1 == t && ms[0].score1 < ms[0].score2 then 1 else 0)
         + (if ms[0].team2 == t && ms[0].score2 < ms[0].score1 then 1 else 0)
         + Losses(ms[1..], t)
  }

  /** How many sides of the sheet name goalkeeper `k`. */
  function KeeperAppearances(ms: seq<Match>, k: string): nat {
    if ms == [] then 0
    else (if ms[0].keeper1 == k then 1 else 0) + (if ms[0].keeper2 == k then 1 else 0)
         + KeeperAppearances(ms[1..], k)
  }

  /** Goals the opposing team scored in the matches goalkeeper `k` kept. */
  function KeeperConceded(ms: seq<Match>, k: string): nat {
    if ms == [] then 0
    else (if ms[0].keeper1 == k then ms[0].score2 else 0) + (if ms[0].keeper2 == k then ms[0].score1 else 0)
         + KeeperConceded(ms[1..], k)
  }

  /** Every team named anywhere on the sheet. */
  function Teams(ms: seq<Match>): set<string> {
    (set m | m in ms :: m.team1) + (set m | m in ms :: m.team2)
  }

  /** Every goalkeeper named anywhere on the sheet. */
  function Keepers(ms: seq<Match>): set<string> {
    (set m | m in ms :: m.keeper1) + (set m | m in ms :: m.keeper2)
  }

  /** Total goals on the sheet. */
  function TotalGoals(ms: seq<Match>): nat {
    if ms == [] then 0 else ms[0].score1 + ms[0].score2 + TotalGoals(ms[1..])
  }
}
