# Festival 2025 match table: standings and goalkeeper ranking

This project models the computation at the heart of `main2.py`, the match-sheet editor of
TABELA_JOGOS. When the button is pressed, the application takes the edited sheet (one row per match:
Time1, Time2, Resultado_Time1, Resultado_Time2, Goleiro_Time1, Goleiro_Time2) and derives two tables.

- **Classificacao** (the standings):
  - Every match is read once from each side.
  - Each side is scored 3 for a win, 1 for a draw and 0 for a loss.
  - The sides are grouped by team into Jogos, Pontos, Vitorias, Empates, Derrotas, Gols_Pro and
    Gols_Contra, and Saldo = Gols_Pro - Gols_Contra is added.
  - Rows are sorted in descending order on (Pontos, Saldo, Gols_Pro) and numbered from 1.
- **RankingGoleiros** (least beaten goalkeepers):
  - Each goalkeeper is charged with the goals of the opposing side.
  - Charges are grouped by goalkeeper into Jogos and Gols_Sofridos.
  - Goalkeepers are ranked by Media = Gols_Sofridos / Jogos, lowest first.

The model is written as pure functions and lemmas, matching the source's dataframe pipeline, which
builds new frames instead of updating state.

| file | module | contents |
|---|---|---|
| `matches.dfy` | `Matches` | The match row. Per-team and per-goalkeeper counts read match by match; these are the reference the tables are proved against. |
| `sorting.dfy` | `Sorting` | Insertion sort over a "ranks no lower than" relation. Proved: a permutation, sorted under a total relation, ordered between any two rows under a transitive relation, keeps sums and distinct keys. |
| `grouping.dfy` | `Grouping` | What both groupby calls rest on, for records of any kind: names present, per-name column sums, the records of the other names, column totals, and the grouping itself, given the function that builds one name's row. |
| `standings.dfy` | `Standings` | Team-perspective records, per-record columns, grouping, Saldo, ranking, numbering, the full classification and its properties. |
| `keepers.dfy` | `Keepers` | Goalkeeper records, grouping, Media and its cross-multiplied order, the ranking and its properties. |

Grouping takes the first record's name, sums that name's records into one row, and continues with
the records of the other names. It therefore yields one row per name, in order of first appearance.

## Model

| member | source | states |
|---|---|---|
| Standings.HomeRecords | main2.py:22-23 | One record per match, in sheet order: record i is match i seen from Time1, with Gols_Pro = Resultado_Time1 and Gols_Contra = Resultado_Time2. |
| Standings.AwayRecords | main2.py:24-25 | One record per match, in sheet order: record i is match i seen from Time2, with Gols_Pro = Resultado_Time2 and Gols_Contra = Resultado_Time1. |
| Standings.Perspectives | main2.py:22-26 | The team records are the Time1 side of every match followed by the Time2 side, two records per match. |
| Standings.IsWin | main2.py:29 | Vitoria holds for a record whose Gols_Pro exceeds its Gols_Contra. |
| Standings.IsDraw | main2.py:30 | Empate holds for a record whose Gols_Pro equals its Gols_Contra. |
| Standings.IsLoss | main2.py:31 | Derrota holds for a record whose Gols_Pro is below its Gols_Contra. |
| Standings.Points | main2.py:28 | Pontos of a record is 3 exactly when it is a win, 1 exactly when it is a draw, and 0 exactly when it is a loss. |
| Standings.Win | main2.py:29 | The Vitoria column as summed by agg: 1 for a win and 0 otherwise. |
| Standings.Draw | main2.py:30 | The Empate column as summed by agg: 1 for a draw and 0 otherwise. |
| Standings.Loss | main2.py:31 | The Derrota column as summed by agg: 1 for a loss and 0 otherwise. |
| Standings.RecordOutcome | main2.py:28-31 | Vitoria, Empate and Derrota are exclusive and exhaustive per record, and Pontos = 3·Vitoria + Empate. |
| Standings.SumOutcomes | main2.py:28-41 | Summed per team, Jogos = Vitorias + Empates + Derrotas and Pontos = 3·Vitorias + Empates. |
| Standings.SidesGames | main2.py:22-41 | The count of a team's records is its number of appearances in Time1 or Time2. |
| Standings.SidesGoalsFor | main2.py:22-41 | A team's summed Gols_Pro is the goals it scored on its own side of each match. |
| Standings.SidesGoalsAgainst | main2.py:22-41 | A team's summed Gols_Contra is the goals the opposing side scored. |
| Standings.SidesResults | main2.py:28-41 | A team's Vitorias, Empates and Derrotas are the matches it won, drew and lost, judged from its own side. |
| Standings.StandingOf | main2.py:33-42 | The row of a team carries that team's name, and its summed columns satisfy Jogos = Vitorias + Empates + Derrotas and Pontos = 3·Vitorias + Empates. Its columns are the per-team sums of lines 34-41, and Saldo is Gols_Pro - Gols_Contra (line 42). |
| Standings.StandingWithout | main2.py:33-42 | Removing one team's records leaves every other team's whole row unchanged. |
| Standings.StandingRows | main2.py:33-42 | Building team rows is a valid row builder for grouping: each row carries its team's name, and no other team's records change it. |
| Standings.GroupByTeam | main2.py:33-42 | groupby("Time").agg: one row per team that has a record, with no team repeated. Each row is that team's StandingOf row. |
| Standings.GroupGoalDiffSum | main2.py:33-42 | Over the grouped rows, the sum of Saldo equals total Gols_Pro minus total Gols_Contra over all records. |
| Standings.SidesBalance | main2.py:22-26 | The Time1 side's Gols_Pro total equals the Time2 side's Gols_Contra total, and the reverse. |
| Standings.PerspectivesBalance | main2.py:22-26 | Across all records, total Gols_Pro equals total Gols_Contra. |
| Standings.RanksAbove | main2.py:43 | One row may stand above another when it is no lower on (Pontos, Saldo, Gols_Pro) compared lexicographically, as the descending three-key sort orders them. |
| Standings.RanksAboveIsTotalPreorder | main2.py:43 | The descending lexicographic order on (Pontos, Saldo, Gols_Pro) is total and transitive. |
| Standings.Number | main2.py:44 | Numbering keeps the rows in order and gives row i the position first + i. |
| Standings.NumberKeepsGoalDiffSum | main2.py:44 | Numbering does not change the Saldo total. |
| Standings.Ranked | main2.py:43-44 | The grouped rows sorted by RanksAbove and numbered from 1 (reset_index, then index += 1). |
| Standings.RankedRows | main2.py:43-44 | The ranked table holds exactly the grouped rows: each table row is a grouped row, and each grouped row appears in the table. |
| Standings.RankedOrder | main2.py:43-44 | In the ranked table the teams stay distinct, and each row ranks at or above the next on (Pontos, Saldo, Gols_Pro). |
| Standings.SidesTeams | main2.py:22-26 | The teams of the records are exactly the teams named in Time1 or Time2. |
| Standings.RankedStandings | main2.py:33-44 | Every row of the ranked table is the summed row of its own team. |
| Standings.TableNames | main2.py:43-44 | A table holding exactly a set of rows names exactly those rows' teams. |
| Standings.RankedTeams | main2.py:22-44 | The ranked table names exactly the teams of the sheet. |
| Standings.Classification | main2.py:22-44 | The finished standings. Positions run 1..n. There is one row per team of the sheet and no team twice. Each row is that team's sums. Neighbouring rows are non-increasing on (Pontos, Saldo, Gols_Pro). |
| Standings.AppearancesPositive | main2.py:33-34 | A team named on the sheet appears at least once. |
| Standings.TeamRow | main2.py:22-42 | A team's row equals the match-by-match reference: Jogos = appearances, and Vitorias, Empates, Derrotas, Gols_Pro and Gols_Contra match their references. Also Jogos = V + E + D, Pontos = 3V + E, and Saldo = Gols_Pro - Gols_Contra. |
| Standings.ClassificationRow | main2.py:22-44 | Every row of the finished table satisfies the TeamRow facts for its team, and Jogos ≥ 1. |
| Standings.ClassificationGoalDiffSum | main2.py:22-44 | The Saldo column of the finished table sums to 0. |
| Standings.ClassificationOrdered | main2.py:43-44 | Any earlier row, not only the one just before, ranks at or above any later row. |
| Standings.SumPair | main2.py:33-41 | A column sum over two records adds each record's value when it belongs to the team. |
| Standings.PairStandings | main2.py:22-42 | With two records for two different teams, each team's row is the row of its single record. |
| Standings.SingleMatchTable | main2.py:22-44 | A single 3-1 match between A and B gives A at position 1 (1 game, 3 points, 1 win, goals 3-1, Saldo +2). It gives B at position 2 (1 game, 0 points, 1 loss, goals 1-3, Saldo -2). |
| Grouping.Sum | main2.py:34-41 | The per-name column sum that agg computes: a column added up over the records of one name (also Jogos and Gols_Sofridos at lines 57-58). |
| Grouping.One | main2.py:34 | The column that holds 1 on every record, so that its per-name sum is the count of lines 34 and 57. |
| Grouping.Without | main2.py:33 | The records left after removing one name (team, or goalkeeper at line 56) are exactly the records of the other names. |
| Grouping.SumConcat | main2.py:22-26 | A per-name column sum over two concatenated runs of records is the sum of the two parts, as for the concatenations at lines 22-26 and 54. |
| Grouping.SumWithout | main2.py:33-41 | Removing one name's records leaves every other name's column sums unchanged (both groupby calls, lines 33-41 and 56-58). |
| Grouping.TotalWithout | main2.py:33-41 | A column's grand total is one name's share plus the total of the other names' records (both groupby calls). |
| Grouping.TotalConcat | main2.py:22-26 | A column's total over concatenated records is the sum of the two parts' totals (also the concatenation at line 54). |
| Grouping.Peel | main2.py:33 | Splitting off the first record's name leaves fewer records and exactly the other names (also for groupby("Goleiro") at line 56). |
| Grouping.SumPositive | main2.py:56-57 | A name carried by some record has a count (Jogos) of at least 1. |
| Grouping.SumAbsent | main2.py:33-41 | A name that no record carries has every column sum 0. |
| Grouping.SumCount | main2.py:34 | A name's count is at least 1 exactly when some record carries it (also Jogos at line 57). |
| Grouping.PrependRow | main2.py:33 | Adding the row of a new name keeps names distinct and adds exactly that name (also for groupby("Goleiro") at line 56). |
| Grouping.PeelRows | main2.py:33-41 | Rows built over the other names' records equal the rows built over all records. |
| Grouping.Group | main2.py:33-41 | groupby(key).agg for both tables: one row per name that has a record, no name twice, and every row built from all records for its name. |
| Sorting.Insert | main2.py:43 | Insertion adds exactly the new row to the rows. |
| Sorting.Sort | main2.py:43 | sort_values keeps exactly the rows, as a multiset, and their number. |
| Sorting.InsertSorted | main2.py:43 | Under a total relation, inserting into a sorted sequence keeps it sorted. |
| Sorting.SortSorted | main2.py:43 | Under a total relation, the sorted rows are ordered pair by neighbouring pair. |
| Sorting.SortedAllPairs | main2.py:43 | Under a transitive relation, a sorted sequence is ordered between any two positions. |
| Sorting.InsertKeepsSum | main2.py:43 | Inserting a row adds exactly that row's value to any per-row sum. |
| Sorting.SortKeepsSum | main2.py:43 | Sorting leaves any per-row sum unchanged. |
| Sorting.InsertKeepsDistinctKeys | main2.py:43 | Inserting a row with a new key keeps keys distinct. |
| Sorting.SortKeepsDistinctKeys | main2.py:43 | Sorting keeps keys that were distinct distinct. |
| Keepers.FirstKeeperRecords | main2.py:50-51 | One record per match, in sheet order: record i charges Goleiro_Time1 of match i with Resultado_Time2. |
| Keepers.SecondKeeperRecords | main2.py:52-53 | One record per match, in sheet order: record i charges Goleiro_Time2 of match i with Resultado_Time1. |
| Keepers.KeeperRecords | main2.py:50-54 | The goalkeeper records are the Goleiro_Time1 side of every match followed by the Goleiro_Time2 side, two per match. |
| Keepers.KeeperSidesGames | main2.py:50-57 | The count of a goalkeeper's records is the number of sides naming them. |
| Keepers.KeeperSidesGoals | main2.py:50-58 | A goalkeeper's summed Gols_Sofridos is what the opposing sides scored in their matches. |
| Keepers.RowOf | main2.py:56-58 | The row of a goalkeeper carries their name, and its Jogos is at least 1 exactly when some record names them. Its columns are the count and the Gols_Sofridos sum over their records. |
| Keepers.KeeperRowsOf | main2.py:56-58 | Building goalkeeper rows is a valid row builder for grouping: each row carries its goalkeeper's name, and no other goalkeeper's records change it. |
| Keepers.GroupByKeeper | main2.py:56-59 | groupby("Goleiro").agg: one row per goalkeeper with a record, with no goalkeeper repeated. Each row is that goalkeeper's RowOf row. |
| Keepers.GroupConcededSum | main2.py:56-59 | Grouping neither loses nor invents a goal conceded. |
| Keepers.KeeperSidesTotal | main2.py:50-54 | The two goalkeeper sides together are charged with every goal of the sheet exactly once. |
| Keepers.KeeperRecordsGoals | main2.py:50-54 | The total Gols_Sofridos over all records is the total number of goals on the sheet. |
| Keepers.Average | main2.py:60 | Media of a goalkeeper who has played is non-negative, and Media times Jogos is Gols_Sofridos. |
| Keepers.ConcedesNoMore | main2.py:61 | One goalkeeper may stand before another when their Gols_Sofridos times the other's Jogos is no greater than the other's Gols_Sofridos times their Jogos. |
| Keepers.ConcedesNoMoreIsAverageOrder | main2.py:60-61 | For goalkeepers who have played, comparing by cross-multiplication is exactly comparing Media as a real ratio. |
| Keepers.ConcedesNoMoreIsTotal | main2.py:61 | Any two goalkeepers are comparable by cross-multiplication, including one with no game, for whom Media is undefined. |
| Keepers.ConcedesNoMoreTransitive | main2.py:61 | Among goalkeepers who have played, ordering by Media is transitive. |
| Keepers.SortedRows | main2.py:61 | The sorted goalkeeper rows are exactly the grouped rows. Goalkeepers stay distinct, and neighbours are non-decreasing in Media. |
| Keepers.SortedRowsOf | main2.py:56-61 | Every sorted row is the count and sum of its own goalkeeper. |
| Keepers.SameKeepers | main2.py:61 | A sequence holding exactly a set of rows names exactly those rows' goalkeepers. |
| Keepers.KeeperRecordsKeepers | main2.py:50-54 | The goalkeepers of the records are exactly the goalkeepers named on the sheet. |
| Keepers.Ranking | main2.py:50-61 | The finished ranking. There is one row per goalkeeper of the sheet and none twice. Each row is that goalkeeper's count and sum. Neighbouring rows are non-decreasing in Media. |
| Keepers.KeeperRowCounts | main2.py:50-58 | A goalkeeper's row equals the match-by-match reference: Jogos = appearances as Goleiro_Time1 or Goleiro_Time2, and Gols_Sofridos = the opposing sides' goals. |
| Keepers.RankingRow | main2.py:50-61 | Every ranking row has Jogos = appearances ≥ 1 (so Media is defined) and Gols_Sofridos equal to the reference. |
| Keepers.SortedPairs | main2.py:61 | In rows sorted by cross-multiplication, all with at least one game, any earlier row concedes no more per game than any later row. |
| Keepers.RankingPairs | main2.py:60-61 | Any earlier goalkeeper of the ranking, not only the one just before, concedes no more per game than any later one, compared by cross-multiplication. |
| Keepers.RankingOrdered | main2.py:60-61 | Any earlier goalkeeper, not only the one just before, has Media no greater than any later goalkeeper. |
| Keepers.RankingConcededSum | main2.py:50-61 | The Gols_Sofridos column of the ranking adds up to the total goals on the sheet. |

## Left out

- The Streamlit interface is not modelled: the upload widget, data editor, button, subheaders and table display (main2.py:1-20, 46-47, 63-64).
- Reading the uploaded Excel workbook and writing the three-sheet workbook through BytesIO for download are not modelled (main2.py:13, 66-80). The sheet enters the model as a sequence of `Match` values.
- Missing or non-numeric scores, and missing team or goalkeeper names, are not modelled. The model takes every score as a natural number and every name as present. It therefore does not capture pandas' NaN handling: NaN comparisons counting as neither win, draw nor loss, NaN skipped in sums and counts, and NaN keys dropped by groupby.
- The model takes no position on whether the standings filter out incomplete matches or list teams with no played match as zero rows. The code does neither: every row of the sheet is counted, and a team appears only if it has a record. The model follows the code.
- Keepers.Average: Media is modelled as the exact ratio. The source's floating-point division and `.round(2)` are not modelled.
- Keepers.Ranking: ordering is on the exact ratio, compared by cross-multiplication, not on the rounded Media. Goalkeepers whose averages round to the same two-decimal value but differ exactly may be in a different order from the source's.
- Standings.Classification: among teams equal on Pontos, Saldo and Gols_Pro, the source's order comes from groupby's alphabetical key order and the sort's handling of ties. The model leaves that order unspecified: it states the ranking order only, and its grouping lists teams in order of first appearance.
- Keepers.Ranking: among goalkeepers with equal Media, the order is unspecified in the source, whose single-key sort is not stable, and in the model, which states the Media order only.
- Integers are unbounded: the source's 64-bit sums cannot overflow for any realistic sheet, and this is not modelled.
