/** The goalkeeper ranking ("RankingGoleiros", least beaten first): every match
    charges each goalkeeper with the goals of the opposing side, the charges
    are counted and summed per goalkeeper, and the goalkeepers are ranked by
    goals conceded per game, lowest first. */
module Keepers {
  import opened Matches
  import opened Sorting
  import opened Grouping

  /** One goalkeeper in one match: Goleiro and Gols_Sofridos. */
  datatype KeeperRecord = KeeperRecord(keeper: string, conceded: nat)

  /** The grouping key of a record: Goleiro. */
  function Keeper(r: KeeperRecord): string { r.keeper }

  /** A row of the ranking: Goleiro, Jogos and Gols_Sofridos. The Media
      column is `Average` below. */
  datatype KeeperRow = KeeperRow(keeper: string, games: nat, conceded: nat)

  // ---------------------------------------------------------------------------
  // Charging goalkeepers

  /** Goleiro_Time1 charged with Resultado_Time2. */
  function FirstKeeperRecords(ms: seq<Match>): (recs: seq<KeeperRecord>)
    ensures |recs| == |ms|
    ensures forall i :: 0 <= i < |ms| ==> recs[i] == KeeperRecord(ms[i].keeper1, ms[i].score2)
  {
    if ms == [] then []
    else [KeeperRecord(ms[0].keeper1, ms[0].score2)] + FirstKeeperRecords(ms[1..])
  }

  /** Goleiro_Time2 charged with Resultado_Time1. */
  function SecondKeeperRecords(ms: seq<Match>): (recs: seq<KeeperRecord>)
    ensures |recs| == |ms|
    ensures forall i :: 0 <= i < |ms| ==> recs[i] == KeeperRecord(ms[i].keeper2, ms[i].score1)
  {
    if ms == [] then []
    else [KeeperRecord(ms[0].keeper2, ms[0].score1)] + SecondKeeperRecords(ms[1..])
  }

  /** All Goleiro_Time1 records followed by all Goleiro_Time2 records. */
  function KeeperRecords(ms: seq<Match>): (recs: seq<KeeperRecord>)
    ensures |recs| == 2 * |ms|
  {
    FirstKeeperRecords(ms) + SecondKeeperRecords(ms)
  }

  // ---------------------------------------------------------------------------
  // Column sums per goalkeeper

  function Goals(r: KeeperRecord): nat { r.conceded }

  /** The two goalkeepers of the first match, added to the sums of the rest. */
  lemma KeeperSidesStep(ms: seq<Match>, k: string, col: KeeperRecord -> nat)
    requires ms != []
    ensures var m := ms[0];
      var first, second := KeeperRecord(m.keeper1, m.score2), KeeperRecord(m.keeper2, m.score1);
      Sum(FirstKeeperRecords(ms), Keeper, k, col) + Sum(SecondKeeperRecords(ms), Keeper, k, col)
      == (if m.keeper1 == k then col(first) else 0) + (if m.keeper2 == k then col(second) else 0)
         + Sum(FirstKeeperRecords(ms[1..]), Keeper, k, col) + Sum(SecondKeeperRecords(ms[1..]), Keeper, k, col)
  {
    var m := ms[0];
    var first, second := KeeperRecord(m.keeper1, m.score2), KeeperRecord(m.keeper2, m.score1);
    assert FirstKeeperRecords(ms) == [first] + FirstKeeperRecords(ms[1..]);
    assert SecondKeeperRecords(ms) == [second] + SecondKeeperRecords(ms[1..]);
    SumCons(first, FirstKeeperRecords(ms[1..]), Keeper, k, col);
    SumCons(second, SecondKeeperRecords(ms[1..]), Keeper, k, col);
  }

  /** A goalkeeper's Jogos is the number of sides of the sheet naming them. */
  lemma {:induction false} KeeperSidesGames(ms: seq<Match>, k: string)
    ensures Sum(FirstKeeperRecords(ms), Keeper, k, One) + Sum(SecondKeeperRecords(ms), Keeper, k, One)
            == KeeperAppearances(ms, k)
  {
    if ms != [] {
      KeeperSidesGames(ms[1..], k);
      KeeperSidesStep(ms, k, One);
    }
  }

  /** A goalkeeper's Gols_Sofridos is what the opposing sides scored against them. */
  lemma {:induction false} KeeperSidesGoals(ms: seq<Match>, k: string)
    ensures Sum(FirstKeeperRecords(ms), Keeper, k, Goals) + Sum(SecondKeeperRecords(ms), Keeper, k, Goals)
            == KeeperConceded(ms, k)
  {
    if ms != [] {
      KeeperSidesGoals(ms[1..], k);
      KeeperSidesStep(ms, k, Goals);
    }
  }

  // ---------------------------------------------------------------------------
  // Grouping by goalkeeper

  /** The ranking row of goalkeeper `k`: records counted and goals summed. */
  function RowOf(recs: seq<KeeperRecord>, k: string): (r: KeeperRow)
    ensures r.keeper == k
    ensures r.games >= 1 <==> k in Names(recs, Keeper)
  {
    SumCount(recs, Keeper, k);
    KeeperRow(k, Sum(recs, Keeper, k, One), Sum(recs, Keeper, k, Goals))
  }

  function KeeperName(r: KeeperRow): string { r.keeper }

  /** A goalkeeper's row carries their name and depends on their records only. */
  lemma KeeperRowsOf()
    ensures RowBuilder(Keeper, RowOf, KeeperName)
  {
    forall recs, k, u | u != k ensures RowOf(Without(recs, Keeper, k), u) == RowOf(recs, u) {
      SumWithout(recs, Keeper, k, u, One);
      SumWithout(recs, Keeper, k, u, Goals);
    }
  }

  /** groupby("Goleiro").agg(...): one row per goalkeeper with a record,
      each row holding that goalkeeper's count and sum. */
  function GroupByKeeper(recs: seq<KeeperRecord>): (rows: seq<KeeperRow>)
    ensures forall i :: 0 <= i < |rows| ==> rows[i] == RowOf(recs, rows[i].keeper)
    ensures DistinctKeys(rows, KeeperName)
    ensures Names(rows, KeeperName) == Names(recs, Keeper)
  {
    KeeperRowsOf();
    Group(recs, Keeper, RowOf, KeeperName)
  }

  // ---------------------------------------------------------------------------
  // Every goal is conceded by exactly one goalkeeper

  function RowConceded(r: KeeperRow): int { r.conceded }

  /** Grouping neither loses nor invents a goal. */
  lemma {:induction false} GroupConcededSum(recs: seq<KeeperRecord>)
    ensures SumOf(GroupByKeeper(recs), RowConceded) == ColumnTotal(recs, Goals)
    decreases |recs|
  {
    if recs != [] {
      var k := recs[0].keeper;
      var others := Without(recs, Keeper, k);
      assert others == Without(recs[1..], Keeper, k);
      GroupConcededSum(others);
      TotalWithout(recs, Keeper, k, Goals);
      var rows := GroupByKeeper(recs);
      assert rows[1..] == GroupByKeeper(others);
    }
  }

  /** The two goalkeepers of the sheet are charged with every goal once. */
  lemma {:induction false} KeeperRecordsGoals(ms: seq<Match>)
    ensures ColumnTotal(KeeperRecords(ms), Goals) == TotalGoals(ms)
  {
    var f, s := FirstKeeperRecords(ms), SecondKeeperRecords(ms);
    TotalConcat(f, s, Goals);
    KeeperSidesTotal(ms);
  }

  lemma {:induction false} KeeperSidesTotal(ms: seq<Match>)
    ensures ColumnTotal(FirstKeeperRecords(ms), Goals) + ColumnTotal(SecondKeeperRecords(ms), Goals)
            == TotalGoals(ms)
  {
    if ms != [] {
      KeeperSidesTotal(ms[1..]);
      var f, s := FirstKeeperRecords(ms[1..]), SecondKeeperRecords(ms[1..]);
      assert FirstKeeperRecords(ms)[1..] == f;
      assert SecondKeeperRecords(ms)[1..] == s;
    }
  }

  // ---------------------------------------------------------------------------
  // Ordering by goals conceded per game

  /** Media: goals conceded per game, as a ratio. */
  function Average(r: KeeperRow): (media: real)
    requires r.games > 0
    ensures media >= 0.0
    ensures media * (r.games as real) == r.conceded as real
  {
    (r.conceded as real) / (r.games as real)
  }

  /** `a` concedes no more per game than `b`, compared by cross-multiplying
      Gols_Sofridos and Jogos so that no division is needed. */
  predicate ConcedesNoMore(a: KeeperRow, b: KeeperRow) {
    a.conceded * b.games <= b.conceded * a.games
  }

  /** For goalkeepers who have played, cross-multiplication compares exactly
      the averages. */
  lemma ConcedesNoMoreIsAverageOrder(a: KeeperRow, b: KeeperRow)
    requires a.games > 0 && b.games > 0
    ensures ConcedesNoMore(a, b) <==> Average(a) <= Average(b)
  {
    var ca, ga, cb, gb := a.conceded as real, a.games as real, b.conceded as real, b.games as real;
    var x, y := ca / ga, cb / gb;
    assert ca == x * ga && cb == y * gb;
    assert (a.conceded * b.games) as real == ca * gb == x * (ga * gb);
    assert (b.conceded * a.games) as real == cb * ga == y * (ga * gb);
    assert ga * gb > 0.0;
    if x <= y {
      assert x * (ga * gb) <= y * (ga * gb);
    } else {
      assert y * (ga * gb) < x * (ga * gb);
    }
  }

  lemma ConcedesNoMoreIsTotal()
    ensures Total(ConcedesNoMore)
  {
  }

  /** Among goalkeepers who have played, the order is transitive. */
  lemma ConcedesNoMoreTransitive(a: KeeperRow, b: KeeperRow, c: KeeperRow)
    requires a.games > 0 && b.games > 0 && c.games > 0
    requires ConcedesNoMore(a, b) && ConcedesNoMore(b, c)
    ensures ConcedesNoMore(a, c)
  {
    ConcedesNoMoreIsAverageOrder(a, b);
    ConcedesNoMoreIsAverageOrder(b, c);
    ConcedesNoMoreIsAverageOrder(a, c);
  }

  // ---------------------------------------------------------------------------
  // The ranking

  /** Sorting the grouped rows keeps exactly those rows, keeps the goalkeepers
      distinct and puts every row at or below the next one in conceded per game. */
  lemma SortedRows(rows: seq<KeeperRow>)
    requires DistinctKeys(rows, KeeperName)
    ensures var sorted := Sort(rows, ConcedesNoMore);
      && (forall i :: 0 <= i < |sorted| ==> sorted[i] in rows)
      && (forall r :: r in rows ==> r in sorted)
      && DistinctKeys(sorted, KeeperName)
      && Sorted(sorted, ConcedesNoMore)
  {
    var sorted := Sort(rows, ConcedesNoMore);
    ConcedesNoMoreIsTotal();
    SortSorted(rows, ConcedesNoMore);
    SortKeepsDistinctKeys(rows, ConcedesNoMore, KeeperName);
    forall i | 0 <= i < |sorted| ensures sorted[i] in rows {
      assert sorted[i] in multiset(sorted);
    }
    forall r | r in rows ensures r in sorted {
      assert r in multiset(rows);
    }
  }

  /** Every sorted row is the count and sum of its own goalkeeper. */
  lemma SortedRowsOf(recs: seq<KeeperRecord>, rows: seq<KeeperRow>)
    requires forall i :: 0 <= i < |rows| ==> rows[i] == RowOf(recs, rows[i].keeper)
    ensures var sorted := Sort(rows, ConcedesNoMore);
      forall i :: 0 <= i < |sorted| ==> sorted[i] == RowOf(recs, sorted[i].keeper)
  {
    var sorted := Sort(rows, ConcedesNoMore);
    forall i | 0 <= i < |sorted| ensures sorted[i] == RowOf(recs, sorted[i].keeper) {
      assert sorted[i] in multiset(sorted);
      var j :| 0 <= j < |rows| && rows[j] == sorted[i];
    }
  }

  /** A sequence holding exactly the rows `rows` names exactly their goalkeepers. */
  lemma SameKeepers(sorted: seq<KeeperRow>, rows: seq<KeeperRow>)
    requires forall i :: 0 <= i < |sorted| ==> sorted[i] in rows
    requires forall r :: r in rows ==> r in sorted
    ensures forall k :: k in Names(rows, KeeperName) <==> exists i :: 0 <= i < |sorted| && sorted[i].keeper == k
  {
    forall k | k in Names(rows, KeeperName) ensures exists i :: 0 <= i < |sorted| && sorted[i].keeper == k {
      var r :| r in rows && r.keeper == k;
      var i :| 0 <= i < |sorted| && sorted[i] == r;
    }
  }

  lemma KeeperRecordsKeepers(ms: seq<Match>)
    ensures Names(KeeperRecords(ms), Keeper) == Keepers(ms)
  {
    var f := FirstKeeperRecords(ms);
    var s := SecondKeeperRecords(ms);
    forall x | x in Names(f + s, Keeper) ensures x in Keepers(ms) {
      var r: KeeperRecord :| r in f + s && r.keeper == x;
      if r in f {
        var i :| 0 <= i < |f| && f[i] == r;
        assert ms[i] in ms;
      } else {
        var i :| 0 <= i < |s| && s[i] == r;
        assert ms[i] in ms;
      }
    }
    forall x | x in Keepers(ms) ensures x in Names(f + s, Keeper) {
      var m :| m in ms && (m.keeper1 == x || m.keeper2 == x);
      var i :| 0 <= i < |ms| && ms[i] == m;
      assert f[i] in f + s && s[i] in f + s;
    }
  }

  /** The goalkeeper ranking: one row per goalkeeper of the sheet, each with
      that goalkeeper's count and sum, lowest goals conceded per game first. */
  function Ranking(ms: seq<Match>): (ranking: seq<KeeperRow>)
    ensures forall i :: 0 <= i < |ranking| ==> ranking[i] == RowOf(KeeperRecords(ms), ranking[i].keeper)
    ensures DistinctKeys(ranking, KeeperName)
    ensures forall k :: k in Keepers(ms) <==> exists i :: 0 <= i < |ranking| && ranking[i].keeper == k
    ensures Sorted(ranking, ConcedesNoMore)
  {
    var recs := KeeperRecords(ms);
    var rows := GroupByKeeper(recs);
    SortedRows(rows);
    SortedRowsOf(recs, rows);
    SameKeepers(Sort(rows, ConcedesNoMore), rows);
    KeeperRecordsKeepers(ms);
    Sort(rows, ConcedesNoMore)
  }

  // ---------------------------------------------------------------------------
  // Properties of the finished ranking

  /** The row of goalkeeper `k`, counted from the sheet: Jogos is the number
      of sides naming them and Gols_Sofridos the opposing sides' goals. */
  lemma KeeperRowCounts(ms: seq<Match>, k: string)
    ensures RowOf(KeeperRecords(ms), k).games == KeeperAppearances(ms, k)
    ensures RowOf(KeeperRecords(ms), k).conceded == KeeperConceded(ms, k)
  {
    var f, s := FirstKeeperRecords(ms), SecondKeeperRecords(ms);
    SumConcat(f, s, Keeper, k, One);
    SumConcat(f, s, Keeper, k, Goals);
    KeeperSidesGames(ms, k);
    KeeperSidesGoals(ms, k);
  }

  /** Every row of the ranking is its goalkeeper's row as counted from the
      sheet, with at least one game, so Media is defined. */
  lemma RankingRow(ms: seq<Match>, i: nat)
    requires i < |Ranking(ms)|
    ensures var r := Ranking(ms)[i];
      && r.games == KeeperAppearances(ms, r.keeper) >= 1
      && r.conceded == KeeperConceded(ms, r.keeper)
  {
    var r := Ranking(ms)[i];
    KeeperRowCounts(ms, r.keeper);
    assert r.keeper in Keepers(ms);
    KeeperRecordsKeepers(ms);
  }

  /** In rows sorted by cross-multiplication, all with at least one game, any
      two rows, not only neighbours, are in order. */
  lemma {:induction false} SortedPairs(rows: seq<KeeperRow>, i: nat, j: nat)
    requires Sorted(rows, ConcedesNoMore)
    requires forall k :: 0 <= k < |rows| ==> rows[k].games > 0
    requires i < j < |rows|
    ensures ConcedesNoMore(rows[i], rows[j])
    decreases j - i
  {
    if j > i + 1 {
      SortedPairs(rows, i, j - 1);
      ConcedesNoMoreTransitive(rows[i], rows[j - 1], rows[j]);
    }
  }

  /** Any two rows of the ranking, not only neighbours, are in order of goals
      conceded per game, compared by cross-multiplication. */
  lemma RankingPairs(ms: seq<Match>, i: nat, j: nat)
    requires i < j < |Ranking(ms)|
    ensures ConcedesNoMore(Ranking(ms)[i], Ranking(ms)[j])
  {
    var ranking := Ranking(ms);
    forall k | 0 <= k < |ranking| ensures ranking[k].games > 0 {
      RankingRow(ms, k);
    }
    SortedPairs(ranking, i, j);
  }

  /** Any two rows are in order of Media. */
  lemma RankingOrdered(ms: seq<Match>, i: nat, j: nat)
    requires i < j < |Ranking(ms)|
    ensures Ranking(ms)[i].games > 0 && Ranking(ms)[j].games > 0
    ensures Average(Ranking(ms)[i]) <= Average(Ranking(ms)[j])
  {
    RankingPairs(ms, i, j);
    RankingRow(ms, i);
    RankingRow(ms, j);
    ConcedesNoMoreIsAverageOrder(Ranking(ms)[i], Ranking(ms)[j]);
  }

  /** The Gols_Sofridos column of the ranking adds up to every goal on the sheet. */
  lemma RankingConcededSum(ms: seq<Match>)
    ensures SumOf(Ranking(ms), RowConceded) == TotalGoals(ms)
  {
    var recs := KeeperRecords(ms);
    var rows := GroupByKeeper(recs);
    SortKeepsSum(rows, ConcedesNoMore, RowConceded);
    GroupConcededSum(recs);
    KeeperRecordsGoals(ms);
  }
}
