/** What groupby(name).agg(...) rests on, for records of any kind: the names
    present, the records of one name summed column by column, the records of
    every other name, and column totals over all records. Both tables group
    their records this way. */
module Grouping {
  import opened Sorting

  /** Every name carried by a record. */
  function Names<R(==)>(recs: seq<R>, key: R -> string): set<string> {
    set r | r in recs :: key(r)
  }

  /** Column `col` summed over the records named `k`. */
  function Sum<R>(recs: seq<R>, key: R -> string, k: string, col: R -> nat): nat {
    if recs == [] then 0
    else (if key(recs[0]) == k then col(recs[0]) else 0) + Sum(recs[1..], key, k, col)
  }

  /** Column `col` summed over all records, whatever their name. Kept apart
      from `SumOf`, which folds integer columns such as Saldo: a `nat` column
      passed where an `int` column is expected is a different function value
      to the verifier, and the per-name sums above are `nat`. */
  function ColumnTotal<R>(recs: seq<R>, col: R -> nat): nat {
    if recs == [] then 0 else col(recs[0]) + ColumnTotal(recs[1..], col)
  }

  /** The column every record holds 1 in, so that its sum counts records. */
  function One<R>(r: R): nat { 1 }

  /** The records of every name but `k`, in their order. */
  function Without<R(==,!new)>(recs: seq<R>, key: R -> string, k: string): (rest: seq<R>)
    ensures |rest| <= |recs|
    ensures forall r :: r in rest <==> r in recs && key(r) != k
  {
    if recs == [] then []
    else if key(recs[0]) == k then Without(recs[1..], key, k)
    else [recs[0]] + Without(recs[1..], key, k)
  }

  lemma SumCons<R>(r: R, recs: seq<R>, key: R -> string, k: string, col: R -> nat)
    ensures Sum([r] + recs, key, k, col) == (if key(r) == k then col(r) else 0) + Sum(recs, key, k, col)
  {
    assert ([r] + recs)[1..] == recs;
  }

  /** Sums over two runs of records add up. */
  lemma {:induction false} SumConcat<R>(a: seq<R>, b: seq<R>, key: R -> string, k: string, col: R -> nat)
    ensures Sum(a + b, key, k, col) == Sum(a, key, k, col) + Sum(b, key, k, col)
  {
    if a == [] {
      assert a + b == b;
    } else {
      assert a + b == [a[0]] + (a[1..] + b);
      SumCons(a[0], a[1..] + b, key, k, col);
      SumConcat(a[1..], b, key, k, col);
    }
  }

  /** Removing the records of `k` leaves every other name's sums as they were. */
  lemma {:induction false} SumWithout<R(!new)>(recs: seq<R>, key: R -> string, k: string, u: string, col: R -> nat)
    requires u != k
    ensures Sum(Without(recs, key, k), key, u, col) == Sum(recs, key, u, col)
  {
    if recs != [] {
      SumWithout(recs[1..], key, k, u, col);
      if key(recs[0]) != k {
        SumCons(recs[0], Without(recs[1..], key, k), key, u, col);
      }
    }
  }

  /** A column total is the share of `k` plus the total of the other records. */
  lemma {:induction false} TotalWithout<R(!new)>(recs: seq<R>, key: R -> string, k: string, col: R -> nat)
    ensures ColumnTotal(recs, col) == Sum(recs, key, k, col) + ColumnTotal(Without(recs, key, k), col)
  {
    if recs != [] {
      TotalWithout(recs[1..], key, k, col);
      if key(recs[0]) != k {
        var rest := Without(recs[1..], key, k);
        assert ([recs[0]] + rest)[1..] == rest;
      }
    }
  }

  /** Totals over two runs of records add up. */
  lemma {:induction false} TotalConcat<R>(a: seq<R>, b: seq<R>, col: R -> nat)
    ensures ColumnTotal(a + b, col) == ColumnTotal(a, col) + ColumnTotal(b, col)
  {
    if a == [] {
      assert a + b == b;
    } else {
      assert (a + b)[1..] == a[1..] + b;
      TotalConcat(a[1..], b, col);
    }
  }

  /** Peeling off the first record's name leaves fewer records and exactly
      the other names. */
  lemma Peel<R(!new)>(recs: seq<R>, key: R -> string)
    requires recs != []
    ensures var k := key(recs[0]);
      && Without(recs, key, k) == Without(recs[1..], key, k)
      && |Without(recs, key, k)| < |recs|
      && Names(recs, key) == {k} + Names(Without(recs, key, k), key)
      && k !in Names(Without(recs, key, k), key)
  {
    assert recs[0] in recs;
  }

  /** A name carried by some record has a positive sum of a column that is
      positive on every record. */
  lemma {:induction false} SumPositive<R>(recs: seq<R>, key: R -> string, k: string, col: R -> nat)
    requires k in Names(recs, key)
    requires forall r :: r in recs ==> col(r) >= 1
    ensures Sum(recs, key, k, col) >= 1
  {
    if key(recs[0]) != k {
      assert k in Names(recs[1..], key) by {
        var r :| r in recs && key(r) == k;
        var i :| 0 <= i < |recs| && recs[i] == r;
        assert recs[1..][i - 1] == r;
      }
      SumPositive(recs[1..], key, k, col);
    }
  }

  /** A name no record carries sums to zero. */
  lemma {:induction false} SumAbsent<R>(recs: seq<R>, key: R -> string, k: string, col: R -> nat)
    requires k !in Names(recs, key)
    ensures Sum(recs, key, k, col) == 0
  {
    if recs != [] {
      assert recs[0] in recs;
      SumAbsent(recs[1..], key, k, col);
    }
  }

  /** A name counts at least one record exactly when some record carries it. */
  lemma SumCount<R>(recs: seq<R>, key: R -> string, k: string)
    ensures Sum(recs, key, k, One) >= 1 <==> k in Names(recs, key)
  {
    if k in Names(recs, key) {
      SumPositive(recs, key, k, One);
    } else {
      SumAbsent(recs, key, k, One);
    }
  }

  /** A row for a new name in front of rows with distinct names keeps the
      names distinct and adds exactly that name. */
  lemma PrependRow<S>(row: S, rest: seq<S>, key: S -> string)
    requires DistinctKeys(rest, key)
    requires key(row) !in Names(rest, key)
    ensures DistinctKeys([row] + rest, key)
    ensures Names([row] + rest, key) == {key(row)} + Names(rest, key)
  {
    var rows := [row] + rest;
    forall i, j | 0 <= i < j < |rows| ensures key(rows[i]) != key(rows[j]) {
      assert rows[j] == rest[j - 1];
      if i > 0 {
        assert rows[i] == rest[i - 1];
      } else {
        assert rows[j] in rest;
      }
    }
    forall s | s in rows ensures s == row || s in rest {
      var k :| 0 <= k < |rows| && rows[k] == s;
      if k > 0 {
        assert rows[k] == rest[k - 1];
      }
    }
  }

  /** `row` builds the row of one name from records: the row carries that
      name, and the records of any other name do not change it. */
  ghost predicate RowBuilder<R(!new), S>(key: R -> string, row: (seq<R>, string) -> S, name: S -> string) {
    && (forall recs, k :: name(row(recs, k)) == k)
    && (forall recs, k, u :: u != k ==> row(Without(recs, key, k), u) == row(recs, u))
  }

  /** Rows built over the other names' records are the rows over all records. */
  lemma PeelRows<R(!new), S>(recs: seq<R>, key: R -> string, k: string,
                              row: (seq<R>, string) -> S, name: S -> string, rest: seq<S>)
    requires RowBuilder(key, row, name)
    requires forall i :: 0 <= i < |rest| ==> rest[i] == row(Without(recs, key, k), name(rest[i]))
    requires k !in Names(rest, name)
    ensures forall i :: 0 <= i < |rest| ==> rest[i] == row(recs, name(rest[i]))
  {
    forall i | 0 <= i < |rest| ensures rest[i] == row(recs, name(rest[i])) {
      assert rest[i] in rest;
    }
  }

  /** groupby(key).agg(...): one row per name that has a record, in the order
      the names first appear, each row built by `row` from all records. */
  function Group<R(==,!new), S>(recs: seq<R>, key: R -> string, row: (seq<R>, string) -> S, name: S -> string): (rows: seq<S>)
    requires RowBuilder(key, row, name)
    ensures forall i :: 0 <= i < |rows| ==> rows[i] == row(recs, name(rows[i]))
    ensures DistinctKeys(rows, name)
    ensures Names(rows, name) == Names(recs, key)
    decreases |recs|
  {
    if recs == [] then []
    else
      var k := key(recs[0]);
      Peel(recs, key);
      var rest := Group(Without(recs, key, k), key, row, name);
      PeelRows(recs, key, k, row, name, rest);
      PrependRow(row(recs, k), rest, name);
      [row(recs, k)] + rest
  }
}
