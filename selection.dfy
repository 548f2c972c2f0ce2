/**
 * The rows of the selected model and their grand total:
 * `df[df['model'] == selected].copy()` and `df_model['total quantity'].sum()`.
 */
module Selection {
  import opened SalesTable
  import opened ModelList

  /** The boolean-mask filter: the rows of model m, in table order. */
  function Filter(rows: seq<Record>, m: string): (r: seq<Record>)
    ensures |r| <= |rows|
    ensures forall x :: x in r <==> x in rows && x.model == m
  {
    if rows == [] then []
    else (if rows[0].model == m then [rows[0]] else []) + Filter(rows[1..], m)
  }

  /**
   * No matching row is lost and no other row is kept: the filtered table
   * holds each row of model m as many times as the table does.
   */
  lemma {:induction false} FilterCounts(rows: seq<Record>, m: string)
    ensures forall x :: multiset(Filter(rows, m))[x] == if x.model == m then multiset(rows)[x] else 0
  {
    if rows != [] {
      assert rows == [rows[0]] + rows[1..];
      FilterCounts(rows[1..], m);
    }
  }

  /** The filter keeps relative order: filtering a concatenation filters each part. */
  lemma {:induction false} FilterAppend(a: seq<Record>, b: seq<Record>, m: string)
    ensures Filter(a + b, m) == Filter(a, m) + Filter(b, m)
  {
    if a == [] {
      assert a + b == b;
    } else {
      assert (a + b)[0] == a[0] && (a + b)[1..] == a[1..] + b;
      FilterAppend(a[1..], b, m);
    }
  }

  /** `.sum()` of the quantity column. */
  function Sum(rows: seq<Record>): int
  {
    if rows == [] then 0 else rows[0].quantity + Sum(rows[1..])
  }

  lemma {:induction false} SumAppend(a: seq<Record>, b: seq<Record>)
    ensures Sum(a + b) == Sum(a) + Sum(b)
  {
    if a == [] {
      assert a + b == b;
    } else {
      assert (a + b)[0] == a[0] && (a + b)[1..] == a[1..] + b;
      SumAppend(a[1..], b);
    }
  }

  /** The quantities of the rows of model m, added up row by row across the whole table. */
  function QuantityOf(rows: seq<Record>, m: string): int
  {
    if rows == [] then 0
    else (if rows[0].model == m then rows[0].quantity else 0) + QuantityOf(rows[1..], m)
  }

  /**
   * The grand total shown for model m: the sum of the filtered table, which
   * is the sum over the whole table of the quantities of model m.
   */
  function ModelTotal(rows: seq<Record>, m: string): (t: int)
    ensures t == QuantityOf(rows, m)
  {
    FilterSumIsQuantityOf(rows, m);
    Sum(Filter(rows, m))
  }

  lemma {:induction false} FilterSumIsQuantityOf(rows: seq<Record>, m: string)
    ensures Sum(Filter(rows, m)) == QuantityOf(rows, m)
  {
    if rows != [] {
      var head := if rows[0].model == m then [rows[0]] else [];
      SumAppend(head, Filter(rows[1..], m));
      FilterSumIsQuantityOf(rows[1..], m);
    }
  }

  /**
   * A model is offered exactly when it selects at least one row: no offered
   * model has an empty table, and a model that is not offered selects
   * nothing and totals zero.
   */
  lemma OfferedIffSelected(rows: seq<Record>, m: string)
    ensures m in Models(rows) <==> Filter(rows, m) != []
    ensures m !in Models(rows) ==> ModelTotal(rows, m) == 0
  {
    if m in Models(rows) {
      var i :| 0 <= i < |rows| && rows[i].model == m;
      assert rows[i] in Filter(rows, m);
    } else {
      assert forall x :: x in rows ==> x.model != m;
    }
  }

  /** The totals of the models in ms, added up. */
  function TotalOver(ms: seq<string>, rows: seq<Record>): int
  {
    if ms == [] then 0 else ModelTotal(rows, ms[0]) + TotalOver(ms[1..], rows)
  }

  lemma {:induction false} TotalOverAppend(ms: seq<string>, a: seq<Record>, b: seq<Record>)
    ensures TotalOver(ms, a + b) == TotalOver(ms, a) + TotalOver(ms, b)
  {
    if ms != [] {
      FilterAppend(a, b, ms[0]);
      SumAppend(Filter(a, ms[0]), Filter(b, ms[0]));
      TotalOverAppend(ms[1..], a, b);
    }
  }

  /** One row counts towards exactly one model of a list without repetitions. */
  lemma {:induction false} TotalOverOneRow(ms: seq<string>, x: Record)
    requires Distinct(ms)
    ensures TotalOver(ms, [x]) == if x.model in ms then x.quantity else 0
  {
    if ms != [] {
      assert [x][1..] == [];
      assert Filter([x], ms[0]) == if x.model == ms[0] then [x] else [];
      assert Sum([x]) == x.quantity;
      assert Distinct(ms[1..]);
      TotalOverOneRow(ms[1..], x);
      if x.model == ms[0] {
        assert x.model !in ms[1..];
      } else {
        assert x.model in ms <==> x.model in ms[1..];
      }
    }
  }

  /**
   * The per-model totals split the table's quantity without loss or double
   * counting: added up over the model list they give the sum of all rows.
   */
  lemma {:induction false} TotalsPartitionTable(rows: seq<Record>)
    ensures TotalOver(Models(rows), rows) == Sum(rows)
  {
    var ms := Models(rows);
    assert Distinct(ms) by {
      forall i, j | 0 <= i < j < |ms| ensures ms[i] != ms[j] {
        TextOrder.BelowIrreflexive(ms[i]);
      }
    }
    CoveredRowsPartition(ms, rows);
  }

  lemma {:induction false} CoveredRowsPartition(ms: seq<string>, rows: seq<Record>)
    requires Distinct(ms)
    requires forall i :: 0 <= i < |rows| ==> rows[i].model in ms
    ensures TotalOver(ms, rows) == Sum(rows)
  {
    if rows == [] {
      ZeroOverEmpty(ms);
    } else {
      assert rows == [rows[0]] + rows[1..];
      TotalOverAppend(ms, [rows[0]], rows[1..]);
      TotalOverOneRow(ms, rows[0]);
      CoveredRowsPartition(ms, rows[1..]);
    }
  }

  lemma {:induction false} ZeroOverEmpty(ms: seq<string>)
    ensures TotalOver(ms, []) == 0
  {
    if ms != [] {
      ZeroOverEmpty(ms[1..]);
    }
  }
}
