/**
 * The options of the model drop-down:
 * `sorted(df['model'].unique().tolist())`.
 */
module ModelList {
  import opened SalesTable
  import opened TextOrder

  /** `df['model']` as a sequence, row by row. */
  function ModelColumn(rows: seq<Record>): (ms: seq<string>)
    ensures |ms| == |rows|
    ensures forall i :: 0 <= i < |rows| ==> ms[i] == rows[i].model
  {
    if rows == [] then [] else [rows[0].model] + ModelColumn(rows[1..])
  }

  predicate Distinct(s: seq<string>)
  {
    forall i, j :: 0 <= i < j < |s| ==> s[i] != s[j]
  }

  predicate Ascending(s: seq<string>)
  {
    forall i, j :: 0 <= i < j < |s| ==> AtMost(s[i], s[j])
  }

  predicate StrictlyAscending(s: seq<string>)
  {
    forall i, j :: 0 <= i < j < |s| ==> Below(s[i], s[j])
  }

  /** `unique()`: every value once, in the order it first appears. */
  function Unique(s: seq<string>): (u: seq<string>)
    ensures Distinct(u)
    ensures forall x :: x in u <==> x in s
  {
    if s == [] then []
    else
      var u := Unique(s[..|s| - 1]);
      assert forall x :: x in s <==> x in s[..|s| - 1] || x == s[|s| - 1] by {
        assert s == s[..|s| - 1] + [s[|s| - 1]];
      }
      if s[|s| - 1] in u then u else u + [s[|s| - 1]]
  }

  /** Places x before the first element it does not exceed. */
  function Insert(x: string, s: seq<string>): (r: seq<string>)
    requires Ascending(s)
    ensures Ascending(r)
    ensures multiset(r) == multiset(s) + multiset{x}
  {
    if s == [] then [x]
    else if AtMost(x, s[0]) then
      assert forall j :: 0 < j < |s| ==> AtMost(s[0], s[j]);
      forall j | 0 <= j < |s| ensures AtMost(x, s[j]) {
        if j > 0 { AtMostTransitive(x, s[0], s[j]); }
      }
      assert s == [s[0]] + s[1..];
      [x] + s
    else
      BelowTotal(x, s[0]);
      var rest := Insert(x, s[1..]);
      forall j | 0 <= j < |rest| ensures AtMost(s[0], rest[j]) {
        assert rest[j] in multiset(rest);
        if rest[j] != x {
          assert rest[j] in multiset(s[1..]);
          var k :| 0 <= k < |s[1..]| && s[1..][k] == rest[j];
          assert s[1 + k] == rest[j];
        }
      }
      assert s == [s[0]] + s[1..];
      [s[0]] + rest
  }

  /** `sorted()` on strings, ascending in Python's string order. */
  function SortAscending(s: seq<string>): (r: seq<string>)
    ensures Ascending(r)
    ensures multiset(r) == multiset(s)
  {
    if s == [] then []
    else
      assert s == [s[0]] + s[1..];
      Insert(s[0], SortAscending(s[1..]))
  }

  /** In a sequence without repetitions no value occurs twice. */
  lemma {:induction false} DistinctCounts(s: seq<string>, x: string)
    requires Distinct(s)
    ensures multiset(s)[x] <= 1
  {
    if s != [] {
      assert s == [s[0]] + s[1..];
      DistinctCounts(s[1..], x);
      if x == s[0] {
        assert x !in s[1..];
      }
    }
  }

  /** Rearranging a sequence without repetitions keeps it without repetitions. */
  lemma DistinctPermutation(a: seq<string>, b: seq<string>)
    requires Distinct(a) && multiset(a) == multiset(b)
    ensures Distinct(b)
  {
    forall i, j | 0 <= i < j < |b| ensures b[i] != b[j] {
      if b[i] == b[j] {
        assert b == b[..j] + [b[j]] + b[j + 1..];
        assert b[i] in multiset(b[..j]);
        assert multiset(b)[b[j]] >= 2;
        DistinctCounts(a, b[j]);
        assert false;
      }
    }
  }

  /**
   * The drop-down options: the models of the table, each once, in
   * ascending order.
   */
  function Models(rows: seq<Record>): (r: seq<string>)
    ensures StrictlyAscending(r)
    ensures forall m :: m in r <==> exists i :: 0 <= i < |rows| && rows[i].model == m
  {
    var u := Unique(ModelColumn(rows));
    var r := SortAscending(u);
    DistinctPermutation(u, r);
    forall m ensures m in r <==> m in u {
      assert m in r <==> m in multiset(r);
    }
    r
  }

  /**
   * A strictly ascending list is determined by its elements: the options
   * are the same whatever order `unique()` reports the models in.
   */
  lemma {:induction false} StrictlyAscendingUnique(a: seq<string>, b: seq<string>)
    requires StrictlyAscending(a) && StrictlyAscending(b)
    requires forall x :: x in a <==> x in b
    ensures a == b
  {
    assert a != [] ==> a[0] in a;
    assert b != [] ==> b[0] in b;
    if a != [] && b != [] {
      assert a == [a[0]] + a[1..] && b == [b[0]] + b[1..];
      if a[0] != b[0] {
        assert a[0] in a && b[0] in b;
        var i :| 0 <= i < |b| && b[i] == a[0];
        var j :| 0 <= j < |a| && a[j] == b[0];
        assert i > 0 && j > 0;
        BelowAsymmetric(b[0], a[0]);
        assert false;
      }
      forall x ensures x in a[1..] <==> x in b[1..] {
        if x in a[1..] {
          var k :| 0 <= k < |a[1..]| && a[1..][k] == x;
          assert Below(a[0], a[1 + k]);
          BelowIrreflexive(x);
          assert x in b && x != b[0];
          assert x in b[1..];
        }
        if x in b[1..] {
          var k :| 0 <= k < |b[1..]| && b[1..][k] == x;
          assert Below(b[0], b[1 + k]);
          BelowIrreflexive(x);
          assert x in a && x != a[0];
          assert x in a[1..];
        }
      }
      StrictlyAscendingUnique(a[1..], b[1..]);
    }
  }
}
