/**
 * The table shown for the selected model:
 * `df_model[['colour', 'total quantity']].sort_values(by='total quantity', ascending=False)`.
 */
module Display {
  import opened SalesTable
  import opened Selection

  /** A row of the displayed table. */
  datatype ColourQty = ColourQty(colour: string, quantity: int)

  /** Keeps only the colour and quantity columns, row by row. */
  function Project(rows: seq<Record>): (r: seq<ColourQty>)
    ensures |r| == |rows|
    ensures forall i :: 0 <= i < |rows| ==> r[i] == ColourQty(rows[i].colour, rows[i].quantity)
  {
    if rows == [] then [] else [ColourQty(rows[0].colour, rows[0].quantity)] + Project(rows[1..])
  }

  predicate NonIncreasing(s: seq<ColourQty>)
  {
    forall i, j :: 0 <= i < j < |s| ==> s[i].quantity >= s[j].quantity
  }

  /** Places x before the first row whose quantity it is not below. */
  function InsertDescending(x: ColourQty, s: seq<ColourQty>): (r: seq<ColourQty>)
    requires NonIncreasing(s)
    ensures NonIncreasing(r)
    ensures multiset(r) == multiset(s) + multiset{x}
  {
    if s == [] then [x]
    else if x.quantity >= s[0].quantity then
      assert s == [s[0]] + s[1..];
      [x] + s
    else
      var rest := InsertDescending(x, s[1..]);
      HeadBoundsRearrangement(s[0], s[1..], x, rest);
      assert s == [s[0]] + s[1..];
      [s[0]] + rest
  }

  /**
   * A row whose quantity is at least that of x and of every row of t
   * can head any rearrangement of t with x added.
   */
  lemma HeadBoundsRearrangement(h: ColourQty, t: seq<ColourQty>, x: ColourQty, r: seq<ColourQty>)
    requires forall j :: 0 <= j < |t| ==> h.quantity >= t[j].quantity
    requires h.quantity >= x.quantity
    requires multiset(r) == multiset(t) + multiset{x}
    requires NonIncreasing(r)
    ensures NonIncreasing([h] + r)
  {
    forall j | 0 <= j < |r| ensures h.quantity >= r[j].quantity {
      assert r[j] in multiset(r);
      if r[j] != x {
        assert r[j] in multiset(t);
        var k :| 0 <= k < |t| && t[k] == r[j];
      }
    }
    var c := [h] + r;
    forall i, j | 0 <= i < j < |c| ensures c[i].quantity >= c[j].quantity {
      assert c[j] == r[j - 1];
      if i > 0 {
        assert c[i] == r[i - 1];
      }
    }
  }

  /** Taking out the row at k takes one copy of it out of the multiset. */
  lemma RemoveAt(b: seq<ColourQty>, k: nat)
    requires k < |b|
    ensures |b[..k] + b[k + 1..]| == |b| - 1
    ensures multiset(b[..k] + b[k + 1..]) == multiset(b) - multiset{b[k]}
  {
    assert b == b[..k] + [b[k]] + b[k + 1..];
    assert multiset(b) == multiset(b[..k]) + multiset{b[k]} + multiset(b[k + 1..]);
  }

  /**
   * `sort_values(ascending=False)` on the quantity: a rearrangement of the
   * rows with quantities non-increasing. The library's sort is not stable,
   * so this is one of the orders it may produce; which tied row comes first
   * is not specified, and every rearrangement with these two properties has
   * the same quantity column (QuantitiesDetermined).
   */
  function SortByQuantity(s: seq<ColourQty>): (r: seq<ColourQty>)
    ensures NonIncreasing(r)
    ensures multiset(r) == multiset(s)
  {
    if s == [] then []
    else
      assert s == [s[0]] + s[1..];
      InsertDescending(s[0], SortByQuantity(s[1..]))
  }

  /** The displayed table of model m. */
  function DisplayTable(rows: seq<Record>, m: string): (r: seq<ColourQty>)
    ensures NonIncreasing(r)
    ensures multiset(r) == multiset(Project(Filter(rows, m)))
    ensures |r| == |Filter(rows, m)|
  {
    var p := Project(Filter(rows, m));
    var r := SortByQuantity(p);
    assert |r| == |multiset(r)| == |multiset(p)| == |p|;
    r
  }

  /** The quantity column of a displayed table. */
  function Quantities(s: seq<ColourQty>): (q: seq<int>)
    ensures |q| == |s|
    ensures forall i :: 0 <= i < |s| ==> q[i] == s[i].quantity
  {
    if s == [] then [] else [s[0].quantity] + Quantities(s[1..])
  }

  /** The sum of the quantity column of a displayed table. */
  function DisplaySum(s: seq<ColourQty>): int
  {
    if s == [] then 0 else s[0].quantity + DisplaySum(s[1..])
  }

  lemma {:induction false} DisplaySumAppend(a: seq<ColourQty>, b: seq<ColourQty>)
    ensures DisplaySum(a + b) == DisplaySum(a) + DisplaySum(b)
  {
    if a == [] {
      assert a + b == b;
    } else {
      assert (a + b)[0] == a[0] && (a + b)[1..] == a[1..] + b;
      DisplaySumAppend(a[1..], b);
    }
  }

  lemma SumRemoveAt(b: seq<ColourQty>, k: nat)
    requires k < |b|
    ensures DisplaySum(b) == DisplaySum(b[..k] + b[k + 1..]) + b[k].quantity
  {
    var head, tail := b[..k], [b[k]] + b[k + 1..];
    assert b == head + tail;
    assert tail[0] == b[k] && tail[1..] == b[k + 1..];
    calc {
      DisplaySum(b);
      { DisplaySumAppend(head, tail); }
      DisplaySum(head) + DisplaySum(tail);
      DisplaySum(head) + b[k].quantity + DisplaySum(b[k + 1..]);
      { DisplaySumAppend(head, b[k + 1..]); }
      DisplaySum(head + b[k + 1..]) + b[k].quantity;
    }
  }

  /** Rearranging rows does not change their quantity sum. */
  lemma {:induction false} PermutationKeepsSum(a: seq<ColourQty>, b: seq<ColourQty>)
    requires multiset(a) == multiset(b)
    ensures DisplaySum(a) == DisplaySum(b)
    decreases |a|
  {
    if a == [] {
      assert |b| == |multiset(b)| == 0;
    } else {
      assert a[0] in multiset(b);
      var k :| 0 <= k < |b| && b[k] == a[0];
      RemoveAt(b, k);
      SumRemoveAt(b, k);
      assert a == [a[0]] + a[1..];
      assert multiset(a) == multiset{a[0]} + multiset(a[1..]);
      PermutationKeepsSum(a[1..], b[..k] + b[k + 1..]);
    }
  }

  lemma {:induction false} ProjectKeepsSum(rows: seq<Record>)
    ensures DisplaySum(Project(rows)) == Sum(rows)
  {
    if rows != [] {
      ProjectKeepsSum(rows[1..]);
    }
  }

  /**
   * The displayed table of a model has as many rows as the model has, and
   * its quantities add up to the model's grand total.
   */
  lemma DisplayMatchesTotal(rows: seq<Record>, m: string)
    ensures |DisplayTable(rows, m)| == |Filter(rows, m)|
    ensures DisplaySum(DisplayTable(rows, m)) == ModelTotal(rows, m)
  {
    PermutationKeepsSum(DisplayTable(rows, m), Project(Filter(rows, m)));
    ProjectKeepsSum(Filter(rows, m));
  }

  /** Two non-increasing rearrangements of the same rows start with the same quantity. */
  lemma HeadsAgree(a: seq<ColourQty>, b: seq<ColourQty>)
    requires multiset(a) == multiset(b) && a != [] && b != []
    requires NonIncreasing(a) && NonIncreasing(b)
    ensures a[0].quantity == b[0].quantity
  {
    assert a[0] in multiset(b);
    var k :| 0 <= k < |b| && b[k] == a[0];
    assert b[0] in multiset(a);
    var h :| 0 <= h < |a| && a[h] == b[0];
    assert b[0].quantity >= b[k].quantity && a[0].quantity >= a[h].quantity;
  }

  lemma NonIncreasingRemoveAt(b: seq<ColourQty>, k: nat)
    requires k < |b| && NonIncreasing(b)
    ensures NonIncreasing(b[..k] + b[k + 1..])
  {
    var rest := b[..k] + b[k + 1..];
    forall i, j | 0 <= i < j < |rest| ensures rest[i].quantity >= rest[j].quantity {
      var i' := if i < k then i else i + 1;
      var j' := if j < k then j else j + 1;
      assert rest[i] == b[i'] && rest[j] == b[j'];
    }
  }

  /**
   * Taking out a row that ties with the first leaves the same quantity
   * column as taking out the first.
   */
  lemma TiedRemoval(b: seq<ColourQty>, k: nat)
    requires k < |b| && NonIncreasing(b) && b[k].quantity == b[0].quantity
    ensures Quantities(b[..k] + b[k + 1..]) == Quantities(b[1..])
  {
    var rest := b[..k] + b[k + 1..];
    forall i | 0 <= i < |rest| ensures rest[i].quantity == b[1..][i].quantity {
      if i < k {
        assert rest[i] == b[i] && b[1..][i] == b[i + 1];
        assert b[0].quantity >= b[i].quantity >= b[k].quantity;
        assert b[0].quantity >= b[i + 1].quantity >= b[k].quantity;
      } else {
        assert rest[i] == b[i + 1];
      }
    }
  }

  /**
   * Ties may be shown in any order, but the quantity column is the same for
   * every non-increasing rearrangement of the same rows.
   */
  lemma {:induction false} QuantitiesDetermined(a: seq<ColourQty>, b: seq<ColourQty>)
    requires multiset(a) == multiset(b)
    requires NonIncreasing(a) && NonIncreasing(b)
    ensures Quantities(a) == Quantities(b)
    decreases |a|
  {
    assert |a| == |multiset(a)| == |multiset(b)| == |b|;
    if a != [] {
      HeadsAgree(a, b);
      assert a[0] in multiset(b);
      var k :| 0 <= k < |b| && b[k] == a[0];
      RemoveAt(b, k);
      NonIncreasingRemoveAt(b, k);
      assert a == [a[0]] + a[1..];
      assert multiset(a) == multiset{a[0]} + multiset(a[1..]);
      QuantitiesDetermined(a[1..], b[..k] + b[k + 1..]);
      TiedRemoval(b, k);
      assert Quantities(a) == [a[0].quantity] + Quantities(a[1..]);
      assert Quantities(b) == [b[0].quantity] + Quantities(b[1..]);
    }
  }
}
