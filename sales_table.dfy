/**
 * The processed sales summary and its loading (`load_data`).
 *
 * The summary has one row per (model, colour) pair with the columns
 * "model" (الموديل), "colour" (اللون) and "total quantity" (العدد الكلي).
 * Reading the CSV file is left out: the file is given either as missing or
 * as the rows the reader produced, each quantity still a raw cell. Loading
 * casts every quantity to an integer, the way `astype(int)` does.
 */
module SalesTable {
  import opened Wrappers

  /** A row of the loaded table; the quantity has been cast to an integer. */
  datatype Record = Record(model: string, colour: string, quantity: int)

  /** A quantity cell as the CSV reader hands it over. */
  datatype Cell =
    | Whole(n: int)                        // a cell of an integer column
    | Fraction(mantissa: int, scale: nat)  // a cell of a float column: mantissa / 10^scale
    | Text(s: string)                      // a cell of a text (object) column
    | Blank                                // an empty cell, read as NaN

  /** A row as read from the file, before the quantity is cast. */
  datatype RawRecord = RawRecord(model: string, colour: string, quantity: Cell)

  /** The outcome of opening "processed_sales_summary.csv". */
  datatype CsvFile = NotFound | Found(rows: seq<RawRecord>)

  /** The exception `astype(int)` raises; it is not caught by `load_data`. */
  datatype LoadError = NotAnInteger(cell: Cell)

  /**
   * What `load_data` returns: the table, and whether the "file not found"
   * error notice was shown.
   */
  datatype Loaded = Loaded(frame: seq<Record>, fileMissing: bool)

  function Pow10(k: nat): (p: nat)
    ensures p >= 1
  {
    if k == 0 then 1 else 10 * Pow10(k - 1)
  }

  /** q is m / d rounded toward zero: q * d lies between 0 and m, less than d away from m. */
  ghost predicate TowardZero(m: int, d: int, q: int)
  {
    if m >= 0 then 0 <= m - q * d < d else -d < m - q * d <= 0
  }

  /** Integer division rounding toward zero, as a C cast of a float does. */
  function TruncDiv(m: int, d: nat): (q: int)
    requires d > 0
    ensures TowardZero(m, d, q)
  {
    if m >= 0 then m / d else -((-m) / d)
  }

  predicate IsDigit(c: char)
  {
    '0' <= c <= '9'
  }

  predicate AllDigits(s: string)
  {
    forall i :: 0 <= i < |s| ==> IsDigit(s[i])
  }

  /** The value of a string of decimal digits, most significant first. */
  function DigitsValue(s: string): (n: nat)
    requires AllDigits(s)
  {
    if s == [] then 0
    else 10 * DigitsValue(s[..|s| - 1]) + (s[|s| - 1] as int - '0' as int)
  }

  /**
   * Python's `int()` on a text cell, restricted to the part of its syntax
   * this model accepts: an optional sign followed by one or more ASCII
   * decimal digits; any other text is treated as raising.
   */
  function ParseInt(s: string): (r: Option<int>)
    ensures r.Some? <==> (
      || (|s| >= 1 && AllDigits(s))
      || (|s| >= 2 && (s[0] == '-' || s[0] == '+') && AllDigits(s[1..])))
    ensures r.Some? && AllDigits(s) ==> r.value == DigitsValue(s)
    ensures r.Some? && !AllDigits(s) ==> (
      && AllDigits(s[1..])
      && r.value == (if s[0] == '-' then -1 else 1) * DigitsValue(s[1..]))
  {
    if |s| >= 2 && s[0] == '-' && AllDigits(s[1..]) then Some(-(DigitsValue(s[1..]) as int))
    else if |s| >= 2 && s[0] == '+' && AllDigits(s[1..]) then Some(DigitsValue(s[1..]))
    else if |s| >= 1 && AllDigits(s) then Some(DigitsValue(s))
    else None
  }

  /** The decimal digits of a natural number, without leading zeros. */
  function ShowNat(n: nat): (s: string)
    ensures |s| > 0 && AllDigits(s)
  {
    if n < 10 then ['0' + n as char]
    else ShowNat(n / 10) + ['0' + (n % 10) as char]
  }

  /** The text Python's `str()` gives an integer. */
  function ShowInt(n: int): (s: string)
  {
    if n < 0 then "-" + ShowNat(-n) else ShowNat(n)
  }

  lemma {:induction false} DigitsOfShowNat(n: nat)
    ensures DigitsValue(ShowNat(n)) == n
  {
    if n >= 10 {
      var s := ShowNat(n);
      assert s[..|s| - 1] == ShowNat(n / 10);
      DigitsOfShowNat(n / 10);
    }
  }

  /** Reading back the text of an integer gives that integer. */
  lemma ParseShowInt(n: int)
    ensures ParseInt(ShowInt(n)) == Some(n)
  {
    if n < 0 {
      var s := ShowInt(n);
      assert s[1..] == ShowNat(-n);
      DigitsOfShowNat(-n);
    } else {
      DigitsOfShowNat(n);
    }
  }

  /** `astype(int)` on one cell: None where it raises. */
  function CastCell(c: Cell): (r: Option<int>)
    ensures c.Whole? ==> r == Some(c.n)
    ensures c.Fraction? ==> r.Some? && TowardZero(c.mantissa, Pow10(c.scale), r.value)
    ensures c.Text? ==> r == ParseInt(c.s)
    ensures c.Blank? ==> r.None?
  {
    match c
    case Whole(n) => Some(n)
    case Fraction(m, k) => Some(TruncDiv(m, Pow10(k)))
    case Text(s) => ParseInt(s)
    case Blank => None
  }

  /**
   * `df['total quantity'].astype(int)`: every row keeps its model and
   * colour and gets its cast quantity, or the whole cast raises on a cell
   * that cannot be cast.
   */
  function CastColumn(raw: seq<RawRecord>): (r: Result<seq<Record>, LoadError>)
    ensures r.Success? <==> forall i :: 0 <= i < |raw| ==> CastCell(raw[i].quantity).Some?
    ensures r.Success? ==> |r.value| == |raw|
    ensures r.Success? ==> forall i :: 0 <= i < |raw| ==>
      r.value[i] == Record(raw[i].model, raw[i].colour, CastCell(raw[i].quantity).value)
    ensures r.Failure? ==> CastCell(r.error.cell).None?
    ensures r.Failure? ==> exists i :: 0 <= i < |raw| && raw[i].quantity == r.error.cell
  {
    if raw == [] then Success([])
    else
      match CastCell(raw[0].quantity)
      case None => Failure(NotAnInteger(raw[0].quantity))
      case Some(q) =>
        match CastColumn(raw[1..])
        case Failure(e) => Failure(e)
        case Success(rest) => Success([Record(raw[0].model, raw[0].colour, q)] + rest)
  }

  /**
   * `load_data`: a missing file gives an empty table and the error notice;
   * a present file gives its rows with integer quantities, or the cast
   * error propagates.
   */
  function LoadData(f: CsvFile): (r: Result<Loaded, LoadError>)
    ensures f.NotFound? ==> r == Success(Loaded([], true))
    ensures r.Success? ==> (r.value.fileMissing <==> f.NotFound?)
    ensures f.Found? ==> (r.Success? <==> forall i :: 0 <= i < |f.rows| ==> CastCell(f.rows[i].quantity).Some?)
    ensures f.Found? && r.Success? ==> |r.value.frame| == |f.rows|
    ensures f.Found? && r.Success? ==> forall i :: 0 <= i < |f.rows| ==>
      r.value.frame[i].model == f.rows[i].model && r.value.frame[i].colour == f.rows[i].colour
    ensures f.Found? && r.Success? ==> forall i :: 0 <= i < |f.rows| ==>
      r.value.frame[i].quantity == CastCell(f.rows[i].quantity).value
  {
    match f
    case NotFound => Success(Loaded([], true))
    case Found(rows) =>
      match CastColumn(rows)
      case Failure(e) => Failure(e)
      case Success(frame) => Success(Loaded(frame, false))
  }
}
