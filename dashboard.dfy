/**
 * The page as a whole: load the table, and when it is not empty offer the
 * model list and summarise the selected model.
 */
module Dashboard {
  import opened Wrappers
  import opened SalesTable
  import opened ModelList
  import opened Selection
  import opened Display

  /** What the page shows for the selected model. */
  datatype Summary = Summary(model: string, rows: seq<Record>, total: int, display: seq<ColourQty>)

  /** The page below the error notice. */
  datatype Body =
    | LoadPrompt                                          // empty table: the info message, nothing computed
    | Picker(options: seq<string>, shown: Option<Summary>) // the drop-down, and the results for a chosen model

  /** The page, and whether the "file not found" error notice stands above it. */
  datatype Screen = Screen(fileNotFound: bool, body: Body)

  /**
   * The filtered rows, their total and the sorted colour table of model m:
   * exactly the rows of m, a total equal to their quantity sum, and a
   * display that rearranges their colours and quantities in non-increasing
   * order of quantity and adds up to the same total.
   */
  function Summarise(frame: seq<Record>, m: string): (s: Summary)
    ensures s.model == m
    ensures forall x :: x in s.rows <==> x in frame && x.model == m
    ensures forall x :: multiset(s.rows)[x] == if x.model == m then multiset(frame)[x] else 0
    ensures s.total == Sum(s.rows)
    ensures NonIncreasing(s.display)
    ensures multiset(s.display) == multiset(Project(s.rows))
    ensures |s.display| == |s.rows|
    ensures DisplaySum(s.display) == s.total
    ensures m in Models(frame) <==> s.rows != []
  {
    FilterCounts(frame, m);
    DisplayMatchesTotal(frame, m);
    OfferedIffSelected(frame, m);
    Summary(m, Filter(frame, m), ModelTotal(frame, m), DisplayTable(frame, m))
  }

  /**
   * The page for a loaded table and the value of the drop-down. An empty
   * table shows only the prompt; otherwise the options are the model list
   * and, when the selected value is not the empty string (the `if
   * selected_model:` test), its summary is shown.
   */
  function Page(frame: seq<Record>, selected: string): (b: Body)
    ensures b.LoadPrompt? <==> frame == []
    ensures b.Picker? ==> b.options == Models(frame) && b.options != []
    ensures b.Picker? ==> (b.shown.Some? <==> selected != "")
    ensures b.Picker? && b.shown.Some? ==> b.shown.value == Summarise(frame, selected)
  {
    if frame == [] then LoadPrompt
    else
      assert frame[0].model in Models(frame);
      Picker(Models(frame), if selected != "" then Some(Summarise(frame, selected)) else None)
  }

  /**
   * One run of the script: a missing file shows the error notice and the
   * prompt and computes nothing else; a file with an uncastable quantity
   * stops the script with the cast error.
   */
  function Run(f: CsvFile, selected: string): (r: Result<Screen, LoadError>)
    ensures f.NotFound? ==> r == Success(Screen(true, LoadPrompt))
    ensures f.Found? ==> (r.Success? <==> forall i :: 0 <= i < |f.rows| ==> CastCell(f.rows[i].quantity).Some?)
    ensures r.Success? ==> (r.value.fileNotFound <==> f.NotFound?)
    ensures r.Success? && r.value.body.Picker? ==> f.Found? && |f.rows| > 0
    ensures f.Found? && r.Success? ==> r.value.body == Page(CastColumn(f.rows).value, selected)
  {
    match LoadData(f)
    case Failure(e) => Failure(e)
    case Success(loaded) => Success(Screen(loaded.fileMissing, Page(loaded.frame, selected)))
  }
}
