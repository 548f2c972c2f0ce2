# Sales summary dashboard: a verified model of its data pipeline

`app.py` is a one-page dashboard over a processed sales summary. The summary
file `processed_sales_summary.csv` has one row per model and colour, with the
columns "model" (الموديل), "colour" (اللون) and "total quantity" (العدد الكلي).
The page loads that table and casts the quantity column to integers. It then
offers the distinct models, sorted, in a drop-down. For the chosen model it
shows the model's rows as a colour/quantity table, sorted by descending
quantity, together with the model's grand total.

This project models that pipeline as pure functions over sequences and proves
what each step promises:

- `SalesTable` covers `load_data`. A missing file gives an empty table and the
  error notice. A present file gives its rows with integer quantities, or the
  uncaught cast error. Each quantity cell is cast the way `astype(int)` casts
  it: a whole number stays, a fraction is truncated toward zero, a text cell is
  read as an integer literal, and an empty cell (NaN) raises.
- `TextOrder` is Python's ordering of strings (code point by code point, a
  proper prefix first), proved a strict total order.
- `ModelList` covers `sorted(df['model'].unique().tolist())`. The result is
  strictly ascending (so it has no duplicates) and holds exactly the models
  that occur. A strictly ascending list is determined by its elements, so the
  result does not depend on the order in which `unique()` reports them.
- `Selection` covers the boolean-mask filter and `.sum()`. The filter keeps
  exactly the rows of the selected model, with their multiplicities and in
  table order. A model is offered exactly when it selects at least one row.
  Added up over the model list, the per-model totals give the sum of the whole
  table.
- `Display` covers the projection to colour and quantity and
  `sort_values(ascending=False)`. The displayed table is a non-increasing
  rearrangement of the projected rows. Its length and quantity sum are those
  of the filtered rows, and its sum equals the model total. The order of tied
  rows is not fixed, but every non-increasing rearrangement has the same
  quantity column.
- `Dashboard` puts the steps together in the order the script runs them. An
  empty table shows only the prompt, and no model list, filter, total or
  display is computed. A non-empty table offers the model list. A non-empty
  selected value gets its summary (the `if selected_model:` test).

`app.py` reads a summary that is already processed: it does no reshaping of
the file and no grouping, and the displayed table is the model's rows as they
are. A quantity that is a blank cell or text that is not an integer makes the
cast raise, and `load_data` does not catch it; a fractional number is
truncated toward zero.

## Model

| member | source | states |
|---|---|---|
| `SalesTable.CastCell` | app.py:18 | casting a quantity cell: a whole number is kept, a fraction gives the quotient rounded toward zero, a text cell gives its integer reading, an empty (NaN) cell fails |
| `SalesTable.ParseInt` | app.py:18 | a text cell is accepted exactly when it is decimal digits, optionally after one sign, and its value is the value of those digits, negated after a minus sign |
| `SalesTable.ParseShowInt` | app.py:18 | reading back the text of any integer gives that integer |
| `SalesTable.TruncDiv` | app.py:18 | a fractional quantity is truncated toward zero: the remainder has the sign of the value and is smaller than the divisor |
| `SalesTable.CastColumn` | app.py:18 | the cast succeeds exactly when every cell casts; on success every row keeps its model and colour and gets its cell's integer value; on failure the error names a cell of the column that does not cast |
| `SalesTable.LoadData` | app.py:13-22 | a missing file gives an empty table with the error notice; a present file loads without the notice, keeps its row count, models and colours, gives each row its cell's cast quantity, and fails exactly when some quantity does not cast |
| `TextOrder.BelowIrreflexive` | app.py:32 | no string sorts before itself |
| `TextOrder.BelowTransitive` | app.py:32 | the string order is transitive |
| `TextOrder.BelowTotal` | app.py:32 | of two different strings one sorts before the other |
| `ModelList.Unique` | app.py:32 | `unique()` has no repeated value and holds exactly the values of the column |
| `ModelList.SortAscending` | app.py:32 | `sorted()` gives an ascending rearrangement of its input |
| `ModelList.DistinctPermutation` | app.py:32 | sorting a list without repetitions gives a list without repetitions |
| `ModelList.Models` | app.py:32 | the model list is strictly ascending (sorted and duplicate-free) and a model is in it exactly when some row has that model |
| `ModelList.StrictlyAscendingUnique` | app.py:32 | two strictly ascending lists with the same elements are equal, so the model list is determined by the set of models |
| `Selection.Filter` | app.py:46 | a row is in the filtered table exactly when it is in the table and has the selected model |
| `Selection.FilterCounts` | app.py:46 | the filtered table holds each row of the selected model as many times as the table does, and no other row |
| `Selection.FilterAppend` | app.py:46 | the filter keeps table order: filtering a concatenation concatenates the filtered parts |
| `Selection.OfferedIffSelected` | app.py:32-46 | a model is offered exactly when its filtered table is non-empty; a model not offered totals zero |
| `Selection.ModelTotal` | app.py:49 | the model's total, the sum of its filtered table, equals the sum over the whole table of the quantities of that model's rows |
| `Selection.FilterSumIsQuantityOf` | app.py:46-49 | summing the filtered table gives the same as adding up, row by row, the quantities that belong to the model |
| `Selection.TotalsPartitionTable` | app.py:49 | the model totals, added up over the model list, equal the sum of all quantities: no row is lost or counted twice |
| `Selection.CoveredRowsPartition` | app.py:49 | over any duplicate-free list of models that covers every row, the per-model totals add up to the table's sum |
| `Display.Project` | app.py:57 | the projection keeps every row, in order, with just its colour and quantity |
| `Display.SortByQuantity` | app.py:57 | the sort gives a rearrangement of its rows whose quantities are non-increasing |
| `Display.DisplayTable` | app.py:57 | the displayed table is a non-increasing rearrangement of the selected rows' colours and quantities, with as many rows as the selection |
| `Display.PermutationKeepsSum` | app.py:57 | rearranging rows keeps their quantity sum |
| `Display.DisplayMatchesTotal` | app.py:49-57 | the displayed table has the filtered table's length and its quantities add up to the model total |
| `Display.QuantitiesDetermined` | app.py:57 | any two non-increasing rearrangements of the same rows have the same quantity column, so only the order of ties is left open |
| `Dashboard.Summarise` | app.py:44-57 | the summary holds exactly the rows of the model, a total equal to their sum, and a non-increasing display that rearranges them and adds up to the total; the rows are non-empty exactly when the model is offered |
| `Dashboard.Page` | app.py:27-74 | an empty table shows only the prompt; otherwise the options are the non-empty model list, and a summary is shown exactly when the selected value is non-empty |
| `Dashboard.Run` | app.py:24-41 | a missing file shows the error notice and the prompt only; a present file runs the page exactly when every quantity casts, and then shows the page of the loaded table for the selected value, which reaches the drop-down only when the file has rows |

## Left out

- The Streamlit rendering (page setup, titles, headers, the data frame widget, the HTML total with thousands separators, the bar chart, the caption and the info text) is user interface without logic. `Dashboard.Body` only records which part of the page is shown.
- The `st.cache_data` memoisation is a framework cache; `load_data` is modelled as a function of the file.
- Reading and parsing the CSV file is input/output in a foreign library. The file is given as missing or as its rows, each quantity as the raw cell the reader produced. A file without one of the three columns, which raises a key error, is not modelled. The reader gives a whole column one kind (integer, float or text); the model takes each cell's kind as given and assumes the cells of a file share their column's kind, so a file mixing a fraction cell with text cells does not arise in the source.
- The drop-down interaction is not modelled: the selected value is an input. Streamlit only returns one of the offered models, and `Dashboard.Summarise` states what happens for an offered model.
- ModelList.Unique: the order of first appearance that `unique()` keeps is not stated, only that each model appears once; the options are sorted afterwards, and `ModelList.StrictlyAscendingUnique` shows that this order cannot change them.
- A missing model value (NaN) in the model column is not modelled; models are strings. A model column whose every value is a numeral is read by the CSV reader as integers; then `sorted` orders the models as numbers rather than by `TextOrder.Below`, and `if selected_model:` is false for a model 0. Such a numeric model column is not modelled.
- SalesTable.CastCell, SalesTable.ParseInt: Python's `int()` also accepts surrounding whitespace, underscores between digits and non-ASCII decimal digits in a text cell; the model accepts an optional sign and ASCII digits only. A fractional cell is an exact decimal, not a binary floating-point number, and infinite or out-of-range values are not modelled.
- Selection.ModelTotal, Dashboard.Summarise: quantities and totals are unbounded integers; the 64-bit wrap-around of a pandas integer sum is not modelled, since a summed quantity would have to exceed 2^63 - 1.
- Display.SortByQuantity: the library's descending sort does not promise an order for tied rows. The model sorts by insertion, one of the orders it may produce, and `Display.QuantitiesDetermined` proves that every allowed order has the same quantity column.
