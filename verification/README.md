# Data-access layer of RE_ETL: the pure core of `utils/pgfunctions.py`

`utils/pgfunctions.py` is the PostgreSQL helper module of a stock-data ETL
project. Most of it opens connections and forwards SQL to the driver. This
project models, in Dafny, the deterministic logic buried inside it:

- **SQL text builders.** The module `SqlText` covers four pieces of text:
  - the `%s` placeholder list and the `INSERT` statement of `df_db` and `df_columns_db`;
  - the quoted `IN (...)` list of `get_symbol_df`;
  - the select list `str1` of `get_new_df`;
  - the per-column range predicate `str2` of `get_new_df`.

  Python's `%` operator is modelled in `PyFormat`, for the `%s` and `%%` directives only.
- **Row handling.** The row projection of `df_columns_db` is in `BulkInsert`. The
  deduplication filter of `get_new_df` is in `Dedup`. That filter checks a range,
  fetches the stored keys and left-anti-joins the dataframe against them.
- **Result interpretation.** The module `Results` covers `column`, `max_t` and
  `whether_data`, plus the effect of `clear_table`.
- **The decline heuristic** of `find_valid_symbol_bymodel` is in `Heuristic`. It:
  - reverses the stored day offsets;
  - samples a newest-first price series at partial sums of the offsets;
  - accepts a symbol when the sampled prices strictly decrease.

Dataframes are modelled as column labels plus rows of cells. A cell is a
number or a text (`Frames`). Cells are ordered as follows:
- numbers compare numerically;
- texts compare code point by code point;
- every number comes before every text.

The database is described only by what each query returns. Examples:
- `select count(*) ... where wh` returns the number of table rows passing `wh`;
- `select ... order by series desc limit 1` returns one row of the symbol with the largest series.

Prices are integers.

## Model

| member | source | states |
|---|---|---|
| `SqlText.BuildPlaceholders` | utils/pgfunctions.py:294-299 | the loop that writes the first token bare and every later one after a comma yields exactly n copies of the token joined by single commas |
| `SqlText.PlaceholderShape` | utils/pgfunctions.py:412-417 | the `%s` list for n columns has length 3n-1 (empty for n = 0); position i holds `%`, `s`, `,` as i mod 3 is 0, 1, 2; it starts with `%` and ends with `s`, so there is no leading or trailing comma |
| `PyFormat.FormatEscape` | utils/pgfunctions.py:301 | in a `%`-formatted template, `%%` becomes one `%` and consumes no argument |
| `PyFormat.FormatDirective` | utils/pgfunctions.py:301 | `%s` consumes exactly one argument and inserts it verbatim |
| `SqlText.EscapedPlaceholdersFormat` | utils/pgfunctions.py:297-301 | the `%%s` placeholder list of `df_db` formats to the plain `%s` list, whatever follows it |
| `SqlText.TwoSlotTemplateFormats` | utils/pgfunctions.py:300-301 | a template with two `%s` slots around `%`-free text and an escaped placeholder list formats successfully: the two arguments are spliced in and the list is unescaped |
| `SqlText.DfDbStatement` | utils/pgfunctions.py:292-301 | `df_db`'s formatting step never fails and yields `INSERT INTO table(c1,...,cn) VALUES(%s,...,%s)` with one `%s` per column |
| `SqlText.DfColumnsStatement` | utils/pgfunctions.py:412-419 | `df_columns_db` builds the same statement as `df_db` for the same table and columns |
| `SqlText.SymbolInList` | utils/pgfunctions.py:341-345 | for a non-empty list, the IN clause is `(` + the quoted symbols joined by `,` + `)`, with the trailing comma removed; for an empty list it is `)` |
| `SqlText.InListRoundTrip` | utils/pgfunctions.py:341-345 | the IN clause of a non-empty list of quote-free symbols reads back as exactly that list, in order |
| `SqlText.RangeQueryText` | utils/pgfunctions.py:458-471 | the select list is the condition columns joined by commas; the predicate is one `col>='min' and col<='max' ` conjunct per condition column, in order, joined by `and ` |
| `Frames.SeriesMin` | utils/pgfunctions.py:463 | the minimum is one of the column's cells and is below or equal to all of them |
| `Frames.SeriesMax` | utils/pgfunctions.py:462 | the maximum is one of the column's cells and is above or equal to all of them |
| `Frames.ColumnRange` | utils/pgfunctions.py:461-463 | there are no bounds exactly for an empty dataframe; otherwise every cell of the column lies between them |
| `Dedup.DataFrameRowsInBounds` | utils/pgfunctions.py:461-467 | every dataframe row satisfies the range predicate built from the dataframe's own min and max |
| `Dedup.GetNewDf` | utils/pgfunctions.py:472-483 | the result has the dataframe's columns and a subsequence of its rows; when no table row satisfies the range predicate, the dataframe comes back unchanged |
| `Dedup.RangeTextTestsBounds` | utils/pgfunctions.py:461-470 | the `str2` conjunct for condition column j quotes the rendered minimum and maximum of that dataframe column, the very pair the range test compares against, and `nan` twice for an empty dataframe |
| `Dedup.StoredKeyIsFetched` | utils/pgfunctions.py:472-474 | a dataframe key that is stored anywhere in the table is among the keys the range-restricted `select` fetches |
| `Dedup.GetNewDfIsAntiJoin` | utils/pgfunctions.py:472-483 | when the database orders keys as the dataframe's `min`/`max` do (numeric and date keys, and text keys under a code-point collation), the result rows are exactly the dataframe rows whose key tuple over `condition` is stored nowhere in the table, in their original order: the range pre-check never hides a match |
| `Dedup.GetNewDfKeysAreNew` | utils/pgfunctions.py:478-481 | no result row has a stored key, and every dataframe row with an unstored key is in the result |
| `Dedup.GetNewDfDropsStoredRows` | utils/pgfunctions.py:472-483 | a dataframe made of rows whose keys are all stored, followed by rows whose keys are all new, comes back as exactly the new rows |
| `BulkInsert.ColumnValueLists` | utils/pgfunctions.py:405-411 | one value list per dataframe row, in row order; each has one entry per named column, and entry j is that row's cell in column `columns[j]` |
| `BulkInsert.AllColumnsMatchesWholeRows` | utils/pgfunctions.py:290 | naming every column of a well-formed dataframe in its own order gives the same parameter rows as `df_db`'s whole-row tuples |
| `BulkInsert.ProjectThenProject` | utils/pgfunctions.py:405-411 | projecting the inserted value lists onto a sub-list of the columns gives the dataframe's own cells for those columns |
| `Results.ColumnResult` | utils/pgfunctions.py:137-141 | `column` is `None` exactly when nothing was fetched, and otherwise the fetched rows unchanged |
| `Results.ColumnNoneIffEmpty` | utils/pgfunctions.py:128-141 | when the query succeeds, reading a column gives `None` exactly for a table without rows, and otherwise one row per table row (a failing query also gives `None`; see below) |
| `Results.ClearTable` | utils/pgfunctions.py:191 | `delete ... where 1=1` keeps the columns and leaves no rows |
| `Results.ColumnAfterClear` | utils/pgfunctions.py:191 | reading any column of a cleared table gives `None` |
| `Results.MaxT` | utils/pgfunctions.py:166-170 | `max_t` gives 0 when nothing was fetched and otherwise field 6 of the first fetched row |
| `Results.MaxTOfLatest` | utils/pgfunctions.py:162-170 | `max_t` is 0 for a symbol without rows; otherwise it is field 6 of a row of that symbol whose series is the largest among the symbol's rows |
| `Results.WhetherData` | utils/pgfunctions.py:444-447 | `whether_data` is false exactly when the fetched count is 0 |
| `Results.WhetherDataIffMatch` | utils/pgfunctions.py:442-447 | `whether_data` is true exactly when some table row satisfies the condition, that is, when the count is not 0 |
| `Heuristic.Lookback` | utils/pgfunctions.py:367 | the day shift `~(sum(algorithm) + 15) + 1` equals `-(sum(algorithm) + 15)` |
| `Heuristic.LookbackIgnoresOrientation` | utils/pgfunctions.py:366-373 | the fetch window is the same whichever way round the offsets currently stand |
| `Heuristic.SampleIndexStep` | utils/pgfunctions.py:374-376 | sample position 0 is 0, and position i+1 is position i plus `a[i+1]` |
| `Heuristic.StrictlyDecreasingIffDescending` | utils/pgfunctions.py:378-385 | comparing each price with the one before it is the same as requiring every later price to lie strictly below every earlier one |
| `Heuristic.CheckSymbol` | utils/pgfunctions.py:374-388 | the symbol is accepted exactly when the sampled prices strictly decrease (strict `<`); on rejection, the scan stopped at the first sample that is not below its predecessor, and all samples before it decrease |
| `Heuristic.SymbolOutcome` | utils/pgfunctions.py:372-391 | one candidate's body raises exactly when there are no offsets or a sample position is outside the series; otherwise it reports whether the symbol is accepted |
| `Heuristic.AsWrittenAlternates` | utils/pgfunctions.py:372-373 | because the list is aliased and reversed in place per candidate, even-numbered candidates see the reversed offsets and odd-numbered ones the stored order |
| `Heuristic.PickIsSubsequence` | utils/pgfunctions.py:386-388 | the returned symbols are a subsequence of the candidates |
| `Heuristic.PickKeepsAccepted` | utils/pgfunctions.py:386-388 | every accepted candidate is returned |
| `Heuristic.PickOnlyAccepted` | utils/pgfunctions.py:386-391 | only accepted candidates are returned |
| `Heuristic.FindValidSymbols` | utils/pgfunctions.py:364-393 | the call fails exactly when some candidate's body raises; otherwise it returns the candidates accepted under the alternating offsets, in order |
| `Heuristic.AlternationCounterexample` | utils/pgfunctions.py:372-381 | with offsets [3, 5], two symbols with identical prices get different verdicts as written; checked against the reversed offsets, both are accepted |
| `Heuristic.FindValidSymbolsFixed` | utils/pgfunctions.py:364-393 | with the reversed offsets used for every candidate, the call fails exactly when some body raises, and otherwise returns the accepted candidates in order |
| `Heuristic.FixedSelectionAppend` | utils/pgfunctions.py:364-393 | with one offset order for every candidate, a symbol's verdict does not depend on its place in the list: selecting from two lists in turn is selecting from their concatenation |

## Left out

- Connections, cursors, `commit`/`rollback`, `sys.exit`, and the `executemany` and `execute` calls. These are driver I/O. The model ends at the statement text and the parameter rows.
- The bodies of `execute_sql`, `execute_sql_not_return`, `execute_insert_sql`, `pg_to_sql` and `pg_to_sql_company_profile`. They pass SQL through to the database.
- CSV cleanup and header injection, logging (`oth.log`) and SMS alerts. These belong to collaborators that are not part of this model.
- pandas `read_sql`, `to_sql` and `to_datetime`. Date keys are taken to be already normalised into cells on both sides. The source converts only a condition column literally named `date` (lines 475-477), and only on the table side (`df_db`). A date key under another name, such as `dt` of `stock_candles_day` (lines 362 and 368), is merged unconverted, and whether it then matches depends on pandas' dtypes. The dataframe `merge(..., indicator=...)` is modelled by its result, the left-anti-join.
- `eval` of the stored algorithm string. The offsets are an already-parsed integer list.
- `time.strftime`, `dateint_stamp` and `add_dateint`. Each candidate's newest-first price series is an input, and so is the candidate list (`limit 15`). The SQL text of those queries is not modelled.
- Floating-point prices. Prices are integers, which keeps the strict-`<` comparison exact.
- The f-string SQL of `column`, `max_t`, `whether_data`, `clear_table` and `get_symbol_df`, beyond the IN list. Each query is described by what it returns.
- The database's collation and its comparison of quoted literals against typed columns. The range predicate is evaluated with the cell order above.
- `Dedup.GetNewDfIsAntiJoin` holds for numeric and date keys, and for text keys under a code-point (C) collation. Under a linguistic collation such as en_US.UTF-8 it can fail. Take dataframe text keys "a" and "B": pandas gives min "B" and max "a", while the collation sorts "a" before "B". So `k>='B' and k<='a' ` (line 466) matches no table row, `whether_data` is false, and the dataframe comes back unchanged, even with an "a" row already stored.
- Mixed-type columns. pandas raises on `min`/`max` over numbers and texts together; the cell order places numbers first instead.
- `PyFormat.Format` supports only the `%s` and `%%` directives, the only ones the module uses.
- `Dedup.GetNewDf` requires a non-empty `condition`. With none, the source sends `... where ` to the database, which is an SQL error rather than a result.
- `Dedup.GetNewDf`: for an empty dataframe the model returns the empty dataframe, but the source raises for integer and date keys. There `df[i].max()` is NaN or NaT, so line 466 sends `t>='nan' and t<='nan' ` to the database. PostgreSQL rejects that literal for an integer or date column, `execute_sql` returns `None` (line 65), and `whether_data` raises `TypeError` on `None[0][0]` (line 444). The model has no NaN cell and treats no table row as in bounds.
- `Dedup.GetNewDf` requires every condition column in the dataframe and in the table. In the source, a column missing from the dataframe raises `KeyError` at `df[i]` (line 462). A column missing from the table makes the count query fail, so line 444 raises `TypeError`.
- `Dedup.GetNewDf` returns the anti-join even when a text key contains `'`. The source splices bounds into the SQL unquoted (lines 466 and 469), so `symbol>='O'NEIL'` is malformed SQL and ends in the same `TypeError` at line 444.
- `Dedup.GetNewDf` returns the anti-join even when a dataframe column is named `i`. That name collides with `indicator='i'` at line 478, where pandas raises `ValueError`.
- `Results.MaxTOfLatest` requires the table to have more than 6 columns. The source's `results[0][6]` (line 170) raises `IndexError` for a narrower table. The model also describes only a well-formed query: `cursor.execute` at line 163 has no `try`, so a malformed query, for example a symbol containing `'`, raises to the caller.
- `Results.WhetherDataIffMatch` assumes the count query succeeds. For a condition `wh` the database rejects, `execute_sql` returns `None` (line 65) and line 444 raises `TypeError` on `None[0][0]`; `Results.WhetherData` requires a fetched row and so has no such case.
- `BulkInsert.ColumnValueLists` does not model a repeated column label. With one, `rows[name]` (line 409) is a Series rather than a cell, `executemany` (line 423) cannot adapt it, and the call rolls back and returns `None` (lines 425-430). The model instead takes the first cell of that label.
- `Dedup.GetNewDf` does not model a repeated condition label. With one, `df[i]` (line 462) is a two-column frame, and `max()`/`min()` return Series whose multi-line text is quoted into `str2`. For an integer or date key the count query then fails and line 444 raises `TypeError`. Whenever the count is non-zero, `merge` (line 478) raises `ValueError` on the non-unique key. The model instead returns the anti-join over the first column of that label.
- `Results.ColumnNoneIffEmpty` covers only a query that succeeds. In the source, `column` also returns `None` when the query fails (lines 129-135), for example for a `col` that is not a column of the table. So in the source `None` means "empty or failed"; the model's `requires col in table.columns` leaves the failure out.
- `BulkInsert.ColumnValueLists` requires every named column in the dataframe. In the source, a missing one raises `KeyError` at `rows[column_name]` (line 409). That is before the `try` at line 422, so the error reaches the caller.
- `SqlText.RangeQueryText` takes each condition column's `(min, max)` pair as input; inside the source loop, `df[i].max()` and `df[i].min()` compute it. `Dedup.GetNewDf` evaluates the range predicate as the semantic test `RowInBounds`, not by parsing the text. `Dedup.RangeTextTestsBounds` links the two: for `Dedup.Bounds`, the text quotes exactly the pair the test compares against.
- `Results.IsColumnQueryResult` describes `order by` with the cell order and the fetched cells as a permutation of the column. Ties between equal cells are not ordered further.
- Line 381 of the heuristic compares with strict `<`, so two equal neighbouring samples reject the symbol. The model follows this: `Heuristic.CheckSymbol` accepts only strictly decreasing samples.
- `SqlText.SymbolInList` models the empty list too. Lines 341-345 build `)` without error, so no precondition excludes it. The query `... and symbol in ) ` that `get_symbol_df` then sends is malformed, and `pd.read_sql` at line 348 raises with no handler. That call is outside this model.
- `Frames.Value` has no NULL or NaN cell, because the model is about the well-formed rows the loaders write. Two effects of such cells are not modelled. pandas `min` and `max` (lines 462-463) skip NaN. `order by series desc` (line 162) puts NULLs first in PostgreSQL.
- `Results.MaxTOfLatest` assumes no row of the symbol has a NULL series. If one does, `max_t` returns field 6 of that row rather than of the row with the largest series.

## Findings

| source | as written | input that shows it | evidently intended | confidence | as-written member | corrected member |
|---|---|---|---|---|---|---|
| utils/pgfunctions.py:372-373 | `a = algorithm` aliases the offset list, so `a.reverse()` reverses the stored list in place once per candidate; every second candidate is sampled with the offsets in their stored order | offsets [3, 5] and two candidates "A" and "B", each with newest-first prices 10, 10, 10, 9, 10, 11: "A" samples rows 0 and 3 (10, 9: accepted), "B" samples rows 0 and 5 (10, 11: rejected), so the call returns ["A"] | every candidate is checked against the reversed offsets, so a symbol's verdict does not depend on its position and the call returns ["A", "B"] | medium-high; not executed | `Heuristic.FindValidSymbols` (exhibited by `Heuristic.AlternationCounterexample`) | `Heuristic.FindValidSymbolsFixed` (position independence proved by `Heuristic.FixedSelectionAppend`) |
