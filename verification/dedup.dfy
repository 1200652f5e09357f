/** The deduplication filter `get_new_df`: drop from a dataframe the rows whose
    key (the values of the condition columns) is already stored in the table.

    The filter first bounds each key column by the dataframe's own minimum and
    maximum, asks the database whether any table row falls inside all bounds,
    and only then fetches those rows' keys and left-anti-joins the dataframe
    against them. The database's evaluation of the range predicate is modelled
    by comparing cells with the cell order. */
module Dedup {
  import opened Common
  import opened Frames
  import opened Results
  import opened SqlText

  /** The bounds of every condition column, in condition order. */
  function Bounds(df: Frame, condition: seq<string>): (bs: seq<Option<(Value, Value)>>)
    requires RowsOfWidth(df.rows, |df.columns|)
    requires HasColumns(df.columns, condition)
    ensures |bs| == |condition|
    ensures forall j :: 0 <= j < |condition| ==> bs[j] == ColumnRange(df, condition[j])
  {
    seq(|condition|, j requires 0 <= j < |condition| => ColumnRange(df, condition[j]))
  }

  /** Every cell of the key lies within its column's bounds. */
  predicate InBounds(key: Row, bounds: seq<Option<(Value, Value)>>)
  {
    && |key| == |bounds|
    && forall j :: 0 <= j < |key| ==>
         bounds[j].Some? && ValueLe(bounds[j].value.0, key[j]) && ValueLe(key[j], bounds[j].value.1)
  }

  /** A row (laid out by `columns`) that satisfies the range predicate. */
  predicate RowInBounds(columns: seq<string>, condition: seq<string>, bounds: seq<Option<(Value, Value)>>, row: Row)
  {
    && |row| == |columns|
    && HasColumns(columns, condition)
    && InBounds(ProjectRow(columns, row, condition), bounds)
  }

  function InBoundsTest(columns: seq<string>, condition: seq<string>, bounds: seq<Option<(Value, Value)>>): Row -> bool
  {
    row => RowInBounds(columns, condition, bounds, row)
  }

  /** A row (laid out by `columns`) whose key is not among `keys`. */
  predicate IsNewRow(columns: seq<string>, condition: seq<string>, keys: seq<Row>, row: Row)
  {
    && |row| == |columns|
    && HasColumns(columns, condition)
    && ProjectRow(columns, row, condition) !in keys
  }

  function NewRowTest(columns: seq<string>, condition: seq<string>, keys: seq<Row>): Row -> bool
  {
    row => IsNewRow(columns, condition, keys, row)
  }

  /** The left-anti-join: the dataframe rows whose key is not among `keys`, in order. */
  function AntiJoin(df: Frame, condition: seq<string>, keys: seq<Row>): seq<Row>
  {
    Filter(df.rows, NewRowTest(df.columns, condition, keys))
  }

  /** The keys of all rows of a table. */
  function KeysOf(table: Frame, condition: seq<string>): seq<Row>
    requires RowsOfWidth(table.rows, |table.columns|)
    requires HasColumns(table.columns, condition)
  {
    ProjectRows(table.columns, table.rows, condition)
  }

  /** `get_new_df`. The rows of `table` that satisfy the range predicate play
      the part of `select str1 from table where str2`; their count is what
      `whether_data` inspects. */
  function GetNewDf(table: Frame, df: Frame, condition: seq<string>): (r: Frame)
    requires RowsOfWidth(df.rows, |df.columns|) && RowsOfWidth(table.rows, |table.columns|)
    requires |condition| > 0
    requires HasColumns(df.columns, condition) && HasColumns(table.columns, condition)
    ensures r.columns == df.columns
    ensures IsSubsequence(r.rows, df.rows)
    ensures (forall k :: 0 <= k < |table.rows| ==>
               !RowInBounds(table.columns, condition, Bounds(df, condition), table.rows[k])) ==> r == df
  {
    var bounds := Bounds(df, condition);
    var overlap := Filter(table.rows, InBoundsTest(table.columns, condition, bounds));
    if WhetherData(CountResult(|overlap|)) then
      WhetherDataIffMatch(table.rows, InBoundsTest(table.columns, condition, bounds));
      assert forall k :: 0 <= k < |overlap| ==> |overlap[k]| == |table.columns| by {
        forall k | 0 <= k < |overlap| ensures |overlap[k]| == |table.columns| {
          assert InBoundsTest(table.columns, condition, bounds)(overlap[k]);
        }
      }
      var dbKeys := ProjectRows(table.columns, overlap, condition);
      Frame(df.columns, AntiJoin(df, condition, dbKeys))
    else
      assert forall k :: 0 <= k < |table.rows| ==> !RowInBounds(table.columns, condition, bounds, table.rows[k])
        by { WhetherDataIffMatch(table.rows, InBoundsTest(table.columns, condition, bounds)); }
      SubsequenceReflexive(df.rows);
      df
  }

  /** Every key of the dataframe lies within the bounds the filter derives from
      the dataframe: the min and max of each key column. */
  lemma DataFrameRowsInBounds(df: Frame, condition: seq<string>, k: nat)
    requires RowsOfWidth(df.rows, |df.columns|)
    requires HasColumns(df.columns, condition)
    requires k < |df.rows|
    ensures RowInBounds(df.columns, condition, Bounds(df, condition), df.rows[k])
  {
  }

  /** The text conjunct `get_new_df` writes for condition column j quotes
      exactly the pair `RowInBounds` tests: the column's rendered minimum and
      maximum, or `nan` twice for an empty dataframe. */
  lemma RangeTextTestsBounds(df: Frame, condition: seq<string>, j: nat)
    requires RowsOfWidth(df.rows, |df.columns|)
    requires HasColumns(df.columns, condition)
    requires j < |condition|
    ensures |df.rows| == 0 ==> Conjuncts(condition, Bounds(df, condition))[j] == Conjunct(condition[j], "nan", "nan")
    ensures |df.rows| > 0 ==>
      && Bounds(df, condition)[j].Some?
      && var (lo, hi) := Bounds(df, condition)[j].value;
         && Conjuncts(condition, Bounds(df, condition))[j] == Conjunct(condition[j], Render(lo), Render(hi))
         && lo == SeriesMin(ColumnValues(df, condition[j]))
         && hi == SeriesMax(ColumnValues(df, condition[j]))
  {
  }

  /** A dataframe key that occurs in the table is the key of a table row
      inside the bounds, so it is among the keys the filter fetches. */
  lemma StoredKeyIsFetched(table: Frame, df: Frame, condition: seq<string>, k: nat)
    requires RowsOfWidth(df.rows, |df.columns|) && RowsOfWidth(table.rows, |table.columns|)
    requires HasColumns(df.columns, condition) && HasColumns(table.columns, condition)
    requires k < |df.rows|
    requires ProjectRow(df.columns, df.rows[k], condition) in KeysOf(table, condition)
    ensures var bounds := Bounds(df, condition);
            var overlap := Filter(table.rows, InBoundsTest(table.columns, condition, bounds));
            RowsOfWidth(overlap, |table.columns|)
            && ProjectRow(df.columns, df.rows[k], condition) in ProjectRows(table.columns, overlap, condition)
  {
    var bounds := Bounds(df, condition);
    var test := InBoundsTest(table.columns, condition, bounds);
    var overlap := Filter(table.rows, test);
    var key := ProjectRow(df.columns, df.rows[k], condition);
    DataFrameRowsInBounds(df, condition, k);
    var t :| 0 <= t < |table.rows| && ProjectRows(table.columns, table.rows, condition)[t] == key;
    assert test(table.rows[t]);
    FilterKeeps(table.rows, test, t);
    var i :| 0 <= i < |overlap| && overlap[i] == table.rows[t];
    assert forall m :: 0 <= m < |overlap| ==> |overlap[m]| == |table.columns| by {
      forall m | 0 <= m < |overlap| ensures |overlap[m]| == |table.columns| {
        assert test(overlap[m]);
      }
    }
    assert ProjectRows(table.columns, overlap, condition)[i] == key;
  }

  /** With the database comparing keys in the same order as the dataframe's
      `min` and `max` (numbers, dates, and texts under a code-point
      collation), the range pre-check never hides a stored key: the filter
      returns exactly the rows of the dataframe whose key is stored nowhere in
      the table, in their original order. */
  lemma GetNewDfIsAntiJoin(table: Frame, df: Frame, condition: seq<string>)
    requires RowsOfWidth(df.rows, |df.columns|) && RowsOfWidth(table.rows, |table.columns|)
    requires |condition| > 0
    requires HasColumns(df.columns, condition) && HasColumns(table.columns, condition)
    ensures GetNewDf(table, df, condition).rows == AntiJoin(df, condition, KeysOf(table, condition))
  {
    var bounds := Bounds(df, condition);
    var test := InBoundsTest(table.columns, condition, bounds);
    var overlap := Filter(table.rows, test);
    var allKeys := KeysOf(table, condition);
    assert RowsOfWidth(overlap, |table.columns|) by {
      forall m | 0 <= m < |overlap| ensures |overlap[m]| == |table.columns| {
        assert test(overlap[m]);
      }
    }
    var dbKeys := ProjectRows(table.columns, overlap, condition);
    // A fetched key is a key of a table row.
    assert forall i :: 0 <= i < |dbKeys| ==> dbKeys[i] in allKeys by {
      forall i | 0 <= i < |dbKeys| ensures dbKeys[i] in allKeys {
        FilterFrom(table.rows, test, i);
        var t :| 0 <= t < |table.rows| && table.rows[t] == overlap[i];
        assert allKeys[t] == dbKeys[i];
      }
    }
    forall k | 0 <= k < |df.rows|
      ensures NewRowTest(df.columns, condition, dbKeys)(df.rows[k])
           == NewRowTest(df.columns, condition, allKeys)(df.rows[k])
    {
      var key := ProjectRow(df.columns, df.rows[k], condition);
      if key in allKeys {
        StoredKeyIsFetched(table, df, condition, k);
      }
    }
    FilterCongruent(df.rows, NewRowTest(df.columns, condition, dbKeys), NewRowTest(df.columns, condition, allKeys));
    if !WhetherData(CountResult(|overlap|)) {
      WhetherDataIffMatch(table.rows, test);
      assert |dbKeys| == 0;
      forall k | 0 <= k < |df.rows| ensures NewRowTest(df.columns, condition, dbKeys)(df.rows[k]) {
      }
      FilterAll(df.rows, NewRowTest(df.columns, condition, dbKeys));
    }
  }

  /** The dataframe `R + N` against a table that stores every key of `R` and
      none of `N` comes back as exactly `N`. */
  lemma GetNewDfDropsStoredRows(table: Frame, columns: seq<string>, stored: seq<Row>, newRows: seq<Row>, condition: seq<string>)
    requires RowsOfWidth(stored, |columns|) && RowsOfWidth(newRows, |columns|) && RowsOfWidth(table.rows, |table.columns|)
    requires |condition| > 0
    requires HasColumns(columns, condition) && HasColumns(table.columns, condition)
    requires forall k :: 0 <= k < |stored| ==> ProjectRow(columns, stored[k], condition) in KeysOf(table, condition)
    requires forall k :: 0 <= k < |newRows| ==> ProjectRow(columns, newRows[k], condition) !in KeysOf(table, condition)
    ensures GetNewDf(table, Frame(columns, stored + newRows), condition).rows == newRows
  {
    var df := Frame(columns, stored + newRows);
    var keys := KeysOf(table, condition);
    GetNewDfIsAntiJoin(table, df, condition);
    FilterAppend(stored, newRows, NewRowTest(columns, condition, keys));
    FilterNone(stored, NewRowTest(columns, condition, keys));
    FilterAll(newRows, NewRowTest(columns, condition, keys));
  }

  /** No row the filter returns has a key stored in the table, and every
      dataframe row whose key is not stored is returned. */
  lemma GetNewDfKeysAreNew(table: Frame, df: Frame, condition: seq<string>)
    requires RowsOfWidth(df.rows, |df.columns|) && RowsOfWidth(table.rows, |table.columns|)
    requires |condition| > 0
    requires HasColumns(df.columns, condition) && HasColumns(table.columns, condition)
    ensures forall i :: 0 <= i < |GetNewDf(table, df, condition).rows| ==>
      IsNewRow(df.columns, condition, KeysOf(table, condition), GetNewDf(table, df, condition).rows[i])
    ensures forall k :: 0 <= k < |df.rows| && ProjectRow(df.columns, df.rows[k], condition) !in KeysOf(table, condition) ==>
      df.rows[k] in GetNewDf(table, df, condition).rows
  {
    var keys := KeysOf(table, condition);
    GetNewDfIsAntiJoin(table, df, condition);
    forall k | 0 <= k < |df.rows| && ProjectRow(df.columns, df.rows[k], condition) !in keys
      ensures df.rows[k] in GetNewDf(table, df, condition).rows
    {
      FilterKeeps(df.rows, NewRowTest(df.columns, condition, keys), k);
    }
  }
}
