/** The parameter rows the two dataframe bulk inserts hand to `executemany`:
    `df_db` passes every row whole (`tuple(x) for x in df.to_numpy()`),
    `df_columns_db` builds one value list per row by looking up the named
    columns in order. */
module BulkInsert {
  import opened Common
  import opened Frames

  /** `df_columns_db`'s nested loop over `df.iterrows()` and `columns`. */
  method ColumnValueLists(df: Frame, columns: seq<string>) returns (listB: seq<Row>)
    requires RowsOfWidth(df.rows, |df.columns|)
    requires HasColumns(df.columns, columns)
    ensures |listB| == |df.rows|
    ensures forall k :: 0 <= k < |df.rows| ==> |listB[k]| == |columns|
    ensures forall k, j :: 0 <= k < |df.rows| && 0 <= j < |columns| ==>
      listB[k][j] == df.rows[k][IndexOf(df.columns, columns[j])]
    ensures listB == ProjectRows(df.columns, df.rows, columns)
  {
    listB := [];
    var k := 0;
    while k < |df.rows|
      invariant 0 <= k <= |df.rows|
      invariant |listB| == k
      invariant forall m :: 0 <= m < k ==> |listB[m]| == |columns|
      invariant forall m, j :: 0 <= m < k && 0 <= j < |columns| ==>
        listB[m][j] == df.rows[m][IndexOf(df.columns, columns[j])]
    {
      var row := df.rows[k];
      var listA: Row := [];
      var j := 0;
      while j < |columns|
        invariant 0 <= j <= |columns|
        invariant |listA| == j
        invariant forall i :: 0 <= i < j ==> listA[i] == row[IndexOf(df.columns, columns[i])]
      {
        listA := listA + [row[IndexOf(df.columns, columns[j])]];
        j := j + 1;
      }
      listB := listB + [listA];
      k := k + 1;
    }
    forall m | 0 <= m < |df.rows| ensures listB[m] == ProjectRows(df.columns, df.rows, columns)[m] {
    }
  }

  /** `df_db`'s parameter rows: each dataframe row as it stands. */
  function WholeRows(df: Frame): seq<Row>
  {
    df.rows
  }

  /** Naming every column of a well-formed dataframe, in its own order,
      reproduces its rows: the column-subset path given all columns sends the
      same parameters as the whole-dataframe path (and, by the contracts of
      `DfDbStatement` and `DfColumnsStatement`, the same statement). */
  lemma AllColumnsMatchesWholeRows(df: Frame)
    requires WellFormed(df)
    ensures ProjectRows(df.columns, df.rows, df.columns) == WholeRows(df)
  {
    forall k | 0 <= k < |df.rows|
      ensures ProjectRows(df.columns, df.rows, df.columns)[k] == df.rows[k]
    {
      forall j | 0 <= j < |df.columns|
        ensures ProjectRows(df.columns, df.rows, df.columns)[k][j] == df.rows[k][j]
      {
        IndexOfDistinct(df.columns, j);
      }
    }
  }

  /** Projecting onto `columns` and then onto a sub-list of them gives the same
      values as projecting onto the sub-list directly: reading a subset of
      the inserted columns back yields the original cells. */
  lemma ProjectThenProject(df: Frame, columns: seq<string>, sub: seq<string>)
    requires RowsOfWidth(df.rows, |df.columns|)
    requires HasColumns(df.columns, columns)
    requires forall i, j :: 0 <= i < j < |columns| ==> columns[i] != columns[j]
    requires HasColumns(columns, sub)
    ensures ProjectRows(columns, ProjectRows(df.columns, df.rows, columns), sub)
         == ProjectRows(df.columns, df.rows, sub)
  {
    var inserted := ProjectRows(df.columns, df.rows, columns);
    forall k | 0 <= k < |df.rows|
      ensures ProjectRows(columns, inserted, sub)[k] == ProjectRows(df.columns, df.rows, sub)[k]
    {
      forall j | 0 <= j < |sub|
        ensures ProjectRows(columns, inserted, sub)[k][j] == ProjectRows(df.columns, df.rows, sub)[k][j]
      {
        var c := IndexOf(columns, sub[j]);
        assert inserted[k][c] == df.rows[k][IndexOf(df.columns, columns[c])];
      }
    }
  }
}
