/** How the introspection helpers turn a fetched row list into their return
    value: `column` (the sorted values of one column, or `None` when there are
    none), `max_t` (a fixed field of the newest row of a symbol, or 0) and
    `whether_data` (whether a `count(*)` is non-zero). The database itself is
    described only by what each query returns. */
module Results {
  import opened Common
  import opened Frames

  /** `column`: no rows means `None`; otherwise the fetched rows, unchanged. */
  function ColumnResult(results: seq<Row>): (r: Option<seq<Row>>)
    ensures r.None? <==> |results| == 0
    ensures r.Some? ==> r.value == results
  {
    if results == [] then None else Some(results)
  }

  /** A value list sorted by the cell order. */
  predicate SortedValues(vs: seq<Value>)
  {
    forall i, j :: 0 <= i < j < |vs| ==> ValueLe(vs[i], vs[j])
  }

  /** What `select col from table order by col` fetches: one single-cell row
      per table row, the cells being the column's values in ascending order. */
  predicate IsColumnQueryResult(table: Frame, col: string, results: seq<Row>)
    requires RowsOfWidth(table.rows, |table.columns|)
    requires col in table.columns
  {
    && (forall k :: 0 <= k < |results| ==> |results[k]| == 1)
    && var vs := seq(|results|, k requires 0 <= k < |results| => results[k][0]);
    && SortedValues(vs)
    && multiset(vs) == multiset(ColumnValues(table, col))
  }

  /** `column` answers `None` exactly for a table without rows. */
  lemma ColumnNoneIffEmpty(table: Frame, col: string, results: seq<Row>)
    requires RowsOfWidth(table.rows, |table.columns|)
    requires col in table.columns
    requires IsColumnQueryResult(table, col, results)
    ensures ColumnResult(results).None? <==> |table.rows| == 0
    ensures ColumnResult(results).Some? ==> |ColumnResult(results).value| == |table.rows|
  {
    var vs := seq(|results|, k requires 0 <= k < |results| => results[k][0]);
    assert |multiset(vs)| == |vs|;
    assert |multiset(ColumnValues(table, col))| == |ColumnValues(table, col)|;
  }

  /** `clear_table`: `delete from table where 1=1` keeps the columns and drops every row. */
  function ClearTable(table: Frame): (r: Frame)
    ensures r.columns == table.columns && |r.rows| == 0
  {
    Frame(table.columns, [])
  }

  /** Clearing a table and then reading one of its columns gives `None`. */
  lemma ColumnAfterClear(table: Frame, col: string, results: seq<Row>)
    requires col in table.columns
    requires IsColumnQueryResult(ClearTable(table), col, results)
    ensures ColumnResult(results) == None
  {
    ColumnNoneIffEmpty(ClearTable(table), col, results);
  }

  /** `max_t` reads the timestamp at this field of the fetched row. */
  const TimestampField: nat := 6

  /** `max_t`: `0` when nothing was fetched, otherwise the timestamp field of the first row. */
  function MaxT(results: seq<Row>): (t: Value)
    requires |results| == 0 || |results[0]| > TimestampField
    ensures |results| == 0 ==> t == Num(0)
    ensures |results| > 0 ==> t == results[0][TimestampField]
  {
    if results == [] then Num(0) else results[0][TimestampField]
  }

  /** The table rows whose symbol column holds `symbol`. */
  predicate OfSymbol(symbolCol: nat, symbol: string, row: Row)
  {
    symbolCol < |row| && row[symbolCol] == Text(symbol)
  }

  /** What `select * from table where symbol='s' order by series desc limit 1`
      fetches: nothing when no row has the symbol, otherwise one row of the
      symbol whose series is the largest among the symbol's rows. */
  predicate IsLatestQueryResult(table: Frame, symbolCol: nat, seriesCol: nat, symbol: string, results: seq<Row>)
  {
    if forall k :: 0 <= k < |table.rows| ==> !OfSymbol(symbolCol, symbol, table.rows[k]) then
      results == []
    else
      && |results| == 1
      && results[0] in table.rows
      && OfSymbol(symbolCol, symbol, results[0])
      && seriesCol < |results[0]|
      && forall k :: 0 <= k < |table.rows| && OfSymbol(symbolCol, symbol, table.rows[k]) ==>
           seriesCol < |table.rows[k]| && ValueLe(table.rows[k][seriesCol], results[0][seriesCol])
  }

  /** `max_t` is 0 for a symbol without rows, and otherwise the timestamp of a
      row of that symbol with the largest series. */
  lemma MaxTOfLatest(table: Frame, symbolCol: nat, seriesCol: nat, symbol: string, results: seq<Row>)
    requires RowsOfWidth(table.rows, |table.columns|)
    requires |table.columns| > TimestampField
    requires IsLatestQueryResult(table, symbolCol, seriesCol, symbol, results)
    ensures (forall k :: 0 <= k < |table.rows| ==> !OfSymbol(symbolCol, symbol, table.rows[k]))
            ==> MaxT(results) == Num(0)
    ensures (exists k :: 0 <= k < |table.rows| && OfSymbol(symbolCol, symbol, table.rows[k]))
            ==> exists k :: 0 <= k < |table.rows|
                  && OfSymbol(symbolCol, symbol, table.rows[k])
                  && MaxT(results) == table.rows[k][TimestampField]
                  && forall m :: 0 <= m < |table.rows| && OfSymbol(symbolCol, symbol, table.rows[m]) ==>
                       ValueLe(table.rows[m][seriesCol], table.rows[k][seriesCol])
  {
    if exists k :: 0 <= k < |table.rows| && OfSymbol(symbolCol, symbol, table.rows[k]) {
      var k :| 0 <= k < |table.rows| && table.rows[k] == results[0];
      assert MaxT(results) == table.rows[k][TimestampField];
    }
  }

  /** `whether_data`: the first cell of the first fetched row is the count; true iff it is not 0. */
  function WhetherData(result: seq<Row>): (b: bool)
    requires |result| > 0 && |result[0]| > 0
    ensures !b <==> result[0][0] == Num(0)
  {
    !(result[0][0] == Num(0))
  }

  /** What `select count(*) from table where wh` fetches. */
  function CountResult(n: nat): (r: seq<Row>)
    ensures |r| == 1 && |r[0]| == 1
  {
    [[Num(n)]]
  }

  /** `whether_data` is true exactly when some table row satisfies the condition. */
  lemma WhetherDataIffMatch(rows: seq<Row>, wh: Row -> bool)
    ensures WhetherData(CountResult(|Filter(rows, wh)|)) <==> exists k :: 0 <= k < |rows| && wh(rows[k])
  {
    if exists k :: 0 <= k < |rows| && wh(rows[k]) {
      var k :| 0 <= k < |rows| && wh(rows[k]);
      FilterKeeps(rows, wh, k);
    } else {
      FilterNone(rows, wh);
    }
  }
}
