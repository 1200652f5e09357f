/** Cell values, their ordering, and dataframes as named columns over rows.

    A cell is a number or a text. Dates and timestamps are taken to be already
    normalised into one of the two, on both sides of every comparison. */
module Frames {
  import opened Common

  datatype Value = Num(n: int) | Text(s: string)

  type Row = seq<Value>

  /** A dataframe: its column labels in order and its rows in order. */
  datatype Frame = Frame(columns: seq<string>, rows: seq<Row>)

  /** Column labels are distinct and every row has one cell per column. */
  predicate WellFormed(df: Frame)
  {
    && (forall i, j :: 0 <= i < j < |df.columns| ==> df.columns[i] != df.columns[j])
    && (forall k :: 0 <= k < |df.rows| ==> |df.rows[k]| == |df.columns|)
  }

  /** Every label in `names` is a column of `columns`. */
  predicate HasColumns(columns: seq<string>, names: seq<string>)
  {
    forall j :: 0 <= j < |names| ==> names[j] in columns
  }

  /** Position of a column label. Labels are meant to be distinct; with a
      repeated label this picks the first occurrence, which pandas does not
      do (it yields every column of that name). */
  function IndexOf(columns: seq<string>, name: string): (k: nat)
    requires name in columns
    ensures k < |columns| && columns[k] == name
    ensures forall i :: 0 <= i < k ==> columns[i] != name
  {
    if columns[0] == name then 0 else 1 + IndexOf(columns[1..], name)
  }

  /** With distinct labels, the label at position k is found at position k. */
  lemma IndexOfDistinct(columns: seq<string>, k: nat)
    requires k < |columns|
    requires forall i, j :: 0 <= i < j < |columns| ==> columns[i] != columns[j]
    ensures IndexOf(columns, columns[k]) == k
  {
  }

  /** The cells of `row` (laid out by `columns`) for the labels `names`, in the order of `names`. */
  function ProjectRow(columns: seq<string>, row: Row, names: seq<string>): (r: Row)
    requires |row| == |columns|
    requires HasColumns(columns, names)
    ensures |r| == |names|
    ensures forall j :: 0 <= j < |names| ==> r[j] == row[IndexOf(columns, names[j])]
  {
    seq(|names|, j requires 0 <= j < |names| => row[IndexOf(columns, names[j])])
  }

  /** Rows all of width `width`. */
  predicate RowsOfWidth(rows: seq<Row>, width: nat)
  {
    forall k :: 0 <= k < |rows| ==> |rows[k]| == width
  }

  /** `ProjectRow` applied to every row, in row order. */
  function ProjectRows(columns: seq<string>, rows: seq<Row>, names: seq<string>): (r: seq<Row>)
    requires RowsOfWidth(rows, |columns|)
    requires HasColumns(columns, names)
    ensures |r| == |rows|
    ensures forall k :: 0 <= k < |rows| ==> r[k] == ProjectRow(columns, rows[k], names)
  {
    seq(|rows|, k requires 0 <= k < |rows| => ProjectRow(columns, rows[k], names))
  }

  /** Python's ordering of `str`: code point by code point, a proper prefix first. */
  predicate TextLe(a: string, b: string)
    decreases |a|
  {
    |a| == 0 || (|b| > 0 && (a[0] < b[0] || (a[0] == b[0] && TextLe(a[1..], b[1..]))))
  }

  /** The order in which cells are compared: numbers numerically, texts by
      code point, and (for the rare mixed column) every number before every text. */
  predicate ValueLe(x: Value, y: Value)
  {
    match x
    case Num(a) => (match y case Num(b) => a <= b case Text(_) => true)
    case Text(a) => (match y case Num(_) => false case Text(b) => TextLe(a, b))
  }

  lemma {:induction false} TextLeTotal(a: string, b: string)
    ensures TextLe(a, b) || TextLe(b, a)
    decreases |a|
  {
    if |a| > 0 && |b| > 0 && a[0] == b[0] {
      TextLeTotal(a[1..], b[1..]);
    }
  }

  lemma {:induction false} TextLeTransitive(a: string, b: string, c: string)
    requires TextLe(a, b) && TextLe(b, c)
    ensures TextLe(a, c)
    decreases |a|
  {
    if |a| > 0 && a[0] == b[0] && b[0] == c[0] {
      TextLeTransitive(a[1..], b[1..], c[1..]);
    }
  }

  lemma ValueLeTotal(x: Value, y: Value)
    ensures ValueLe(x, y) || ValueLe(y, x)
  {
    if x.Text? && y.Text? {
      TextLeTotal(x.s, y.s);
    }
  }

  lemma ValueLeTransitive(x: Value, y: Value, z: Value)
    requires ValueLe(x, y) && ValueLe(y, z)
    ensures ValueLe(x, z)
  {
    if x.Text? && y.Text? && z.Text? {
      TextLeTransitive(x.s, y.s, z.s);
    }
  }

  /** The cells of one column, top to bottom (`df[name]`). */
  function ColumnValues(df: Frame, name: string): (vs: seq<Value>)
    requires RowsOfWidth(df.rows, |df.columns|)
    requires name in df.columns
    ensures |vs| == |df.rows|
    ensures forall k :: 0 <= k < |df.rows| ==> vs[k] == df.rows[k][IndexOf(df.columns, name)]
  {
    seq(|df.rows|, k requires 0 <= k < |df.rows| => df.rows[k][IndexOf(df.columns, name)])
  }

  /** `Series.min()` of a non-empty column: a cell of the column below or equal to all of them. */
  function SeriesMin(vs: seq<Value>): (m: Value)
    requires |vs| > 0
    ensures m in vs
    ensures forall k :: 0 <= k < |vs| ==> ValueLe(m, vs[k])
    decreases |vs|
  {
    if |vs| == 1 then
      ValueLeTotal(vs[0], vs[0]);
      vs[0]
    else
      var m' := SeriesMin(vs[1..]);
      ValueLeTotal(vs[0], m');
      ValueLeTotal(vs[0], vs[0]);
      if ValueLe(vs[0], m') then
        assert forall k :: 1 <= k < |vs| ==> ValueLe(m', vs[k]) by {
          assert forall k :: 1 <= k < |vs| ==> vs[k] == vs[1..][k - 1];
        }
        assert forall k :: 1 <= k < |vs| ==> ValueLe(vs[0], vs[k]) by {
          forall k | 1 <= k < |vs| ensures ValueLe(vs[0], vs[k]) {
            ValueLeTransitive(vs[0], m', vs[k]);
          }
        }
        vs[0]
      else
        assert forall k :: 1 <= k < |vs| ==> ValueLe(m', vs[k]) by {
          assert forall k :: 1 <= k < |vs| ==> vs[k] == vs[1..][k - 1];
        }
        m'
  }

  /** `Series.max()` of a non-empty column: a cell of the column above or equal to all of them. */
  function SeriesMax(vs: seq<Value>): (m: Value)
    requires |vs| > 0
    ensures m in vs
    ensures forall k :: 0 <= k < |vs| ==> ValueLe(vs[k], m)
    decreases |vs|
  {
    if |vs| == 1 then
      ValueLeTotal(vs[0], vs[0]);
      vs[0]
    else
      var m' := SeriesMax(vs[1..]);
      ValueLeTotal(vs[0], m');
      ValueLeTotal(vs[0], vs[0]);
      if ValueLe(m', vs[0]) then
        assert forall k :: 1 <= k < |vs| ==> ValueLe(vs[k], m') by {
          assert forall k :: 1 <= k < |vs| ==> vs[k] == vs[1..][k - 1];
        }
        assert forall k :: 1 <= k < |vs| ==> ValueLe(vs[k], vs[0]) by {
          forall k | 1 <= k < |vs| ensures ValueLe(vs[k], vs[0]) {
            ValueLeTransitive(vs[k], m', vs[0]);
          }
        }
        vs[0]
      else
        assert forall k :: 1 <= k < |vs| ==> ValueLe(vs[k], m') by {
          assert forall k :: 1 <= k < |vs| ==> vs[k] == vs[1..][k - 1];
        }
        m'
  }

  /** The per-column bounds of `get_new_df`: `Some((min, max))` of the column,
      or `None` for an empty dataframe, where pandas yields NaN. */
  function ColumnRange(df: Frame, name: string): (b: Option<(Value, Value)>)
    requires RowsOfWidth(df.rows, |df.columns|)
    requires name in df.columns
    ensures b.None? <==> |df.rows| == 0
    ensures b.Some? ==> forall k :: 0 <= k < |df.rows| ==>
      var v := df.rows[k][IndexOf(df.columns, name)];
      ValueLe(b.value.0, v) && ValueLe(v, b.value.1)
  {
    if |df.rows| == 0 then None
    else
      var vs := ColumnValues(df, name);
      Some((SeriesMin(vs), SeriesMax(vs)))
  }

  /** Decimal text of a natural number. */
  function NatToText(n: nat): (s: string)
    ensures |s| > 0
    ensures forall i :: 0 <= i < |s| ==> '0' <= s[i] <= '9'
  {
    var d := [(n % 10) as char + '0'];
    if n < 10 then d else NatToText(n / 10) + d
  }

  /** Python's `str(i)` for an integer. */
  function IntToText(i: int): string
  {
    if i < 0 then "-" + NatToText(-i) else NatToText(i)
  }

  /** How a cell appears inside an f-string. */
  function Render(v: Value): string
  {
    match v
    case Num(n) => IntToText(n)
    case Text(s) => s
  }
}
