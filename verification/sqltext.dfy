/** The SQL text the data-access layer assembles before handing it to the
    driver: the `%s` placeholder list and `INSERT` statement of the two
    dataframe bulk inserts, the quoted `IN (...)` list of the symbol lookup,
    and the select list and range predicate of the deduplication filter. */
module SqlText {
  import opened Common
  import opened PyFormat
  import opened Frames

  /** The statement both dataframe inserts hand to `executemany`: one `%s`
      parameter marker per column, joined by single commas. The pieces are
      grouped from the right, the way the formatting lemmas peel the
      template off one literal at a time. */
  function InsertStatement(table: string, columns: seq<string>): string
  {
    "INSERT INTO " + (table + ("(" + (Join(columns, ",") + (") VALUES(" + (Join(Repeat("%s", |columns|), ",") + ")")))))
  }

  /** The loop that builds `col_str`: `token` once, then `,` + `token` for
      each further column. */
  method BuildPlaceholders(n: nat, token: string) returns (colStr: string)
    ensures colStr == Join(Repeat(token, n), ",")
  {
    colStr := "";
    var i := 0;
    while i < n
      invariant 0 <= i <= n
      invariant colStr == Join(Repeat(token, i), ",")
    {
      assert Repeat(token, i + 1) == Repeat(token, i) + [token];
      if i == 0 {
        colStr := colStr + token;
      } else {
        JoinSnoc(Repeat(token, i), token, ",");
        colStr := colStr + "," + token;
      }
      i := i + 1;
    }
  }

  /** The placeholder list for n columns is n two-character `%s` tokens
      separated by single commas: position i holds `%`, `s`, `,` as i mod 3
      is 0, 1, 2, so there is no leading or trailing comma. */
  lemma {:induction false} PlaceholderShape(n: nat)
    ensures |Join(Repeat("%s", n), ",")| == (if n == 0 then 0 else 3 * n - 1)
    ensures forall i :: 0 <= i < |Join(Repeat("%s", n), ",")| ==>
      Join(Repeat("%s", n), ",")[i] == (if i % 3 == 0 then '%' else if i % 3 == 1 then 's' else ',')
    ensures n > 0 ==> Join(Repeat("%s", n), ",")[0] == '%'
    ensures n > 0 ==> Join(Repeat("%s", n), ",")[3 * n - 2] == 's'
  {
    var s := Join(Repeat("%s", n), ",");
    if n == 1 {
      assert Repeat("%s", 1) == ["%s"];
      assert s == "%s";
    } else if n > 1 {
      PlaceholderShape(n - 1);
      var s' := Join(Repeat("%s", n - 1), ",");
      assert Repeat("%s", n)[1..] == Repeat("%s", n - 1);
      assert s == "%s" + "," + s';
      forall i | 3 <= i < |s|
        ensures s[i] == (if i % 3 == 0 then '%' else if i % 3 == 1 then 's' else ',')
      {
        assert s[i] == s'[i - 3];
      }
      assert s[3 * n - 2] == s'[3 * (n - 1) - 2];
    }
  }

  /** One escaped token `%%s` formats to a plain `%s`. */
  lemma EscapedToken(tail: string, args: seq<string>)
    ensures Format("%%s" + tail, args) == Prepend("%s", Format(tail, args))
  {
    assert "%%s" + tail == "%%" + ("s" + tail);
    FormatEscape("s" + tail, args);
    FormatLiteral("s", tail, args);
    PrependPrepend("%", "s", Format(tail, args));
    assert "%" + "s" == "%s";
  }

  /** A join of two or more copies of a token is the token, a comma and the rest. */
  lemma JoinRepeatCons(token: string, n: nat)
    requires n > 0
    ensures Join(Repeat(token, n + 1), ",") == token + ("," + Join(Repeat(token, n), ","))
  {
    assert Repeat(token, n + 1)[1..] == Repeat(token, n);
  }

  /** `"%%"` in a template followed by `s` formats to `%s`: the escaped
      placeholder list of `df_db` becomes the plain one. */
  lemma {:induction false} EscapedPlaceholdersFormat(n: nat, rest: string, args: seq<string>)
    ensures Format(Join(Repeat("%%s", n), ",") + rest, args)
         == Prepend(Join(Repeat("%s", n), ","), Format(rest, args))
  {
    var e := Join(Repeat("%%s", n), ",");
    var p := Join(Repeat("%s", n), ",");
    if n == 0 {
      assert e + rest == rest;
      var o := Format(rest, args);
      if o.Some? {
        assert p + o.value == o.value;
      }
    } else if n == 1 {
      assert Repeat("%%s", 1) == ["%%s"];
      assert Repeat("%s", 1) == ["%s"];
      EscapedToken(rest, args);
    } else {
      var e' := Join(Repeat("%%s", n - 1), ",");
      var p' := Join(Repeat("%s", n - 1), ",");
      JoinRepeatCons("%%s", n - 1);
      JoinRepeatCons("%s", n - 1);
      assert e + rest == "%%s" + ("," + (e' + rest));
      EscapedToken("," + (e' + rest), args);
      FormatLiteral(",", e' + rest, args);
      EscapedPlaceholdersFormat(n - 1, rest, args);
      PrependPrepend(",", p', Format(rest, args));
      PrependPrepend("%s", "," + p', Format(rest, args));
    }
  }

  /** A template with two `%s` slots around `%`-free text and an escaped
      placeholder list formats to the two arguments spliced in and the
      placeholder list unescaped. */
  lemma {:induction false} TwoSlotTemplateFormats(a: string, b: string, c: string, d: string, n: nat, x: string, y: string)
    requires '%' !in a && '%' !in b && '%' !in c && '%' !in d
    ensures Format(a + ("%s" + (b + ("%s" + (c + (Join(Repeat("%%s", n), ",") + d))))), [x, y])
         == Some(a + (x + (b + (y + (c + (Join(Repeat("%s", n), ",") + d))))))
  {
    var e := Join(Repeat("%%s", n), ",");
    var p := Join(Repeat("%s", n), ",");
    var r2 := c + (e + d);
    var r1 := b + ("%s" + r2);
    assert Format(d, []) == Some(d) by {
      FormatLiteral(d, "", []);
      assert d + "" == d;
    }
    assert Format(e + d, []) == Some(p + d) by {
      EscapedPlaceholdersFormat(n, d, []);
    }
    assert Format(r2, []) == Some(c + (p + d)) by {
      FormatLiteral(c, e + d, []);
    }
    assert Format("%s" + r2, [y]) == Some(y + (c + (p + d))) by {
      assert [y] + [] == [y];
      FormatDirective(y, r2, []);
    }
    assert Format(r1, [y]) == Some(b + (y + (c + (p + d)))) by {
      FormatLiteral(b, "%s" + r2, [y]);
    }
    assert Format("%s" + r1, [x, y]) == Some(x + (b + (y + (c + (p + d))))) by {
      assert [x, y] == [x] + [y];
      FormatDirective(x, r1, [y]);
    }
    FormatLiteral(a, "%s" + r1, [x, y]);
  }

  /** `df_db`: the placeholder list is built with `%%s`, then the template
      `"INSERT INTO %s(%s) VALUES(" + col_str + ")"` (written here split at its
      two `%s` directives) is `%`-formatted with the table name and the
      comma-joined columns. */
  method DfDbStatement(table: string, columns: seq<string>) returns (query: Option<string>)
    ensures query == Some(InsertStatement(table, columns))
  {
    var colStr := BuildPlaceholders(|columns|, "%%s");
    var sqlStr := "INSERT INTO " + ("%s" + ("(" + ("%s" + (") VALUES(" + (colStr + ")")))));
    TwoSlotTemplateFormats("INSERT INTO ", "(", ") VALUES(", ")", |columns|, table, Join(columns, ","));
    query := Format(sqlStr, [table, Join(columns, ",")]);
  }

  /** `df_columns_db`: the placeholder list is built with `%s` and spliced
      into an f-string, so no formatting step applies. */
  method DfColumnsStatement(table: string, columns: seq<string>) returns (query: string)
    ensures query == InsertStatement(table, columns)
  {
    var colStr := BuildPlaceholders(|columns|, "%s");
    var a := Join(columns, ",");
    query := "INSERT INTO " + (table + ("(" + (a + (") VALUES(" + (colStr + ")")))));
  }

  /** Each symbol wrapped in single quotes. */
  function Quoted(symbols: seq<string>): (q: seq<string>)
    ensures |q| == |symbols|
    ensures forall i :: 0 <= i < |symbols| ==> q[i] == "'" + symbols[i] + "'"
  {
    seq(|symbols|, i requires 0 <= i < |symbols| => "'" + symbols[i] + "'")
  }

  /** The parenthesised, quoted, comma-separated symbol list. */
  function InListText(symbols: seq<string>): string
  {
    "(" + Join(Quoted(symbols), ",") + ")"
  }

  /** `get_symbol_df`: append `'sym',` per symbol after `(`, cut the last
      character, close with `)`. With no symbols the cut removes the `(`
      itself and the clause degenerates to `)`. */
  method SymbolInList(symbols: seq<string>) returns (a: string)
    ensures |symbols| > 0 ==> a == InListText(symbols)
    ensures |symbols| == 0 ==> a == ")"
  {
    a := "(";
    var k := 0;
    while k < |symbols|
      invariant 0 <= k <= |symbols|
      invariant k == 0 ==> a == "("
      invariant k > 0 ==> a == "(" + Join(Quoted(symbols[..k]), ",") + ","
    {
      assert Quoted(symbols[..k + 1]) == Quoted(symbols[..k]) + ["'" + symbols[k] + "'"];
      if k == 0 {
        assert Quoted(symbols[..1]) == ["'" + symbols[0] + "'"];
      } else {
        JoinSnoc(Quoted(symbols[..k]), "'" + symbols[k] + "'", ",");
      }
      a := a + "'" + symbols[k] + "'" + ",";
      k := k + 1;
    }
    assert symbols[..k] == symbols;
    a := a[0..|a| - 1];
    a := a + ")";
  }

  /** First position at or after i holding a single quote, or |t| if none. */
  function QuoteAt(t: string, i: nat): (k: nat)
    requires i <= |t|
    ensures i <= k <= |t|
    ensures forall j :: i <= j < k ==> t[j] != '\''
    ensures k < |t| ==> t[k] == '\''
    decreases |t| - i
  {
    if i == |t| || t[i] == '\'' then i else QuoteAt(t, i + 1)
  }

  /** Reads back `'x','y',...,'z'` into the list of items between the quotes. */
  function ParseItems(t: string): Option<seq<string>>
    decreases |t|
  {
    if |t| == 0 || t[0] != '\'' then None
    else
      var k := QuoteAt(t, 1);
      if k == |t| then None
      else if k + 1 == |t| then Some([t[1..k]])
      else if t[k + 1] != ',' then None
      else
        match ParseItems(t[k + 2..])
        case None => None
        case Some(rest) => Some([t[1..k]] + rest)
  }

  /** Reads back an `IN` list `(...)`. */
  function ParseInList(t: string): Option<seq<string>>
  {
    if |t| >= 2 && t[0] == '(' && t[|t| - 1] == ')' then ParseItems(t[1..|t| - 1]) else None
  }

  predicate NoQuote(s: string)
  {
    forall i :: 0 <= i < |s| ==> s[i] != '\''
  }

  lemma {:induction false} ParseItemsJoin(symbols: seq<string>)
    requires |symbols| > 0
    requires forall i :: 0 <= i < |symbols| ==> NoQuote(symbols[i])
    ensures ParseItems(Join(Quoted(symbols), ",")) == Some(symbols)
    decreases |symbols|
  {
    var x := symbols[0];
    var t := Join(Quoted(symbols), ",");
    var tail := if |symbols| == 1 then "" else "," + Join(Quoted(symbols[1..]), ",");
    if |symbols| > 1 {
      assert Quoted(symbols)[1..] == Quoted(symbols[1..]);
    }
    assert t == "'" + x + "'" + tail;
    var k := QuoteAt(t, 1);
    assert t[|x| + 1] == '\'';
    assert forall j :: 1 <= j < |x| + 1 ==> t[j] == x[j - 1];
    assert k == |x| + 1;
    assert t[1..k] == x;
    if |symbols| > 1 {
      assert t[k + 1] == ',';
      assert t[k + 2..] == Join(Quoted(symbols[1..]), ",");
      ParseItemsJoin(symbols[1..]);
      assert [x] + symbols[1..] == symbols;
    } else {
      assert k + 1 == |t|;
      assert [x] == symbols;
    }
  }

  /** The IN list of a non-empty list of quote-free symbols reads back as
      exactly that list: every symbol appears, in order, and nothing else. */
  lemma InListRoundTrip(symbols: seq<string>)
    requires |symbols| > 0
    requires forall i :: 0 <= i < |symbols| ==> NoQuote(symbols[i])
    ensures ParseInList(InListText(symbols)) == Some(symbols)
  {
    var t := InListText(symbols);
    assert t[1..|t| - 1] == Join(Quoted(symbols), ",");
    ParseItemsJoin(symbols);
  }

  /** How a bound appears in the f-string: the value, or `nan`. */
  function BoundText(b: Option<(Value, Value)>, upper: bool): string
  {
    match b
    case None => "nan"
    case Some((lo, hi)) => Render(if upper then hi else lo)
  }

  /** One conjunct `col>='min' and col<='max' ` of the range predicate. */
  function Conjunct(name: string, lo: string, hi: string): string
  {
    name + ">='" + lo + "' and " + name + "<='" + hi + "' "
  }

  /** The conjunct of every condition column, in condition order, given each
      column's bounds. */
  function Conjuncts(condition: seq<string>, bounds: seq<Option<(Value, Value)>>): (cs: seq<string>)
    requires |bounds| == |condition|
    ensures |cs| == |condition|
  {
    seq(|condition|, j requires 0 <= j < |condition| =>
      Conjunct(condition[j], BoundText(bounds[j], false), BoundText(bounds[j], true)))
  }

  /** The loop of `get_new_df` that builds the select list `str1` and the
      range predicate `str2`. The column bounds `df[i].min()` and
      `df[i].max()` are passed in as `bounds`, one (min, max) pair per
      condition column (see `Dedup.Bounds`); `recordMin` and `recordMax` are
      their rendered texts. */
  method RangeQueryText(condition: seq<string>, bounds: seq<Option<(Value, Value)>>)
    returns (selectList: string, whereClause: string)
    requires |bounds| == |condition|
    ensures selectList == Join(condition, ",")
    ensures whereClause == Join(Conjuncts(condition, bounds), "and ")
  {
    ghost var cs := Conjuncts(condition, bounds);
    selectList := "";
    whereClause := "";
    var j := 0;
    while j < |condition|
      invariant 0 <= j <= |condition|
      invariant selectList == Join(condition[..j], ",")
      invariant whereClause == Join(cs[..j], "and ")
    {
      var name := condition[j];
      var recordMax := BoundText(bounds[j], true);
      var recordMin := BoundText(bounds[j], false);
      var conj := Conjunct(name, recordMin, recordMax);
      assert conj == cs[j];
      JoinPrefixStep(condition, j, ",");
      JoinPrefixStep(cs, j, "and ");
      if j == 0 {
        selectList := name;
        whereClause := conj;
      } else {
        selectList := selectList + "," + name;
        whereClause := whereClause + "and " + conj;
      }
      j := j + 1;
    }
    assert condition[..j] == condition;
    assert cs[..j] == cs;
  }
}
