/** Python's printf-style `template % args` operator, restricted to the two
    directives the data-access layer uses: `%s` (substitute the next argument)
    and `%%` (a literal percent sign). Substituted text is never rescanned. */
module PyFormat {
  import opened Common

  /** Puts `p` in front of a successful formatting result. */
  function Prepend(p: string, o: Option<string>): (r: Option<string>)
    ensures r.Some? <==> o.Some?
    ensures r.Some? ==> r.value == p + o.value
  {
    match o
    case None => None
    case Some(s) => Some(p + s)
  }

  /** `template % tuple(args)`: `None` stands for Python's `TypeError`
      (too few arguments, arguments left over) and `ValueError` (a dangling
      `%` or a conversion other than `%s` and `%%`). */
  function Format(template: string, args: seq<string>): Option<string>
    decreases |template|
  {
    if |template| == 0 then
      (if |args| == 0 then Some("") else None)
    else if template[0] != '%' then
      Prepend([template[0]], Format(template[1..], args))
    else if |template| >= 2 && template[1] == '%' then
      Prepend("%", Format(template[2..], args))
    else if |template| >= 2 && template[1] == 's' then
      (if |args| == 0 then None else Prepend(args[0], Format(template[2..], args[1..])))
    else None
  }

  /** Text without a percent sign is copied through unchanged. */
  lemma {:induction false} FormatLiteral(t: string, rest: string, args: seq<string>)
    requires '%' !in t
    ensures Format(t + rest, args) == Prepend(t, Format(rest, args))
    decreases |t|
  {
    if |t| > 0 {
      assert (t + rest)[1..] == t[1..] + rest;
      assert (t + rest)[0] == t[0];
      FormatLiteral(t[1..], rest, args);
      var o := Format(rest, args);
      if o.Some? {
        assert [t[0]] + (t[1..] + o.value) == t + o.value;
      }
    } else {
      assert t + rest == rest;
      var o := Format(rest, args);
      if o.Some? {
        assert t + o.value == o.value;
      }
    }
  }

  /** `%s` consumes exactly one argument and inserts it verbatim. */
  lemma FormatDirective(a: string, rest: string, args: seq<string>)
    ensures Format("%s" + rest, [a] + args) == Prepend(a, Format(rest, args))
  {
    var t := "%s" + rest;
    assert t[0] == '%' && t[1] == 's' && t[2..] == rest;
    assert ([a] + args)[1..] == args;
  }

  /** `%%` becomes a single `%` and consumes no argument. */
  lemma FormatEscape(rest: string, args: seq<string>)
    ensures Format("%%" + rest, args) == Prepend("%", Format(rest, args))
  {
    var t := "%%" + rest;
    assert t[0] == '%' && t[1] == '%' && t[2..] == rest;
  }

  /** Two prefixes in a row are one longer prefix. */
  lemma PrependPrepend(a: string, b: string, o: Option<string>)
    ensures Prepend(a, Prepend(b, o)) == Prepend(a + b, o)
  {
    if o.Some? {
      assert a + (b + o.value) == (a + b) + o.value;
    }
  }
}
