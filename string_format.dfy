/** The part of `java.util.Formatter` (`String.format`) the mail templates use: `%s` takes the
    next argument, `%%` is a percent sign and `%n` a line break. The whole format is parsed
    before anything is printed, so an unknown conversion anywhere is reported first; a `%s`
    with no argument left is reported next. */
module StringFormat {
  import opened Wrappers
  import opened Exceptions

  /** `MissingFormatArgumentException`, an `IllegalArgumentException`. */
  const MissingArgument := IllegalArgumentException("Format specifier '%s'")

  /** `UnknownFormatConversionException`, an `IllegalArgumentException`. */
  function UnknownConversion(c: char): Exception {
    IllegalArgumentException("Conversion = '" + [c] + "'")
  }

  /** The first conversion character the parser rejects (`%` itself for a trailing `%`). */
  function BadConversion(fmt: string): Option<char>
    decreases |fmt|
  {
    if fmt == [] then None
    else if fmt[0] != '%' then BadConversion(fmt[1..])
    else if |fmt| == 1 then Some('%')
    else if fmt[1] == 's' || fmt[1] == '%' || fmt[1] == 'n' then BadConversion(fmt[2..])
    else Some(fmt[1])
  }

  /** How many arguments the format asks for: one per `%s`. */
  function Specifiers(fmt: string): nat
    decreases |fmt|
  {
    if fmt == [] then 0
    else if fmt[0] != '%' || |fmt| == 1 then Specifiers(fmt[1..])
    else (if fmt[1] == 's' then 1 else 0) + Specifiers(fmt[2..])
  }

  function Prepend(s: string, r: Result<string, Exception>): Result<string, Exception> {
    match r
    case Ok(v) => Ok(s + v)
    case Err(e) => Err(e)
  }

  /** Printing a parsed format left to right. */
  function Print(fmt: string, args: seq<string>): (r: Result<string, Exception>)
    requires BadConversion(fmt).None?
    decreases |fmt|
    ensures r.Ok? <==> Specifiers(fmt) <= |args|
    ensures r.Err? ==> r.error == MissingArgument
  {
    if fmt == [] then Ok("")
    else if fmt[0] != '%' then Prepend([fmt[0]], Print(fmt[1..], args))
    else if fmt[1] == 's' then
      if args == [] then Err(MissingArgument) else Prepend(args[0], Print(fmt[2..], args[1..]))
    else if fmt[1] == '%' then Prepend("%", Print(fmt[2..], args))
    else Prepend("\n", Print(fmt[2..], args))
  }

  /** `String.format(fmt, args...)`. */
  function Format(fmt: string, args: seq<string>): (r: Result<string, Exception>)
    ensures r.Ok? <==> BadConversion(fmt).None? && Specifiers(fmt) <= |args|
    ensures BadConversion(fmt).Some? ==> r == Err(UnknownConversion(BadConversion(fmt).value))
    ensures BadConversion(fmt).None? && Specifiers(fmt) > |args| ==> r == Err(MissingArgument)
  {
    if BadConversion(fmt).Some? then Err(UnknownConversion(BadConversion(fmt).value))
    else Print(fmt, args)
  }

  /** One character other than `%` is printed as it is, before whatever follows it. */
  lemma LiteralChar(c: char, rest: string, args: seq<string>)
    requires c != '%'
    ensures BadConversion([c] + rest) == BadConversion(rest)
    ensures Specifiers([c] + rest) == Specifiers(rest)
    ensures BadConversion(rest).None? ==> Print([c] + rest, args) == Prepend([c], Print(rest, args))
  {
    assert ([c] + rest)[1..] == rest;
  }

  /** Text without `%` is printed as it is, before whatever follows it. */
  lemma {:induction false} LiteralPrefix(t: string, rest: string, args: seq<string>)
    requires '%' !in t
    ensures BadConversion(t + rest) == BadConversion(rest)
    ensures Specifiers(t + rest) == Specifiers(rest)
    ensures BadConversion(rest).None? ==> Print(t + rest, args) == Prepend(t, Print(rest, args))
  {
    if t == [] {
      assert t + rest == rest;
      if BadConversion(rest).None? {
        match Print(rest, args)
        case Ok(v) => assert t + v == v;
        case Err(_) =>
      }
    } else {
      var tail := t[1..];
      assert t[0] in t;
      assert forall c :: c in tail ==> c in t;
      assert t + rest == [t[0]] + (tail + rest);
      LiteralPrefix(tail, rest, args);
      LiteralChar(t[0], tail + rest, args);
      if BadConversion(rest).None? {
        match Print(rest, args)
        case Ok(v) => assert [t[0]] + (tail + v) == t + v;
        case Err(_) =>
      }
    }
  }

  /** A `%s` prints its argument and leaves the remaining ones to the rest of the format. */
  lemma StringSpecifier(a: string, rest: string, args: seq<string>)
    ensures BadConversion("%s" + rest) == BadConversion(rest)
    ensures Specifiers("%s" + rest) == 1 + Specifiers(rest)
    ensures BadConversion(rest).None? ==> Print("%s" + rest, [a] + args) == Prepend(a, Print(rest, args))
  {
    assert ("%s" + rest)[2..] == rest;
    assert ([a] + args)[1..] == args;
  }

  /** A format without `%` is its own output. */
  lemma LiteralFormat(t: string, args: seq<string>)
    requires '%' !in t
    ensures Format(t, args) == Ok(t)
  {
    LiteralPrefix(t, "", args);
    assert t + "" == t;
  }

  /** A template with two `%s` between literal pieces, given two arguments, prints each
      argument in its place. */
  lemma {:induction false} TwoConversions(o: string, m: string, c: string, x: string, y: string)
    requires '%' !in o && '%' !in m && '%' !in c
    ensures Format(o + "%s" + m + "%s" + c, [x, y]) == Ok(o + x + m + y + c)
  {
    var rest := m + ("%s" + c);
    assert o + "%s" + m + "%s" + c == o + ("%s" + rest);
    LiteralPrefix(o, "%s" + rest, [x, y]);
    assert [x, y] == [x] + [y];
    StringSpecifier(x, rest, [y]);
    LiteralPrefix(m, "%s" + c, [y]);
    assert [y] == [y] + [];
    StringSpecifier(y, c, []);
    LiteralFormat(c, []);
    assert o + x + m + y + c == o + (x + (m + (y + c)));
  }

  /** The same template followed by any text, given one argument, always fails; it fails on the
      missing argument when the text adds no `%`. */
  lemma {:induction false} TwoConversionsOneArgument(o: string, m: string, c: string, tail: string, x: string)
    requires '%' !in o && '%' !in m && '%' !in c
    ensures Format(o + "%s" + m + "%s" + c + tail, [x]).Err?
    ensures '%' !in tail ==> Format(o + "%s" + m + "%s" + c + tail, [x]) == Err(MissingArgument)
  {
    var rest := m + ("%s" + (c + tail));
    assert o + "%s" + m + "%s" + c + tail == o + ("%s" + rest);
    LiteralPrefix(o, "%s" + rest, [x]);
    StringSpecifier(x, rest, []);
    LiteralPrefix(m, "%s" + (c + tail), []);
    StringSpecifier(x, c + tail, []);
    LiteralPrefix(c, tail, []);
    if '%' !in tail {
      LiteralPrefix(tail, "", []);
      assert tail + "" == tail;
    }
  }
}
