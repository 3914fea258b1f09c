/**
 * The pieces of Python 2 semantics that the console script relies on:
 * the substring test `sub in s`, indexing a list (negative indices count
 * from the end), `str()` of a non-negative integer, `int()` of a menu
 * answer, and the `%` operator applied to a template and a tuple of
 * strings.
 */
module Builtins {
  import opened Wrappers

  // ---------------------------------------------------------------------
  // Substrings

  /** Python's `sub in s` on strings: `sub` occurs somewhere in `s`. */
  predicate Contains(s: string, sub: string) {
    exists i | 0 <= i <= |s| - |sub| :: OccursAt(s, sub, i)
  }

  predicate OccursAt(s: string, sub: string, i: int)
    requires 0 <= i <= |s| - |sub|
  {
    s[i..i + |sub|] == sub
  }

  predicate EndsWith(s: string, suffix: string) {
    |suffix| <= |s| && s[|s| - |suffix|..] == suffix
  }

  lemma ContainsItself(s: string)
    ensures Contains(s, s)
  {
    assert OccursAt(s, s, 0);
  }

  /** An occurrence stays an occurrence when text is put in front. */
  lemma ContainsAfter(pre: string, s: string, sub: string)
    requires Contains(s, sub)
    ensures Contains(pre + s, sub)
  {
    var i :| 0 <= i <= |s| - |sub| && OccursAt(s, sub, i);
    assert (pre + s)[|pre| + i..|pre| + i + |sub|] == s[i..i + |sub|];
    assert OccursAt(pre + s, sub, |pre| + i);
  }

  /** An occurrence stays an occurrence when text is put behind. */
  lemma ContainsBefore(s: string, post: string, sub: string)
    requires Contains(s, sub)
    ensures Contains(s + post, sub)
  {
    var i :| 0 <= i <= |s| - |sub| && OccursAt(s, sub, i);
    assert (s + post)[i..i + |sub|] == s[i..i + |sub|];
    assert OccursAt(s + post, sub, i);
  }

  // ---------------------------------------------------------------------
  // Indexing

  /** `s[j]` in Python: a negative index counts from the end; any other index raises IndexError (None). */
  function Index<T>(s: seq<T>, j: int): Option<T> {
    if 0 <= j < |s| then Some(s[j])
    else if -|s| <= j < 0 then Some(s[|s| + j])
    else None
  }

  // ---------------------------------------------------------------------
  // Decimal text

  predicate IsDigit(c: char) { '0' <= c <= '9' }

  predicate AllDigits(s: string) { forall k | 0 <= k < |s| :: IsDigit(s[k]) }

  function DigitChar(d: nat): (c: char)
    requires d < 10
    ensures IsDigit(c) && c as int - '0' as int == d
  {
    ('0' as int + d) as char
  }

  /** The value of a string of decimal digits, most significant digit first. */
  function DigitsValue(s: string): nat
    requires AllDigits(s)
  {
    if s == [] then 0
    else DigitsValue(s[..|s| - 1]) * 10 + (s[|s| - 1] as int - '0' as int)
  }

  /** `str(n)`, which is also what `"%s" % n` inserts, for a non-negative integer. */
  function Str(n: nat): string {
    if n < 10 then [DigitChar(n)] else Str(n / 10) + [DigitChar(n % 10)]
  }

  /** `str(n)` is a non-empty run of digits without a leading zero that denotes `n`. */
  lemma {:induction false} StrIsDecimal(n: nat)
    ensures |Str(n)| > 0 && AllDigits(Str(n))
    ensures DigitsValue(Str(n)) == n
    ensures Str(n)[0] == '0' ==> n == 0
  {
    if n >= 10 {
      StrIsDecimal(n / 10);
      var s := Str(n);
      assert s == Str(n / 10) + [DigitChar(n % 10)];
      assert s[..|s| - 1] == Str(n / 10);
      assert s[0] == Str(n / 10)[0];
    }
  }

  /** C's `isspace` in the default locale: space, tab, line feed, vertical tab, form feed, carriage return. */
  predicate IsSpace(c: char) { c == ' ' || '\t' <= c <= '\r' }

  predicate AllSpace(s: string) { forall k | 0 <= k < |s| :: IsSpace(s[k]) }

  /** The text after its leading whitespace. */
  function SkipSpace(s: string): string {
    if s != [] && IsSpace(s[0]) then SkipSpace(s[1..]) else s
  }

  /** The text before its trailing whitespace. */
  function TrimEnd(s: string): string {
    if s != [] && IsSpace(s[|s| - 1]) then TrimEnd(s[..|s| - 1]) else s
  }

  /**
   * `int(s)` for a menu answer, a byte string read in base 10: whitespace
   * around the answer is ignored, then an optional sign, more whitespace,
   * and one or more decimal digits; any other answer, the empty one
   * included, raises ValueError (None).
   */
  function ParseInt(s: string): Option<int> {
    ParseTrimmed(TrimEnd(SkipSpace(s)))
  }

  /** `int` of an answer without surrounding whitespace. */
  function ParseTrimmed(t: string): Option<int> {
    if |t| > 0 && (t[0] == '-' || t[0] == '+') then
      var d := SkipSpace(t[1..]);
      if |d| > 0 && AllDigits(d) then
        var v: int := DigitsValue(d);
        Some(if t[0] == '-' then -v else v)
      else
        None
    else if |t| > 0 && AllDigits(t) then
      Some(DigitsValue(t))
    else
      None
  }

  lemma {:induction false} SkipSpacePrefix(ws: string, s: string)
    requires AllSpace(ws)
    ensures SkipSpace(ws + s) == SkipSpace(s)
  {
    if ws != [] {
      assert (ws + s)[0] == ws[0];
      assert (ws + s)[1..] == ws[1..] + s;
      SkipSpacePrefix(ws[1..], s);
    } else {
      assert ws + s == s;
    }
  }

  lemma {:induction false} TrimEndSuffix(s: string, ws: string)
    requires AllSpace(ws)
    ensures TrimEnd(s + ws) == TrimEnd(s)
  {
    if ws != [] {
      var u := s + ws;
      assert u[|u| - 1] == ws[|ws| - 1];
      assert u[..|u| - 1] == s + ws[..|ws| - 1];
      TrimEndSuffix(s, ws[..|ws| - 1]);
    } else {
      assert s + ws == s;
    }
  }

  /** Reading back a rendered number gives the number: `int(str(n)) == n` and `int("-" + str(n)) == -n`. */
  lemma ParseIntStr(n: nat)
    ensures ParseInt(Str(n)) == Some(n)
    ensures ParseInt("-" + Str(n)) == Some(-(n as int))
  {
    StrIsDecimal(n);
    var s := Str(n);
    assert SkipSpace(s) == s && TrimEnd(s) == s;
    assert ParseTrimmed(s) == Some(n);
    var m := "-" + s;
    assert m[1..] == s && m[|m| - 1] == s[|s| - 1];
    assert SkipSpace(m) == m && TrimEnd(m) == m;
    assert ParseTrimmed(m) == Some(-(n as int));
  }

  /**
   * `int` ignores whitespace before and after the answer and between its
   * sign and its digits, so `int(" 5 ") == 5` and `int("- 1") == -1`.
   */
  lemma ParseIntSpaced(n: nat, before: string, between: string, after: string)
    requires AllSpace(before) && AllSpace(between) && AllSpace(after)
    ensures ParseInt(before + Str(n) + after) == Some(n)
    ensures ParseInt(before + "-" + between + Str(n) + after) == Some(-(n as int))
    ensures ParseInt(before + "+" + between + Str(n) + after) == Some(n)
  {
    ParseIntStr(n);
    var s := Str(n);
    SkipSpacePrefix(before, s + after);
    assert before + s + after == before + (s + after);
    StrIsDecimal(n);
    assert (s + after)[0] == s[0];
    assert SkipSpace(s + after) == s + after;
    TrimEndSuffix(s, after);
    assert TrimEnd(s) == s && SkipSpace(s) == s;
    SignedSpaced(n, '-', before, between, after);
    SignedSpaced(n, '+', before, between, after);
  }

  lemma SignedSpaced(n: nat, sign: char, before: string, between: string, after: string)
    requires sign == '-' || sign == '+'
    requires AllSpace(before) && AllSpace(between) && AllSpace(after)
    ensures ParseInt(before + [sign] + between + Str(n) + after) == Some(if sign == '-' then -(n as int) else n)
  {
    StrIsDecimal(n);
    var s := Str(n);
    var core := [sign] + between + s;
    assert before + [sign] + between + s + after == before + (core + after);
    SkipSpacePrefix(before, core + after);
    assert (core + after)[0] == sign;
    TrimEndSuffix(core, after);
    assert core[|core| - 1] == s[|s| - 1];
    assert TrimEnd(core) == core;
    assert core[1..] == between + s;
    SkipSpacePrefix(between, s);
    assert SkipSpace(s) == s;
    assert ParseTrimmed(core) == Some(if sign == '-' then -(n as int) else n);
  }

  // ---------------------------------------------------------------------
  // The `%` operator

  datatype FormatError =
    | NotEnoughArguments   // TypeError: not enough arguments for format string
    | NotAllConverted      // TypeError: not all arguments converted during string formatting
    | UnsupportedDirective // ValueError: unsupported format character, or incomplete format

  function Prepend(p: string, r: Result<string, FormatError>): Result<string, FormatError> {
    match r
    case Ok(s) => Ok(p + s)
    case Err(e) => Err(e)
  }

  /**
   * `t % tuple(args)` where every argument is already text: each `%s`
   * takes the next argument, `%%` stands for a percent sign, and the
   * template is read from left to right, so the first problem met is the
   * error raised. A single non-tuple string argument behaves as a
   * one-element tuple.
   */
  function Format(t: string, args: seq<string>): Result<string, FormatError>
    decreases |t|
  {
    if t == [] then
      if args == [] then Ok("") else Err(NotAllConverted)
    else if t[0] != '%' then
      Prepend(t[..1], Format(t[1..], args))
    else if |t| == 1 || (t[1] != '%' && t[1] != 's') then
      Err(UnsupportedDirective)
    else if t[1] == '%' then
      Prepend("%", Format(t[2..], args))
    else if args == [] then
      Err(NotEnoughArguments)
    else
      Prepend(args[0], Format(t[2..], args[1..]))
  }

  /** A piece of template text without any directive. */
  predicate Literal(s: string) { '%' !in s }

  predicate AllLiteral(chunks: seq<string>) {
    forall k | 0 <= k < |chunks| :: Literal(chunks[k])
  }

  /** The template `chunks[0] %s chunks[1] %s ... %s chunks[n]`. */
  function Pattern(chunks: seq<string>): string
    requires |chunks| > 0
  {
    if |chunks| == 1 then chunks[0] else chunks[0] + "%s" + Pattern(chunks[1..])
  }

  /** `chunks[0] args[0] chunks[1] args[1] ... args[n-1] chunks[n]`: the slots filled in order. */
  function Render(chunks: seq<string>, args: seq<string>): string
    requires |chunks| == |args| + 1
  {
    if args == [] then chunks[0] else chunks[0] + args[0] + Render(chunks[1..], args[1..])
  }

  lemma PatternOfTwo(a: string, b: string)
    ensures Pattern([a, b]) == a + "%s" + b
  {
    assert [a, b][1..] == [b];
  }

  lemma PatternOfThree(a: string, b: string, c: string)
    ensures Pattern([a, b, c]) == a + "%s" + b + "%s" + c
  {
    assert [a, b, c][1..] == [b, c];
    PatternOfTwo(b, c);
    assert a + "%s" + (b + "%s" + c) == a + "%s" + b + "%s" + c;
  }

  lemma PatternOfFour(a: string, b: string, c: string, d: string)
    ensures Pattern([a, b, c, d]) == a + "%s" + b + "%s" + c + "%s" + d
  {
    assert [a, b, c, d][1..] == [b, c, d];
    PatternOfThree(b, c, d);
    assert a + "%s" + (b + "%s" + c + "%s" + d) == a + "%s" + b + "%s" + c + "%s" + d;
  }

  lemma RenderOfTwo(a: string, b: string, x: string)
    ensures Render([a, b], [x]) == a + x + b
  {
    assert [a, b][1..] == [b] && [x][1..] == [];
  }

  lemma RenderOfThree(a: string, b: string, c: string, x: string, y: string)
    ensures Render([a, b, c], [x, y]) == a + x + b + y + c
  {
    assert [a, b, c][1..] == [b, c] && [x, y][1..] == [y];
    RenderOfTwo(b, c, y);
    assert a + x + (b + y + c) == a + x + b + y + c;
  }

  lemma RenderOfFour(a: string, b: string, c: string, d: string, x: string, y: string, z: string)
    ensures Render([a, b, c, d], [x, y, z]) == a + x + b + y + c + z + d
  {
    assert [a, b, c, d][1..] == [b, c, d] && [x, y, z][1..] == [y, z];
    RenderOfThree(b, c, d, y, z);
    assert a + x + (b + y + c + z + d) == a + x + b + y + c + z + d;
  }

  /** Text without directives is copied through and consumes no argument. */
  lemma {:induction false} FormatLiteral(lit: string, t: string, args: seq<string>)
    requires Literal(lit)
    ensures Format(lit + t, args) == Prepend(lit, Format(t, args))
  {
    if lit == [] {
      assert lit + t == t;
      match Format(t, args)
      case Ok(s) => assert lit + s == s;
      case Err(_) =>
    } else {
      var u := lit + t;
      assert lit[0] in lit;
      assert u[0] == lit[0] && u[0] != '%';
      assert u[1..] == lit[1..] + t;
      assert u[..1] == lit[..1];
      assert forall c | c in lit[1..] :: c in lit;
      FormatLiteral(lit[1..], t, args);
      match Format(t, args)
      case Ok(s) => assert lit[..1] + (lit[1..] + s) == lit + s;
      case Err(_) =>
    }
  }

  /**
   * Positional substitution: a template made of literal chunks and `%s`
   * slots is filled in order when the number of arguments equals the
   * number of slots; too few raises "not enough arguments", too many
   * raises "not all arguments converted".
   */
  lemma {:induction false} FormatPattern(chunks: seq<string>, args: seq<string>)
    requires |chunks| > 0 && AllLiteral(chunks)
    ensures |args| + 1 == |chunks| ==> Format(Pattern(chunks), args) == Ok(Render(chunks, args))
    ensures |args| + 1 < |chunks| ==> Format(Pattern(chunks), args) == Err(NotEnoughArguments)
    ensures |args| + 1 > |chunks| ==> Format(Pattern(chunks), args) == Err(NotAllConverted)
  {
    assert Literal(chunks[0]);
    if |chunks| == 1 {
      FormatLiteral(chunks[0], "", args);
      assert chunks[0] + "" == chunks[0];
      match Format("", args)
      case Ok(s) => assert chunks[0] + s == chunks[0];
      case Err(_) =>
    } else {
      var rest := Pattern(chunks[1..]);
      var t := "%s" + rest;
      assert Pattern(chunks) == chunks[0] + t;
      FormatLiteral(chunks[0], t, args);
      assert t[0] == '%' && t[1] == 's' && t[2..] == rest;
      TailLiteral(chunks);
      if args != [] {
        FormatPattern(chunks[1..], args[1..]);
        FormatSlot(rest, args);
        if |args| + 1 == |chunks| {
          var r := Render(chunks[1..], args[1..]);
          assert chunks[0] + (args[0] + r) == chunks[0] + args[0] + r;
        }
      }
    }
  }

  /** Positional substitution into a slotted template followed by literal text. */
  lemma {:induction false} FormatPatternSuffix(chunks: seq<string>, args: seq<string>, suffix: string)
    requires |chunks| == |args| + 1 && AllLiteral(chunks) && Literal(suffix)
    ensures Format(Pattern(chunks) + suffix, args) == Ok(Render(chunks, args) + suffix)
  {
    assert Literal(chunks[0]);
    if args == [] {
      assert Literal(chunks[0] + suffix) by {
        assert forall c | c in chunks[0] + suffix :: c in chunks[0] || c in suffix;
      }
      FormatLiteral(chunks[0] + suffix, "", args);
      assert chunks[0] + suffix + "" == chunks[0] + suffix;
      assert Format("", args) == Ok("");
      assert chunks[0] + suffix + "" == Render(chunks, args) + suffix;
    } else {
      var rest := Pattern(chunks[1..]) + suffix;
      var t := "%s" + rest;
      assert Pattern(chunks) + suffix == chunks[0] + t;
      FormatLiteral(chunks[0], t, args);
      TailLiteral(chunks);
      FormatPatternSuffix(chunks[1..], args[1..], suffix);
      var r := Render(chunks[1..], args[1..]);
      FormatSlot(rest, args);
      assert Format(t, args) == Ok(args[0] + (r + suffix));
      assert chunks[0] + (args[0] + (r + suffix)) == chunks[0] + args[0] + r + suffix;
    }
  }

  lemma TailLiteral(chunks: seq<string>)
    requires |chunks| > 0 && AllLiteral(chunks)
    ensures AllLiteral(chunks[1..])
  {
    forall k | 0 <= k < |chunks[1..]| ensures Literal(chunks[1..][k]) {
      assert chunks[1..][k] == chunks[k + 1];
    }
  }

  /** A `%s` slot at the front of the template takes the first argument. */
  lemma FormatSlot(rest: string, args: seq<string>)
    requires args != []
    ensures Format("%s" + rest, args) == Prepend(args[0], Format(rest, args[1..]))
  {
    var t := "%s" + rest;
    assert t[0] == '%' && t[1] == 's' && t[2..] == rest;
  }

  /** A template with one `%s` slot between literal text, filled. */
  lemma FormatOneSlot(a: string, b: string, x: string)
    requires Literal(a) && Literal(b)
    ensures Format(a + "%s" + b, [x]) == Ok(a + x + b)
  {
    PatternOfTwo(a, b);
    assert AllLiteral([a, b]);
    FormatPattern([a, b], [x]);
    RenderOfTwo(a, b, x);
  }

  /** A leading slot followed by literal text. */
  lemma SlotThenLiteral(d: string, x: string)
    requires Literal(d)
    ensures Format("%s" + d, [x]) == Ok(x + d)
  {
    assert Literal("");
    FormatOneSlot("", d, x);
    assert "" + "%s" + d == "%s" + d;
    assert "" + x + d == x + d;
  }

  /** A filled template ends with its last chunk. */
  lemma {:induction false} RenderEndsWithLast(chunks: seq<string>, args: seq<string>)
    requires |chunks| == |args| + 1
    ensures EndsWith(Render(chunks, args), chunks[|chunks| - 1])
  {
    if args != [] {
      RenderEndsWithLast(chunks[1..], args[1..]);
      var r := Render(chunks[1..], args[1..]);
      var p := chunks[0] + args[0];
      assert Render(chunks, args) == p + r;
      assert (p + r)[|p + r| - |chunks[|chunks| - 1]|..] == r[|r| - |chunks[|chunks| - 1]|..];
    } else {
      assert Render(chunks, args)[0..] == chunks[0];
    }
  }

  /** Every argument appears in the filled template. */
  lemma {:induction false} RenderContainsArg(chunks: seq<string>, args: seq<string>, k: nat)
    requires |chunks| == |args| + 1 && k < |args|
    ensures Contains(Render(chunks, args), args[k])
  {
    var r := Render(chunks[1..], args[1..]);
    assert Render(chunks, args) == chunks[0] + (args[0] + r);
    if k == 0 {
      ContainsItself(args[0]);
      ContainsBefore(args[0], r, args[0]);
    } else {
      RenderContainsArg(chunks[1..], args[1..], k - 1);
      ContainsAfter(args[0], r, args[k]);
    }
    ContainsAfter(chunks[0], args[0] + r, args[k]);
  }

  /** Filling literal slots with literal arguments leaves no directive behind. */
  lemma {:induction false} RenderLiteral(chunks: seq<string>, args: seq<string>)
    requires |chunks| == |args| + 1 && AllLiteral(chunks)
    requires forall k | 0 <= k < |args| :: Literal(args[k])
    ensures Literal(Render(chunks, args))
  {
    if args != [] {
      RenderLiteral(chunks[1..], args[1..]);
      assert Literal(chunks[0]) && Literal(args[0]);
      LiteralConcat(chunks[0], args[0]);
      LiteralConcat(chunks[0] + args[0], Render(chunks[1..], args[1..]));
    }
  }

  lemma LiteralConcat(a: string, b: string)
    requires Literal(a) && Literal(b)
    ensures Literal(a + b)
  {
    assert forall c | c in a + b :: c in a || c in b;
  }

  /** A decimal rendering holds no `%`. */
  lemma StrLiteral(n: nat)
    ensures Literal(Str(n))
  {
    StrIsDecimal(n);
    assert forall k | 0 <= k < |Str(n)| :: Str(n)[k] != '%';
  }
}
