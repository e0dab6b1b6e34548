/**
  Python's printf-style formatting `fmt % ()` with an empty argument tuple,
  which is what the webhook handler's own `log_message(format, *args)` override
  does to a message logged without arguments. With nothing to convert, `%%` yields `%` and every
  other conversion specification raises; which exception is raised depends on
  how far CPython's specification parser gets (mapping key, flags, width,
  precision, length modifier, conversion character).
 */
module PyFormat {
  import opened PyStr

  /** `PY_SSIZE_T_MAX` on a 64-bit build: the largest width CPython accepts. */
  const SsizeMax: int := 0x7fff_ffff_ffff_ffff
  /** `INT_MAX`: the largest precision CPython accepts. */
  const IntMax: int := 0x7fff_ffff

  const Incomplete: string := "incomplete format"
  const NeedsMapping: string := "format requires a mapping"
  const NotEnoughArguments: string := "not enough arguments for format string"
  const WidthTooBig: string := "width too big"
  const PrecisionTooBig: string := "precision too big"

  /** The texts of the exceptions `fmt % ()` can raise. */
  predicate IsFormatError(m: string) {
    m == Incomplete || m == NeedsMapping || m == NotEnoughArguments
    || m == WidthTooBig || m == PrecisionTooBig
  }

  predicate IsDigit(c: char) {
    '0' <= c <= '9'
  }

  /** The conversion flags `-`, `+`, space, `#` and `0`. */
  predicate IsFlag(c: char) {
    c == '-' || c == '+' || c == ' ' || c == '#' || c == '0'
  }

  /** The length modifiers `h`, `l` and `L`, which CPython parses and ignores. */
  predicate IsLengthModifier(c: char) {
    c == 'h' || c == 'l' || c == 'L'
  }

  /** What is left of a specification once its flags are parsed. */
  function DropFlags(s: string): (r: string)
    ensures |r| <= |s| && r == s[|s| - |r|..]
    ensures forall k :: 0 <= k < |s| - |r| ==> IsFlag(s[k])
    ensures r != [] ==> !IsFlag(r[0])
    decreases |s|
  {
    if s != [] && IsFlag(s[0]) then DropFlags(s[1..]) else s
  }

  /** The number of digits `s` starts with. */
  function DigitRun(s: string): (n: nat)
    ensures n <= |s|
    ensures forall k :: 0 <= k < n ==> IsDigit(s[k])
    ensures n < |s| ==> !IsDigit(s[n])
    decreases |s|
  {
    if s != [] && IsDigit(s[0]) then 1 + DigitRun(s[1..]) else 0
  }

  /** The value of the decimal digits `ds` written after a number `acc`. */
  function DigitsValue(acc: nat, ds: string): nat
    requires forall k :: 0 <= k < |ds| ==> IsDigit(ds[k])
    decreases |ds|
  {
    if ds == [] then acc
    else
      assert IsDigit(ds[0]);
      DigitsValue(acc * 10 + (ds[0] as int - '0' as int), ds[1..])
  }

  /** Writing more digits never makes a number smaller. */
  lemma {:induction false} DigitsValueAtLeast(acc: nat, ds: string)
    requires forall k :: 0 <= k < |ds| ==> IsDigit(ds[k])
    ensures DigitsValue(acc, ds) >= acc
    decreases |ds|
  {
    if ds != [] {
      assert IsDigit(ds[0]);
      DigitsValueAtLeast(acc * 10 + (ds[0] as int - '0' as int), ds[1..]);
    }
  }

  /** Parses the rest of a decimal width or precision whose value so far is
      `acc`: what follows the digits, or `tooBig` once the value would pass
      `limit`. */
  function SkipNumber(s: string, acc: nat, limit: nat, tooBig: string): (r: Result<string>)
    ensures r.Ok? ==> |r.value| <= |s| && r.value == s[|s| - |r.value|..]
    ensures r.Ok? ==> r.value == [] || !IsDigit(r.value[0])
    ensures r.Err? ==> r.message == tooBig
    ensures var n := DigitRun(s);
      r.Ok? ==> r.value == s[n..] && (n > 0 ==> DigitsValue(acc, s[..n]) <= limit)
    ensures var n := DigitRun(s);
      r.Err? ==> n > 0 && DigitsValue(acc, s[..n]) > limit
    decreases |s|
  {
    if s != [] && IsDigit(s[0]) then
      var v := acc * 10 + (s[0] as int - '0' as int);
      var n := DigitRun(s);
      assert s[..n][1..] == s[1..][..n - 1];
      if v > limit then
        DigitsValueAtLeast(v, s[1..][..n - 1]);
        Err(tooBig)
      else SkipNumber(s[1..], v, limit, tooBig)
    else Ok(s)
  }

  /** The exception once width and precision are parsed and `w` is left: a
      length modifier is skipped, and then either the text has ended or a
      conversion character wants an argument that is not there. */
  function ConversionError(w: string): (m: string)
    ensures m == Incomplete || m == NotEnoughArguments
  {
    if w == [] then Incomplete
    else if IsLengthModifier(w[0]) then (if |w| == 1 then Incomplete else NotEnoughArguments)
    else NotEnoughArguments
  }

  /** The exception raised by a conversion specification other than `%%`, `s`
      being the text after its `%`. */
  function SpecError(s: string): (m: string)
    ensures IsFormatError(m)
  {
    if s == [] then Incomplete
    else if s[0] == '(' then NeedsMapping
    else
      var t := DropFlags(s);
      if t == [] then Incomplete
      else if t[0] == '*' then NotEnoughArguments
      else
        var afterWidth :=
          if IsDigit(t[0]) then SkipNumber(t[1..], t[0] as int - '0' as int, SsizeMax, WidthTooBig)
          else Ok(t);
        match afterWidth
        case Err(m) => m
        case Ok(u) =>
          if u == [] then Incomplete
          else if u[0] != '.' then ConversionError(u)
          else
            var v := u[1..];
            if v == [] then Incomplete
            else if v[0] == '*' then NotEnoughArguments
            else if IsDigit(v[0]) then
              match SkipNumber(v[1..], v[0] as int - '0' as int, IntMax, PrecisionTooBig)
              case Err(m) => m
              case Ok(w) => ConversionError(w)
            else ConversionError(v)
  }

  function PrependChar(c: char, r: Result<string>): Result<string> {
    match r
    case Ok(t) => Ok([c] + t)
    case Err(m) => Err(m)
  }

  /** `fmt % ()`: the formatted text, or the text of the exception raised at
      the first conversion specification that is not `%%`. */
  function PercentFormat(fmt: string): (r: Result<string>)
    ensures r.Err? ==> IsFormatError(r.message)
    decreases |fmt|
  {
    if fmt == [] then Ok([])
    else if fmt[0] != '%' then PrependChar(fmt[0], PercentFormat(fmt[1..]))
    else if |fmt| >= 2 && fmt[1] == '%' then PrependChar('%', PercentFormat(fmt[2..]))
    else Err(SpecError(fmt[1..]))
  }

  /** Doubles every `%`, so that formatting with no arguments gives `t` back. */
  function Escape(t: string): (r: string)
    ensures |r| >= |t|
    decreases |t|
  {
    if t == [] then []
    else (if t[0] == '%' then "%%" else [t[0]]) + Escape(t[1..])
  }

  /** Formatting undoes escaping. */
  lemma {:induction false} FormatEscaped(t: string)
    ensures PercentFormat(Escape(t)) == Ok(t)
    decreases |t|
  {
    if t != [] {
      FormatEscaped(t[1..]);
      var rest := Escape(t[1..]);
      if t[0] == '%' {
        assert Escape(t) == "%%" + rest;
        assert ("%%" + rest)[2..] == rest;
      } else {
        assert Escape(t) == [t[0]] + rest;
        assert ([t[0]] + rest)[1..] == rest;
      }
      assert [t[0]] + t[1..] == t;
    }
  }

  /** Formatting succeeds only on escaped text: `fmt % ()` does not raise
      exactly when `fmt` is `Escape(t)` for the text `t` it yields. */
  lemma {:induction false} FormatSucceedsOnlyOnEscaped(fmt: string)
    ensures PercentFormat(fmt).Ok? ==> Escape(PercentFormat(fmt).value) == fmt
    decreases |fmt|
  {
    if fmt != [] && PercentFormat(fmt).Ok? {
      var t := PercentFormat(fmt).value;
      if fmt[0] != '%' {
        FormatSucceedsOnlyOnEscaped(fmt[1..]);
        assert t == [fmt[0]] + PercentFormat(fmt[1..]).value;
        assert t[1..] == PercentFormat(fmt[1..]).value;
      } else {
        FormatSucceedsOnlyOnEscaped(fmt[2..]);
        assert t == "%" + PercentFormat(fmt[2..]).value;
        assert t[1..] == PercentFormat(fmt[2..]).value;
        assert fmt == "%%" + fmt[2..];
      }
    }
  }

  /** Text without `%` formats to itself. */
  lemma {:induction false} FormatPercentFree(s: string)
    requires '%' !in s
    ensures PercentFormat(s) == Ok(s)
    decreases |s|
  {
    if s != [] {
      assert '%' !in s[1..] by {
        assert forall c :: c in s[1..] ==> c in s;
      }
      FormatPercentFree(s[1..]);
      assert [s[0]] + s[1..] == s;
    }
  }

  /** Text without `%` in front of a message does not change whether, or how,
      formatting the message fails. */
  lemma {:induction false} FormatAfterPercentFree(p: string, s: string)
    requires '%' !in p
    ensures PercentFormat(p + s) ==
              match PercentFormat(s)
              case Ok(t) => Ok(p + t)
              case Err(m) => Err(m)
    decreases |p|
  {
    if p != [] {
      assert '%' !in p[1..] by {
        assert forall c :: c in p[1..] ==> c in p;
      }
      FormatAfterPercentFree(p[1..], s);
      assert (p + s)[0] == p[0];
      assert (p + s)[1..] == p[1..] + s;
      assert [p[0]] + (p[1..] + s) == p + s;
      assert p[0] != '%';
      assert PercentFormat(p + s) == PrependChar(p[0], PercentFormat(p[1..] + s));
      if PercentFormat(s).Ok? {
        var t := PercentFormat(s).value;
        assert [p[0]] + (p[1..] + t) == p + t;
      }
    } else {
      assert p + s == s;
      if PercentFormat(s).Ok? {
        assert p + PercentFormat(s).value == PercentFormat(s).value;
      }
    }
  }

  /** None of the exception texts holds a `%`, so logging one cannot raise. */
  lemma FormatErrorsHaveNoPercent(m: string)
    requires IsFormatError(m)
    ensures '%' !in m
  {
  }

  /** Formatting a concatenation whose first part formats: the parts format
      one after the other. */
  lemma {:induction false} FormatConcat(a: string, b: string)
    requires PercentFormat(a).Ok?
    ensures PercentFormat(a + b) ==
              match PercentFormat(b)
              case Ok(t) => Ok(PercentFormat(a).value + t)
              case Err(m) => Err(m)
    decreases |a|
  {
    if a == [] {
      assert a + b == b;
      if PercentFormat(b).Ok? {
        assert PercentFormat(a).value + PercentFormat(b).value == PercentFormat(b).value;
      }
    } else if a[0] != '%' {
      FormatConcat(a[1..], b);
      assert (a + b)[0] == a[0];
      assert (a + b)[1..] == a[1..] + b;
      if PercentFormat(b).Ok? {
        var t := PercentFormat(b).value;
        assert [a[0]] + (PercentFormat(a[1..]).value + t) == ([a[0]] + PercentFormat(a[1..]).value) + t;
      }
    } else {
      assert |a| >= 2 && a[1] == '%';
      FormatConcat(a[2..], b);
      assert (a + b)[0] == '%' && (a + b)[1] == '%';
      assert (a + b)[2..] == a[2..] + b;
      if PercentFormat(b).Ok? {
        var t := PercentFormat(b).value;
        assert ['%'] + (PercentFormat(a[2..]).value + t) == (['%'] + PercentFormat(a[2..]).value) + t;
      }
    }
  }

  /** A text that formats, cut where no `%` follows the cut, leaves two parts
      that each format: a `%%` pair never straddles such a cut. */
  lemma {:induction false} FormatSplit(a: string, b: string)
    requires PercentFormat(a + b).Ok?
    requires b == [] || b[0] != '%'
    ensures PercentFormat(a).Ok? && PercentFormat(b).Ok?
    decreases |a|
  {
    if a == [] {
      assert a + b == b;
    } else if a[0] != '%' {
      assert (a + b)[0] == a[0];
      assert (a + b)[1..] == a[1..] + b;
      FormatSplit(a[1..], b);
    } else {
      assert (a + b)[0] == '%';
      assert |a + b| >= 2 && (a + b)[1] == '%';
      assert (a + b)[2..] == a[2..] + b;
      FormatSplit(a[2..], b);
    }
  }

  /** Two texts with `%` at the same positions, and nowhere else. */
  predicate SamePercents(s: string, t: string) {
    |s| == |t| && forall i :: 0 <= i < |s| ==> (s[i] == '%' <==> t[i] == '%')
  }

  /** Whether formatting succeeds depends only on where the `%` are. */
  lemma {:induction false} FormatOkDependsOnlyOnPercents(s: string, t: string)
    requires SamePercents(s, t)
    ensures PercentFormat(s).Ok? <==> PercentFormat(t).Ok?
    decreases |s|
  {
    if s != [] {
      assert s[0] == '%' <==> t[0] == '%';
      if s[0] != '%' {
        assert SamePercents(s[1..], t[1..]) by {
          forall i | 0 <= i < |s[1..]|
            ensures s[1..][i] == '%' <==> t[1..][i] == '%'
          {
            assert s[1..][i] == s[i + 1] && t[1..][i] == t[i + 1];
          }
        }
        FormatOkDependsOnlyOnPercents(s[1..], t[1..]);
      } else if |s| >= 2 && s[1] == '%' {
        assert t[1] == '%';
        assert SamePercents(s[2..], t[2..]) by {
          forall i | 0 <= i < |s[2..]|
            ensures s[2..][i] == '%' <==> t[2..][i] == '%'
          {
            assert s[2..][i] == s[i + 2] && t[2..][i] == t[i + 2];
          }
        }
        FormatOkDependsOnlyOnPercents(s[2..], t[2..]);
      } else {
        assert !(|t| >= 2 && t[1] == '%');
      }
    }
  }
}
