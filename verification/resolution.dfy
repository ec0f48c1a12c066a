/**
  The `"WxH"` resolution string of the settings file (`from_json` in
  Config.cpp): `find`, `substr` and `std::stoi` of the C++ standard library,
  modelled on `seq<char>` with `size_t` wrap-around and a 32-bit `int`.
*/
module Resolution {
  import opened Options

  /** `std::string::npos`, the largest 64-bit `size_t`. */
  const NPOS: nat := 0xFFFF_FFFF_FFFF_FFFF
  const SIZE_MOD: nat := 0x1_0000_0000_0000_0000

  const INT_MIN: int := -0x8000_0000
  const INT_MAX: int := 0x7FFF_FFFF

  /** What `std::stoi` throws. */
  datatype StoiError = InvalidArgument | OutOfRange

  datatype Resolution = Resolution(width: int, height: int)

  /** `s.find('x', 0)`: the first index of an `'x'`, or `npos`. */
  function FindX(s: string): (p: nat)
    requires |s| < NPOS
    ensures p == NPOS || p < |s|
    ensures p < |s| ==> s[p] == 'x' && 'x' !in s[..p]
    ensures p == NPOS <==> 'x' !in s
  {
    if |s| == 0 then NPOS
    else if s[0] == 'x' then 0
    else
      var q := FindX(s[1..]);
      if q == NPOS then NPOS
      else
        assert s[..q + 1] == [s[0]] + s[1..][..q];
        q + 1
  }

  /**
    `s.substr(pos, count)`: the text from `pos`, at most `count` characters;
    `std::out_of_range` when `pos` is past the end.
  */
  function Substr(s: string, pos: nat, count: nat): (r: Option<string>)
    ensures r.None? <==> pos > |s|
    ensures r.Some? ==> |r.value| <= count && pos + |r.value| <= |s| && r.value == s[pos..pos + |r.value|]
    ensures r.Some? && pos + count <= |s| ==> |r.value| == count
    ensures r.Some? && pos + count > |s| ==> r.value == s[pos..]
  {
    if pos > |s| then None
    else if pos + count <= |s| then Some(s[pos..pos + count])
    else Some(s[pos..])
  }

  /** C `isspace` in the "C" locale. */
  predicate IsSpace(c: char) {
    c == ' ' || c == '\t' || c == '\n' || c == '\U{000B}' || c == '\U{000C}' || c == '\r'
  }

  predicate IsDigit(c: char) {
    '0' as int <= c as int <= '9' as int
  }

  /** The value of one decimal digit. */
  function DigitValue(c: char): (d: nat)
    requires IsDigit(c)
    ensures d < 10
  {
    (c as int) - ('0' as int)
  }

  /** The text after the leading white space. */
  function SkipSpace(s: string): (r: string)
    ensures |r| <= |s| && r == s[|s| - |r|..]
    ensures forall i :: 0 <= i < |s| - |r| ==> IsSpace(s[i])
    ensures |r| > 0 ==> !IsSpace(r[0])
  {
    if |s| > 0 && IsSpace(s[0]) then SkipSpace(s[1..]) else s
  }

  /** Length of the leading run of decimal digits. */
  function DigitRun(s: string): (n: nat)
    ensures n <= |s|
    ensures forall i :: 0 <= i < n ==> IsDigit(s[i])
    ensures n < |s| ==> !IsDigit(s[n])
  {
    if |s| > 0 && IsDigit(s[0]) then 1 + DigitRun(s[1..]) else 0
  }

  /** Only decimal digits. */
  predicate AllDigits(d: string) {
    forall i :: 0 <= i < |d| ==> IsDigit(d[i])
  }

  /** The value of a string of decimal digits. */
  function DigitsValue(d: string): nat
    requires AllDigits(d)
  {
    if |d| == 0 then 0
    else DigitsValue(d[..|d| - 1]) * 10 + DigitValue(d[|d| - 1])
  }

  /**
    `std::stoi(s)` in base 10: white space, an optional sign and the longest run
    of digits after it (the rest is ignored). No digit is `invalid_argument`;
    a value outside the 32-bit range is `out_of_range`.
  */
  function Stoi(s: string): (r: Result<int, StoiError>)
    ensures r.Ok? ==> INT_MIN <= r.value <= INT_MAX
  {
    ReadSigned(SkipSpace(s))
  }

  /** The text after the white space: an optional sign, then the conversion. */
  function ReadSigned(t: string): (r: Result<int, StoiError>)
    ensures r.Ok? ==> INT_MIN <= r.value <= INT_MAX
  {
    if |t| > 0 && t[0] == '-' then Convert(true, t[1..])
    else if |t| > 0 && t[0] == '+' then Convert(false, t[1..])
    else Convert(false, t)
  }

  /** A magnitude with its sign. */
  function Signed(negative: bool, v: nat): int {
    if negative then -(v as int) else v
  }

  predicate InIntRange(v: int) {
    INT_MIN <= v <= INT_MAX
  }

  /** The conversion after the sign: the leading digits, negated for a minus sign, range-checked. */
  function Convert(negative: bool, rest: string): (r: Result<int, StoiError>)
    ensures r == Err(InvalidArgument) <==> DigitRun(rest) == 0
    ensures r.Ok? ==> INT_MIN <= r.value <= INT_MAX
  {
    var n := DigitRun(rest);
    if n == 0 then Err(InvalidArgument)
    else
      var value := Signed(negative, DigitsValue(rest[..n]));
      if value < INT_MIN || value > INT_MAX then Err(OutOfRange) else Ok(value)
  }

  /** The width text, `resString.substr(0, resString.find("x", 0))`. */
  function WidthText(s: string): (w: string)
    requires |s| < NPOS
    ensures |w| <= |s| && w == s[..|w|] && 'x' !in w
    ensures |w| < |s| ==> s[|w|] == 'x'
    ensures 'x' !in s ==> w == s
  {
    Substr(s, 0, FindX(s)).value
  }

  /**
    The height text, `resString.substr(resString.find("x", 0) + 1, length)`.
    Without an `'x'`, `npos + 1` wraps round to 0 and the height text is the
    whole string, like the width text.
  */
  function HeightText(s: string): (h: string)
    requires |s| < NPOS
    ensures 'x' in s ==> s == WidthText(s) + "x" + h
    ensures 'x' !in s ==> h == s
  {
    var p := (FindX(s) + 1) % SIZE_MOD;
    Substr(s, p, |s|).value
  }

  /**
    The resolution: width and height each parsed by `stoi`, the width first,
    so its error is the one reported when both fail.
  */
  function ParseResolution(s: string): (r: Result<Resolution, StoiError>)
    requires |s| < NPOS
    ensures r.Ok? <==> Stoi(WidthText(s)).Ok? && Stoi(HeightText(s)).Ok?
    ensures r.Ok? ==> r.value == Resolution(Stoi(WidthText(s)).value, Stoi(HeightText(s)).value)
    ensures Stoi(WidthText(s)).Err? ==> r == Err(Stoi(WidthText(s)).error)
    ensures Stoi(WidthText(s)).Ok? && Stoi(HeightText(s)).Err? ==> r == Err(Stoi(HeightText(s)).error)
  {
    match Stoi(WidthText(s))
    case Err(e) => Err(e)
    case Ok(w) =>
      match Stoi(HeightText(s))
      case Err(e) => Err(e)
      case Ok(h) => Ok(Resolution(w, h))
  }

  // ---------------------------------------------------------------------------
  // Decimal rendering, the format the parser expects.
  // ---------------------------------------------------------------------------

  function DigitChar(d: nat): (c: char)
    requires d < 10
    ensures IsDigit(c) && DigitValue(c) == d
  {
    ('0' as int + d) as char
  }

  /** The decimal digits of `n`, without sign or leading zeros. */
  function NatToString(n: nat): (s: string)
    ensures |s| > 0
    ensures AllDigits(s)
    ensures DigitsValue(s) == n
  {
    if n < 10 then [DigitChar(n)]
    else
      var s := NatToString(n / 10) + [DigitChar(n % 10)];
      assert s[..|s| - 1] == NatToString(n / 10);
      s
  }

  /** Only white space. */
  predicate AllSpace(ws: string) {
    forall i :: 0 <= i < |ws| ==> IsSpace(ws[i])
  }

  /** A sign `stoi` accepts, or none. */
  predicate IsSign(sign: string) {
    sign == "" || sign == "+" || sign == "-"
  }

  /** White space in front of text that does not start with white space is skipped, and only it. */
  lemma {:induction false} SkipSpaceOver(ws: string, t: string)
    requires AllSpace(ws)
    requires |t| == 0 || !IsSpace(t[0])
    ensures SkipSpace(ws + t) == t
    decreases |ws|
  {
    if |ws| > 0 {
      assert (ws + t)[0] == ws[0];
      assert (ws + t)[1..] == ws[1..] + t;
      SkipSpaceOver(ws[1..], t);
    } else {
      assert ws + t == t;
    }
  }

  /** Digits followed by a non-digit: the digit run is exactly the digits. */
  lemma {:induction false} DigitRunThenStop(d: string, rest: string)
    requires AllDigits(d)
    requires |rest| == 0 || !IsDigit(rest[0])
    ensures DigitRun(d + rest) == |d|
    decreases |d|
  {
    if |d| > 0 {
      assert (d + rest)[0] == d[0];
      assert (d + rest)[1..] == d[1..] + rest;
      DigitRunThenStop(d[1..], rest);
    } else {
      assert d + rest == rest;
    }
  }

  /** The conversion of digits followed by a non-digit. */
  lemma ConvertText(negative: bool, d: string, rest: string)
    requires |d| > 0 && AllDigits(d)
    requires |rest| == 0 || !IsDigit(rest[0])
    ensures var v := Signed(negative, DigitsValue(d));
            Convert(negative, d + rest) == if InIntRange(v) then Ok(v) else Err(OutOfRange)
  {
    DigitRunThenStop(d, rest);
    assert (d + rest)[..|d|] == d;
  }

  /** After the white space, the sign picks the conversion of the text behind it. */
  lemma ReadSignedOfSign(sign: string, u: string)
    requires IsSign(sign)
    requires |u| > 0 && IsDigit(u[0])
    ensures ReadSigned(sign + u) == Convert(sign == "-", u)
  {
    var t := sign + u;
    if sign == "" {
      assert t == u;
      assert t[0] != '-' && t[0] != '+';
    } else {
      assert t[0] == sign[0];
      assert t[1..] == u;
    }
  }

  /**
    `stoi` of white space, an optional sign, a run of digits and anything not
    starting with a digit: the digits' value with the sign, or `out_of_range`
    when that is outside the 32-bit `int` range. The rest is ignored.
  */
  lemma StoiOfText(ws: string, sign: string, d: string, rest: string)
    requires AllSpace(ws) && IsSign(sign)
    requires |d| > 0 && AllDigits(d)
    requires |rest| == 0 || !IsDigit(rest[0])
    ensures var v := Signed(sign == "-", DigitsValue(d));
            Stoi(ws + (sign + (d + rest))) == if InIntRange(v) then Ok(v) else Err(OutOfRange)
  {
    var u := d + rest;
    assert u[0] == d[0];
    var t := sign + u;
    assert t[0] == if sign == "" then d[0] else sign[0];
    SkipSpaceOver(ws, t);
    ReadSignedOfSign(sign, u);
    ConvertText(sign == "-", d, rest);
  }

  /**
    `stoi` of white space and an optional sign not followed by a digit is
    `invalid_argument` (after no sign, the text must not go on with more
    white space or a sign either, which `stoi` would take in).
  */
  lemma StoiWithoutDigits(ws: string, sign: string, rest: string)
    requires AllSpace(ws) && IsSign(sign)
    requires |rest| == 0 || !IsDigit(rest[0])
    requires sign == "" && |rest| > 0 ==> !IsSpace(rest[0]) && rest[0] != '+' && rest[0] != '-'
    ensures Stoi(ws + (sign + rest)) == Err(InvalidArgument)
  {
    var t := sign + rest;
    SkipSpaceOver(ws, t);
    if sign == "" {
      assert t == rest;
    } else {
      assert t[0] == sign[0];
      assert t[1..] == rest;
    }
  }

  /** Example: leading blanks, a minus sign and trailing text. */
  lemma ExampleStoiSigned()
    ensures Stoi(" -42px") == Ok(-42)
  {
    assert DigitsValue("42") == 42 by {
      assert "42"[..1] == "4";
    }
    var s := " -42px";
    assert s == s[..1] + (s[1..2] + (s[2..4] + s[4..]));
    assert s[..1] == " " && s[1..2] == "-" && s[2..4] == "42" && s[4..] == "px";
    StoiOfText(" ", "-", "42", "px");
  }

  /**
    Example at the bounds: the digits of 2147483648 are `out_of_range` as they
    stand and `INT_MIN` after a minus sign.
  */
  lemma ExampleStoiBounds()
    ensures Stoi(NatToString(INT_MAX + 1)) == Err(OutOfRange)
    ensures Stoi("-" + NatToString(INT_MAX + 1)) == Ok(INT_MIN)
  {
    var big := NatToString(INT_MAX + 1);
    assert Stoi(big) == Err(OutOfRange) by {
      StoiOfText("", "", big, "");
      assert "" + ("" + (big + "")) == big;
    }
    assert Stoi("-" + big) == Ok(INT_MIN) by {
      StoiOfText("", "-", big, "");
      assert "" + ("-" + (big + "")) == "-" + big;
    }
  }

  /** `stoi` reads back every in-range decimal rendering. */
  lemma StoiOfDecimal(n: nat)
    requires n <= INT_MAX
    ensures Stoi(NatToString(n)) == Ok(n)
  {
    StoiOfDigits(NatToString(n));
  }

  /** A non-empty string of digits is read as its value, when that is in range. */
  lemma StoiOfDigits(s: string)
    requires |s| > 0 && AllDigits(s)
    requires DigitsValue(s) <= INT_MAX
    ensures Stoi(s) == Ok(DigitsValue(s))
  {
    StoiUnsigned(s);
    DigitRunOfDigits(s);
    ConvertDigits(s);
  }

  /** A string starting with a digit has no white space or sign to skip. */
  lemma StoiUnsigned(s: string)
    requires |s| > 0 && IsDigit(s[0])
    ensures Stoi(s) == Convert(false, s)
  {
    assert SkipSpace(s) == s;
  }

  /** All digits, all read. */
  lemma ConvertDigits(s: string)
    requires |s| > 0 && AllDigits(s)
    requires DigitsValue(s) <= INT_MAX
    requires DigitRun(s) == |s|
    ensures Convert(false, s) == Ok(DigitsValue(s))
  {
    assert s[..|s|] == s;
  }

  /** The digit run of an all-digit string is the whole string. */
  lemma {:induction false} DigitRunOfDigits(s: string)
    requires AllDigits(s)
    ensures DigitRun(s) == |s|
  {
    if |s| > 0 {
      DigitRunOfDigits(s[1..]);
    }
  }

  /** `"WxH"` with decimal width and height parses back to (W, H). */
  lemma ResolutionRoundTrip(w: nat, h: nat)
    requires w <= INT_MAX && h <= INT_MAX
    ensures var s := NatToString(w) + "x" + NatToString(h);
            |s| < NPOS && ParseResolution(s) == Ok(Resolution(w, h))
  {
    var ws := NatToString(w);
    var hs := NatToString(h);
    var s := ws + "x" + hs;
    assert |ws| <= w + 1 && |hs| <= h + 1 by {
      DecimalLength(w);
      DecimalLength(h);
    }
    assert 'x' !in ws;
    assert s[|ws|] == 'x';
    assert s[..|ws|] == ws;
    var p := FindX(s);
    assert p == |ws|;
    assert WidthText(s) == ws;
    assert HeightText(s) == hs by {
      assert s == WidthText(s) + "x" + HeightText(s);
      assert s[|ws| + 1..] == hs;
    }
    StoiOfDecimal(w);
    StoiOfDecimal(h);
  }

  /** A rendering is never longer than the number plus one. */
  lemma {:induction false} DecimalLength(n: nat)
    ensures |NatToString(n)| <= n + 1
  {
    if n >= 10 {
      DecimalLength(n / 10);
    }
  }

  /** Without an `'x'` both dimensions are read from the whole string: "800" is 800 by 800. */
  lemma NoSeparatorIsSquare(s: string)
    requires |s| < NPOS && 'x' !in s
    ensures ParseResolution(s).Ok? ==> ParseResolution(s).value.width == ParseResolution(s).value.height
  {
  }

  /** A missing width is rejected; a lone number is read as both dimensions. */
  lemma ExampleResolutions()
    ensures ParseResolution("x600") == Err(InvalidArgument)
    ensures ParseResolution("7") == Ok(Resolution(7, 7))
  {
    assert FindX("x600") == 0;
    assert WidthText("x600") == "";
    assert FindX("7") == NPOS;
    assert NatToString(7) == "7";
    StoiOfDecimal(7);
  }
}
