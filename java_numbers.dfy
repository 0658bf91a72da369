/**
 * Long.valueOf and Boolean.valueOf, the two conversions the field normaliser
 * applies to a default value.
 */
module JavaNumbers {
  import opened Wrappers
  import opened JavaText

  const LONG_MIN: int := -0x8000_0000_0000_0000
  const LONG_MAX: int := 0x7FFF_FFFF_FFFF_FFFF

  predicate IsDigit(c: char) {
    '0' <= c <= '9'
  }

  predicate AllDigits(s: string) {
    forall i :: 0 <= i < |s| ==> IsDigit(s[i])
  }

  function DigitValue(c: char): nat
    requires IsDigit(c)
  {
    c as int - '0' as int
  }

  function DigitChar(d: nat): (c: char)
    requires d < 10
    ensures IsDigit(c) && DigitValue(c) == d
  {
    ('0' as int + d) as char
  }

  /** The value of a string of decimal digits, most significant first. */
  function DigitsValue(ds: string): nat
    requires AllDigits(ds)
  {
    if |ds| == 0 then 0 else 10 * DigitsValue(ds[..|ds| - 1]) + DigitValue(ds[|ds| - 1])
  }

  /** The message of the NumberFormatException that Long.valueOf throws, and
      that Double.valueOf throws for the trimmed text, when a text does not read. */
  function ForInputString(s: string): string {
    "For input string: \"" + s + "\""
  }

  /** s without the one '+' or '-' that may lead it. */
  function Unsigned(s: string): (d: string)
    ensures |s| > 0 && (s[0] == '-' || s[0] == '+') ==> d == s[1..]
    ensures |s| == 0 || (s[0] != '-' && s[0] != '+') ==> d == s
  {
    if |s| > 0 && (s[0] == '-' || s[0] == '+') then s[1..] else s
  }

  /** Long.valueOf(String): an optional '+' or '-' followed by at least one
      decimal digit, with a value in the range of a 64-bit long; anything else
      throws NumberFormatException (here: None). */
  function ParseLong(s: string): (r: Option<int>)
    ensures r.Some? <==> |Unsigned(s)| > 0 && AllDigits(Unsigned(s))
                         && (if |s| > 0 && s[0] == '-' then LONG_MIN <= -(DigitsValue(Unsigned(s)) as int)
                             else DigitsValue(Unsigned(s)) <= LONG_MAX)
    ensures r.Some? ==> r.value == (if s[0] == '-' then -(DigitsValue(Unsigned(s)) as int) else DigitsValue(Unsigned(s)))
    ensures r.Some? ==> LONG_MIN <= r.value <= LONG_MAX
  {
    var digits := Unsigned(s);
    if |digits| == 0 || !AllDigits(digits) then None
    else
      var v: int := if s[0] == '-' then -(DigitsValue(digits) as int) else DigitsValue(digits);
      if LONG_MIN <= v <= LONG_MAX then Some(v) else None
  }

  /** A leading zero does not change the value of a digit string. */
  lemma {:induction false} DigitsValueLeadingZero(ds: string)
    requires AllDigits(ds)
    ensures AllDigits("0" + ds) && DigitsValue("0" + ds) == DigitsValue(ds)
  {
    var z := "0" + ds;
    assert AllDigits(z) by {
      assert forall i :: 0 < i < |z| ==> z[i] == ds[i - 1];
    }
    if |ds| > 0 {
      var init := ds[..|ds| - 1];
      assert AllDigits(init);
      DigitsValueLeadingZero(init);
      assert z[..|z| - 1] == "0" + init;
      assert z[|z| - 1] == ds[|ds| - 1];
    }
  }

  /** Long.valueOf ignores leading zeros: "007" and "7" are the same long. */
  lemma ParseLongLeadingZero(ds: string)
    requires |ds| > 0 && AllDigits(ds)
    ensures ParseLong("0" + ds) == ParseLong(ds)
  {
    DigitsValueLeadingZero(ds);
    assert IsDigit(ds[0]);
    assert Unsigned(ds) == ds;
    assert Unsigned("0" + ds) == "0" + ds;
  }

  /** Long.valueOf reads "+d" as d and "-d" as the negation of d's value, so
      "-0" is 0, and the digits of the smallest long read only behind a minus. */
  lemma ParseLongSigned(ds: string)
    requires |ds| > 0 && AllDigits(ds)
    ensures ParseLong("+" + ds) == ParseLong(ds)
    ensures ParseLong("-" + ds) == (if DigitsValue(ds) <= -LONG_MIN then Some(-(DigitsValue(ds) as int)) else None)
  {
    assert IsDigit(ds[0]);
    assert Unsigned(ds) == ds;
    assert Unsigned("+" + ds) == ds;
    assert Unsigned("-" + ds) == ds;
  }

  /** The decimal digits of n, without leading zeros. */
  function Digits(n: nat): (ds: string)
    ensures AllDigits(ds) && |ds| > 0
  {
    if n < 10 then [DigitChar(n)] else Digits(n / 10) + [DigitChar(n % 10)]
  }

  /** Long.toString. */
  function LongToString(n: int): string {
    if n < 0 then "-" + Digits(-n) else Digits(n)
  }

  lemma {:induction false} DigitsValueOfDigits(n: nat)
    ensures DigitsValue(Digits(n)) == n
  {
    if n >= 10 {
      DigitsValueOfDigits(n / 10);
      var ds := Digits(n);
      assert ds[..|ds| - 1] == Digits(n / 10);
    }
  }

  /** Long.valueOf reads back what Long.toString writes, for every long. */
  lemma ParseLongRoundTrip(n: int)
    requires LONG_MIN <= n <= LONG_MAX
    ensures ParseLong(LongToString(n)) == Some(n)
  {
    var s := LongToString(n);
    if n < 0 {
      DigitsValueOfDigits(-n);
      assert s[1..] == Digits(-n);
    } else {
      DigitsValueOfDigits(n);
      assert IsDigit(s[0]);
    }
  }

  // ---------------------------------------------------------------------------
  // Double.valueOf
  // ---------------------------------------------------------------------------

  /** String.trim: s without the characters up to U+0020 at either end. */
  function Trim(s: string): (r: string)
    ensures |r| == 0 <==> TrimIsEmpty(s)
    ensures |r| > 0 ==> r[0] > ' ' && r[|r| - 1] > ' '
    ensures |s| > 0 && s[0] > ' ' && s[|s| - 1] > ' ' ==> r == s
    decreases |s|
  {
    if |s| > 0 && s[0] <= ' ' then
      assert forall i :: 0 < i < |s| ==> s[i] == s[1..][i - 1];
      Trim(s[1..])
    else if |s| > 0 && s[|s| - 1] <= ' ' then
      assert forall i :: 0 <= i < |s| - 1 ==> s[i] == s[..|s| - 1][i];
      Trim(s[..|s| - 1])
    else s
  }

  /** Trimming what String.trim returned changes nothing. */
  lemma TrimIdempotent(s: string)
    ensures Trim(Trim(s)) == Trim(s)
  {
  }

  predicate IsHexDigit(c: char) {
    IsDigit(c) || 'a' <= c <= 'f' || 'A' <= c <= 'F'
  }

  /** A character of a decimal mantissa. */
  predicate IsMantissaChar(c: char) {
    IsDigit(c) || c == '.'
  }

  /** A character of a hexadecimal significand. */
  predicate IsSignificandChar(c: char) {
    IsHexDigit(c) || c == '.'
  }

  /** The type suffix a floating-point literal may end with. */
  predicate IsFloatSuffix(c: char) {
    c == 'f' || c == 'F' || c == 'd' || c == 'D'
  }

  /** The length of the longest prefix of s whose characters all satisfy ok. */
  function Span(s: string, ok: char -> bool): (n: nat)
    ensures n <= |s|
    ensures forall k :: 0 <= k < n ==> ok(s[k])
    ensures n < |s| ==> !ok(s[n])
  {
    if |s| == 0 || !ok(s[0]) then 0
    else
      var n := Span(s[1..], ok);
      assert forall k :: 0 < k <= n ==> s[k] == s[1..][k - 1];
      1 + n
  }

  /** The number of times c occurs in s. */
  function Occurrences(s: string, c: char): nat {
    if |s| == 0 then 0 else (if s[0] == c then 1 else 0) + Occurrences(s[1..], c)
  }

  predicate HasDigitWhere(s: string, digit: char -> bool) {
    exists k :: 0 <= k < |s| && digit(s[k])
  }

  /** An exponent's digits after its marker: an optional sign, at least one
      decimal digit, then at most a type suffix. */
  predicate SignedDigitsTail(e: string) {
    var d := Unsigned(e);
    var n := Span(d, IsDigit);
    n > 0 && (n == |d| || (n == |d| - 1 && IsFloatSuffix(d[n])))
  }

  /** What may follow a decimal mantissa: nothing, a type suffix, or an
      exponent introduced by 'e' or 'E'. */
  predicate DecimalTail(r: string) {
    || |r| == 0
    || (|r| == 1 && IsFloatSuffix(r[0]))
    || (|r| > 0 && (r[0] == 'e' || r[0] == 'E') && SignedDigitsTail(r[1..]))
  }

  /** The hexadecimal form after "0x" or "0X": hex digits with at most one point
      and at least one digit, then a binary exponent introduced by 'p' or 'P'. */
  predicate IsHexBody(h: string) {
    var k := Span(h, IsSignificandChar);
    var significand := h[..k];
    var r := h[k..];
    && Occurrences(significand, '.') <= 1
    && HasDigitWhere(significand, IsHexDigit)
    && |r| > 0 && (r[0] == 'p' || r[0] == 'P') && SignedDigitsTail(r[1..])
  }

  /** Double.valueOf(String) as the JDK's FloatingDecimal reads it: the text is
      trimmed; "NaN" and "Infinity" (after an optional sign), a hexadecimal
      literal, or a decimal literal read; the trimmed text is returned. A
      text that does not read throws NumberFormatException with the message
      "empty String" when nothing is left after trimming, "multiple points" when
      the mantissa holds a second point, and ForInputString of the trimmed text
      otherwise. */
  function ParseDouble(s: string): (r: Result<string>)
    ensures r.Ok? ==> r.value == Trim(s) && |r.value| > 0
    ensures r.Err? ==> r.message == "empty String" || r.message == "multiple points"
                       || r.message == ForInputString(Trim(s))
    ensures r == Err("empty String") <==> TrimIsEmpty(s)
  {
    var t := Trim(s);
    if |t| == 0 then Err("empty String") else ReadDouble(t)
  }

  /** Double.valueOf on a text that trimming leaves as it is. */
  function ReadDouble(t: string): (r: Result<string>)
    ensures r.Ok? ==> r.value == t
    ensures r.Err? ==> r.message == "multiple points" || r.message == ForInputString(t)
  {
    var u := Unsigned(t);
    if u == "NaN" || u == "Infinity" then Ok(t)
    else if |u| >= 2 && u[0] == '0' && (u[1] == 'x' || u[1] == 'X') then
      if IsHexBody(u[2..]) then Ok(t) else Err(ForInputString(t))
    else ReadDecimal(t, u)
  }

  /** The decimal form: a mantissa of digits and at most one point, holding at
      least one digit, then what DecimalTail allows. */
  function ReadDecimal(t: string, u: string): (r: Result<string>)
    ensures r.Ok? ==> r.value == t
    ensures r.Err? ==> r.message == "multiple points" || r.message == ForInputString(t)
  {
    var k := Span(u, IsMantissaChar);
    var mantissa := u[..k];
    if Occurrences(mantissa, '.') > 1 then Err("multiple points")
    else if !HasDigitWhere(mantissa, IsDigit) || !DecimalTail(u[k..]) then Err(ForInputString(t))
    else Ok(t)
  }

  /** The occurrences in a concatenation are those of its parts. */
  lemma {:induction false} OccurrencesAppend(a: string, b: string, c: char)
    ensures Occurrences(a + b, c) == Occurrences(a, c) + Occurrences(b, c)
  {
    if |a| > 0 {
      assert (a + b)[1..] == a[1..] + b;
      OccurrencesAppend(a[1..], b, c);
    } else {
      assert a + b == b;
    }
  }

  lemma {:induction false} OccurrencesNone(s: string, c: char)
    requires forall i :: 0 <= i < |s| ==> s[i] != c
    ensures Occurrences(s, c) == 0
  {
    if |s| > 0 {
      OccurrencesNone(s[1..], c);
    }
  }

  /** A span over a string all of whose characters are ok is the whole string. */
  lemma SpanAll(s: string, ok: char -> bool)
    requires forall i :: 0 <= i < |s| ==> ok(s[i])
    ensures Span(s, ok) == |s|
  {
  }

  /** Every text Long.valueOf reads, Double.valueOf reads too. */
  lemma ParseLongIsDouble(s: string)
    requires ParseLong(s).Some?
    ensures ParseDouble(s) == Ok(s)
  {
    var u := Unsigned(s);
    assert IsDigit(u[0]) && IsDigit(u[|u| - 1]);
    assert s[0] > ' ' && s[|s| - 1] > ' ' by {
      assert s[|s| - 1] == u[|u| - 1];
      assert s[0] == '-' || s[0] == '+' || s[0] == u[0];
    }
    assert Trim(s) == s;
    assert u != "NaN" && u != "Infinity" by { assert IsDigit(u[0]); }
    assert !(|u| >= 2 && (u[1] == 'x' || u[1] == 'X')) by {
      if |u| >= 2 { assert IsDigit(u[1]); }
    }
    var ok := IsMantissaChar;
    SpanAll(u, ok);
    assert u[..|u|] == u;
    OccurrencesNone(u, '.');
    assert HasDigitWhere(u, IsDigit) by { assert IsDigit(u[0]); }
    assert u[|u|..] == [];
  }

  /** A decimal literal with a point, such as "1.5", ".5" or "1.", reads as itself. */
  lemma DecimalLiteralReads(a: string, b: string)
    requires AllDigits(a) && AllDigits(b) && |a| + |b| > 0
    ensures ParseDouble(a + "." + b) == Ok(a + "." + b)
  {
    var u := a + "." + b;
    assert u[0] > ' ' && u[|u| - 1] > ' ' by {
      assert u[0] == '.' || u[0] == a[0];
      assert u[|u| - 1] == '.' || u[|u| - 1] == b[|b| - 1];
    }
    assert Trim(u) == u;
    assert Unsigned(u) == u by { assert u[0] == '.' || IsDigit(u[0]); }
    assert u != "NaN" && u != "Infinity" by { assert u[0] == '.' || IsDigit(u[0]); }
    assert !(|u| >= 2 && u[0] == '0' && (u[1] == 'x' || u[1] == 'X')) by {
      if |u| >= 2 { assert u[1] == '.' || IsDigit(u[1]); }
    }
    var ok := IsMantissaChar;
    SpanAll(u, ok);
    assert u[..|u|] == u;
    OccurrencesAppend(a + ".", b, '.');
    OccurrencesAppend(a, ".", '.');
    OccurrencesNone(a, '.');
    OccurrencesNone(b, '.');
    assert Occurrences(".", '.') == 1;
    assert HasDigitWhere(u, IsDigit) by {
      if |a| > 0 { assert u[0] == a[0]; } else { assert u[1] == b[0]; }
    }
    assert u[|u|..] == [];
  }

  /** A text of decimal digits and points only: it throws "multiple points"
      when it holds two points, it reads when it holds a digit, and it throws
      with its own text otherwise. */
  lemma PlainMantissa(u: string)
    requires |u| > 0 && forall i :: 0 <= i < |u| ==> IsMantissaChar(u[i])
    ensures ParseDouble(u) == (if Occurrences(u, '.') > 1 then Err("multiple points")
                               else if HasDigitWhere(u, IsDigit) then Ok(u)
                               else Err(ForInputString(u)))
  {
    PlainMantissaIsDecimal(u);
    ReadPlainMantissa(u);
  }

  lemma ReadPlainMantissa(u: string)
    requires forall i :: 0 <= i < |u| ==> IsMantissaChar(u[i])
    ensures ReadDecimal(u, u) == (if Occurrences(u, '.') > 1 then Err("multiple points")
                                  else if HasDigitWhere(u, IsDigit) then Ok(u)
                                  else Err(ForInputString(u)))
  {
    SpanAll(u, IsMantissaChar);
    assert u[..|u|] == u;
    assert DecimalTail(u[|u|..]);
  }

  lemma PlainMantissaIsDecimal(u: string)
    requires |u| > 0 && forall i :: 0 <= i < |u| ==> IsMantissaChar(u[i])
    ensures ParseDouble(u) == ReadDecimal(u, u)
  {
    assert u[0] > ' ' && u[|u| - 1] > ' ';
    assert Trim(u) == u;
    assert Unsigned(u) == u by { assert u[0] == '.' || IsDigit(u[0]); }
    assert u != "NaN" && u != "Infinity" by { assert u[0] == '.' || IsDigit(u[0]); }
    assert !(|u| >= 2 && u[0] == '0' && (u[1] == 'x' || u[1] == 'X')) by {
      if |u| >= 2 { assert u[1] == '.' || IsDigit(u[1]); }
    }
  }

  /** A mantissa with a second point throws with the message "multiple points". */
  lemma MultiplePointsRejected(a: string, b: string, c: string)
    requires AllDigits(a) && AllDigits(b) && AllDigits(c)
    ensures ParseDouble(a + "." + b + "." + c) == Err("multiple points")
  {
    var head := a + "." + b;
    var u := head + ("." + c);
    assert u == a + "." + b + "." + c;
    assert forall i :: 0 <= i < |head| ==> IsMantissaChar(head[i]) by {
      forall i | 0 <= i < |head| ensures IsMantissaChar(head[i]) {
        if i < |a| { assert head[i] == a[i]; } else if i > |a| { assert head[i] == b[i - |a| - 1]; }
      }
    }
    assert forall i :: 0 <= i < |u| ==> IsMantissaChar(u[i]) by {
      forall i | 0 <= i < |u| ensures IsMantissaChar(u[i]) {
        if i < |head| { assert u[i] == head[i]; }
        else if i > |head| { assert u[i] == c[i - |head| - 1]; }
      }
    }
    OccurrencesAppend(head, "." + c, '.');
    OccurrencesAppend(a + ".", b, '.');
    OccurrencesAppend(a, ".", '.');
    OccurrencesAppend(".", c, '.');
    assert Occurrences(".", '.') == 1;
    PlainMantissa(u);
  }

  /** Double.valueOf ignores the characters up to U+0020 around its text. */
  lemma ParseDoubleTrimmed(s: string)
    ensures ParseDouble(s) == ParseDouble(Trim(s))
  {
    TrimIdempotent(s);
  }

  /** The special values are spelled exactly, with an optional sign. */
  lemma ParseDoubleSpecial()
    ensures ParseDouble("NaN") == Ok("NaN")
    ensures ParseDouble("-Infinity") == Ok("-Infinity")
    ensures ParseDouble("nan") == Err(ForInputString("nan"))
  {
    assert Trim("NaN") == "NaN";
    assert Trim("-Infinity") == "-Infinity";
    assert Trim("nan") == "nan";
    assert Span("nan", IsMantissaChar) == 0;
    assert !HasDigitWhere("nan"[..0], IsDigit);
  }

  /** A hexadecimal literal with its binary exponent reads. */
  lemma ParseDoubleHex()
    ensures ParseDouble("0x1.8p3") == Ok("0x1.8p3")
  {
    var t := "0x1.8p3";
    assert Trim(t) == t;
    assert Unsigned(t) == t && t[2..] == "1.8p3";
    HexBodyWithExponent();
  }

  lemma HexBodyWithExponent()
    ensures IsHexBody("1.8p3")
  {
    var h := "1.8p3";
    assert Span(h, IsSignificandChar) == 3 by {
      assert h[1..] == ".8p3" && h[1..][1..] == "8p3" && h[1..][1..][1..] == "p3";
      assert !IsSignificandChar('p');
    }
    assert h[..3] == "1.8" && h[3..] == "p3" && "p3"[1..] == "3";
    assert Occurrences("1.8", '.') == 1 by {
      assert "1.8"[1..] == ".8" && ".8"[1..] == "8" && "8"[1..] == "";
    }
    assert IsHexDigit("1.8"[0]);
    assert Unsigned("3") == "3";
    assert Span("3", IsDigit) == 1 by { assert "3"[1..] == ""; }
  }

  /** A hexadecimal literal without its binary exponent throws. */
  lemma ParseDoubleHexNoExponent()
    ensures ParseDouble("0x1.8") == Err(ForInputString("0x1.8"))
  {
    var t := "0x1.8";
    assert Trim(t) == t;
    assert Unsigned(t) == t && t[2..] == "1.8";
    assert !IsHexBody("1.8") by {
      SpanAll("1.8", IsSignificandChar);
      assert "1.8"[3..] == "";
    }
  }

  /** An exponent marker needs digits after it. */
  lemma ParseDoubleExponentNoDigits()
    ensures ParseDouble("1e") == Err(ForInputString("1e"))
  {
    var t := "1e";
    assert Trim(t) == t;
    assert Unsigned(t) == t;
    assert ParseDouble(t) == ReadDecimal(t, t);
    assert Span(t, IsMantissaChar) == 1 by { assert t[1..] == "e"; }
    assert t[..1] == "1" && t[1..] == "e" && "e"[1..] == "";
    assert Occurrences("1", '.') == 0;
    assert HasDigitWhere("1", IsDigit) by { assert IsDigit("1"[0]); }
    assert !SignedDigitsTail("") by { assert Unsigned("") == ""; }
  }

  /** A signed exponent and a type suffix may close a decimal literal. */
  lemma ParseDoubleExponent()
    ensures ParseDouble("2.5e-3f") == Ok("2.5e-3f")
  {
    var t := "2.5e-3f";
    assert Trim(t) == t;
    assert Unsigned(t) == t;
    assert ParseDouble(t) == ReadDecimal(t, t);
    assert Span(t, IsMantissaChar) == 3 by {
      assert t[1..] == ".5e-3f" && t[1..][1..] == "5e-3f" && t[1..][1..][1..] == "e-3f";
      assert !IsMantissaChar('e');
    }
    assert t[..3] == "2.5" && t[3..] == "e-3f";
    assert Occurrences("2.5", '.') == 1 by {
      assert "2.5"[1..] == ".5" && ".5"[1..] == "5" && "5"[1..] == "";
    }
    assert HasDigitWhere("2.5", IsDigit) by { assert IsDigit("2.5"[0]); }
    assert DecimalTail("e-3f") by {
      assert "e-3f"[1..] == "-3f" && Unsigned("-3f") == "3f";
      assert Span("3f", IsDigit) == 1 by { assert "3f"[1..] == "f"; }
    }
  }

  /** Boolean.valueOf(String): true exactly for "true" in any case. */
  function BooleanValueOf(s: string): bool {
    EqualsIgnoreCase(s, "true")
  }
}
