/** Decimal number text: how JavaScript writes an integer (`String(n)`), how
    `parseInt(text, 10)` reads one back, and how `Number(text)` reads integer
    text and, for the form inputs, decimal text with a fraction and an
    exponent. Hexadecimal, binary, octal and `Infinity` are not modelled. */
module Numerals {
  import opened Wrappers
  import Text

  predicate IsDigit(c: char)
  {
    '0' <= c <= '9'
  }

  predicate AllDigits(s: string)
  {
    forall i :: 0 <= i < |s| ==> IsDigit(s[i])
  }

  function DigitChar(d: nat): (c: char)
    requires d < 10
    ensures IsDigit(c)
  {
    ('0' as int + d) as char
  }

  /** The value of a string of decimal digits, most significant first. */
  function DigitsValue(s: string): nat
    requires AllDigits(s)
  {
    if s == [] then 0
    else DigitsValue(s[..|s| - 1]) * 10 + (s[|s| - 1] as int - '0' as int)
  }

  /** The shortest decimal digits of `n`. */
  function NatToDigits(n: nat): (s: string)
    ensures |s| >= 1 && AllDigits(s)
  {
    if n < 10 then [DigitChar(n)]
    else NatToDigits(n / 10) + [DigitChar(n % 10)]
  }

  /** `String(n)` for an integer: a minus sign for negatives, then digits. */
  function IntToString(n: int): (s: string)
    ensures |s| >= 1
  {
    if n < 0 then "-" + NatToDigits(-n) else NatToDigits(n)
  }

  lemma {:induction false} DigitsRoundTrip(n: nat)
    ensures DigitsValue(NatToDigits(n)) == n
  {
    if n >= 10 {
      var s := NatToDigits(n);
      DigitsRoundTrip(n / 10);
      assert s[..|s| - 1] == NatToDigits(n / 10);
    }
  }

  /** An optionally signed decimal integer with at least one digit and nothing
      else: the integer literals that `Number` accepts once the text is trimmed. */
  function ParseIntLiteral(t: string): (r: Option<int>)
    ensures r.Some? ==> |t| >= 1
  {
    if t == [] then None
    else if t[0] == '-' || t[0] == '+' then
      var ds := t[1..];
      if ds != [] && AllDigits(ds) then
        var v: int := DigitsValue(ds);
        Some(if t[0] == '-' then -v else v)
      else None
    else if AllDigits(t) then Some(DigitsValue(t) as int)
    else None
  }

  /** Reading back what `IntToString` writes gives the same integer. */
  lemma IntLiteralRoundTrip(n: int)
    ensures ParseIntLiteral(IntToString(n)) == Some(n)
  {
    var s := IntToString(n);
    if n < 0 {
      DigitsRoundTrip(-n);
      var ds := NatToDigits(-n);
      assert s[0] == '-' && s[1..] == ds;
      assert ds != [] && AllDigits(ds);
      assert ParseIntLiteral(s) == Some(-(DigitsValue(ds) as int));
    } else {
      DigitsRoundTrip(n);
      assert s == NatToDigits(n) && AllDigits(s);
      assert s[0] != '-' && s[0] != '+' by { assert IsDigit(s[0]); }
    }
  }

  /** `Number(text)` on a string: the trimmed text read as an integer literal,
      0 for a blank string, and None (NaN) otherwise. */
  function StringToNumber(s: string): (r: Option<int>)
    ensures Text.AllSpace(s) ==> r == Some(0)
  {
    var t := Text.Trim(s);
    if t == [] then Some(0) else ParseIntLiteral(t)
  }

  /** `Number(String(n)) == n`. */
  lemma StringToNumberRoundTrip(n: int)
    ensures StringToNumber(IntToString(n)) == Some(n)
  {
    var s := IntToString(n);
    IntLiteralRoundTrip(n);
    assert !Text.IsSpace(s[0]) by { if n >= 0 { assert IsDigit(s[0]); } }
    assert !Text.IsSpace(s[|s| - 1]) by { assert IsDigit(s[|s| - 1]); }
    Text.TrimUnchanged(s);
  }

  /** Length of the longest run of digits at the front of `s`. */
  function DigitPrefix(s: string): (k: nat)
    ensures k <= |s| && AllDigits(s[..k])
    ensures k < |s| ==> !IsDigit(s[k])
  {
    if s == [] || !IsDigit(s[0]) then 0
    else
      var k := 1 + DigitPrefix(s[1..]);
      assert s[..k] == [s[0]] + s[1..][..k - 1];
      k
  }

  /** `parseInt(s, 10)`: after leading white space and an optional sign, the
      longest run of digits; None (NaN) when there is no digit there. */
  function ParseInt(s: string): (r: Option<int>)
  {
    var t := s[Text.LeadingSpaces(s)..];
    var neg := t != [] && t[0] == '-';
    var body := if t != [] && (t[0] == '-' || t[0] == '+') then t[1..] else t;
    var k := DigitPrefix(body);
    if k == 0 then None
    else
      var v: int := DigitsValue(body[..k]);
      Some(if neg then -v else v)
  }

  lemma {:induction false} DigitPrefixAll(s: string)
    requires AllDigits(s)
    ensures DigitPrefix(s) == |s|
  {
    if s != [] {
      DigitPrefixAll(s[1..]);
    }
  }

  /** `parseInt` reads the digits of `n` as `n`. */
  lemma ParseIntDigits(n: nat)
    ensures ParseInt(NatToDigits(n)) == Some(n)
  {
    var ds := NatToDigits(n);
    DigitsRoundTrip(n);
    assert IsDigit(ds[0]);
    assert Text.LeadingSpaces(ds) == 0;
    assert ds[0..] == ds;
    DigitPrefixAll(ds);
    assert ds[..|ds|] == ds;
  }

  /** `parseInt` reads a minus sign followed by the digits of `n` as `-n`. */
  lemma ParseIntNegated(n: nat)
    ensures ParseInt("-" + NatToDigits(n)) == Some(-(n as int))
  {
    var ds := NatToDigits(n);
    DigitsRoundTrip(n);
    var s := "-" + ds;
    assert !Text.IsSpace(s[0]);
    assert Text.LeadingSpaces(s) == 0;
    assert s[0..] == s;
    assert s[1..] == ds;
    DigitPrefixAll(ds);
    assert ds[..|ds|] == ds;
  }

  /** `parseInt(String(n), 10) == n`. */
  lemma ParseIntRoundTrip(n: int)
    ensures ParseInt(IntToString(n)) == Some(n)
  {
    if n < 0 {
      ParseIntNegated(-n);
    } else {
      ParseIntDigits(n);
    }
  }

  /** On anything `Number` reads as an integer after trimming, `parseInt`
      reads the same integer. */
  lemma ParseIntAgreesWithLiteral(n: int)
    ensures ParseInt(IntToString(n)) == StringToNumber(IntToString(n))
  {
    ParseIntRoundTrip(n);
    StringToNumberRoundTrip(n);
  }

  /** The first position of `s` holding a character of `cs`, or `|s|`. */
  function FindIn(s: string, cs: set<char>): (k: nat)
    ensures k <= |s|
    ensures forall i :: 0 <= i < k ==> s[i] !in cs
    ensures k < |s| ==> s[k] in cs
  {
    if s == [] || s[0] in cs then 0 else 1 + FindIn(s[1..], cs)
  }

  function Pow10(n: nat): (r: real)
    ensures r >= 1.0
  {
    if n == 0 then 1.0 else 10.0 * Pow10(n - 1)
  }

  /** `x` times ten to the power `e`. */
  function Scale(x: real, e: int): real
  {
    if e >= 0 then x * Pow10(e) else x / Pow10(-e)
  }

  /** The value of the digits `ip` before a point and `fp` after it, with
      at least one digit in all. */
  function PointValue(ip: string, fp: string): (r: Option<real>)
    ensures r.Some? ==> r.value >= 0.0
  {
    if (ip == [] && fp == []) || !AllDigits(ip) || !AllDigits(fp) then None
    else
      QuotientNonNegative(DigitsValue(fp) as real, Pow10(|fp|));
      Some(DigitsValue(ip) as real + DigitsValue(fp) as real / Pow10(|fp|))
  }

  lemma QuotientNonNegative(a: real, b: real)
    requires a >= 0.0 && b >= 1.0
    ensures a / b >= 0.0
  {
  }

  /** The digits before and after an optional point: "12", "12.", "12.5",
      ".5". */
  function Mantissa(m: string): (r: Option<real>)
  {
    var d := FindIn(m, {'.'});
    PointValue(m[..d], if d < |m| then m[d + 1..] else [])
  }

  /** An unsigned decimal literal: a mantissa, then optionally `e` or `E`
      and a signed integer exponent. */
  function UnsignedDecimal(b: string): (r: Option<real>)
  {
    var k := FindIn(b, {'e', 'E'});
    if k == |b| then Mantissa(b)
    else
      match (Mantissa(b[..k]), ParseIntLiteral(b[k + 1..]))
      case (Some(v), Some(e)) => Some(Scale(v, e))
      case _ => None
  }

  /** A decimal literal with an optional sign. */
  function DecimalLiteral(t: string): (r: Option<real>)
  {
    if t == [] then None
    else if t[0] == '-' || t[0] == '+' then
      match UnsignedDecimal(t[1..])
      case Some(v) => Some(if t[0] == '-' then -v else v)
      case None => None
    else UnsignedDecimal(t)
  }

  /** `Number(text)` on decimal text: the trimmed text read as a decimal
      literal, 0 for a blank string, and None (NaN) otherwise. */
  function TextToNumber(s: string): (r: Option<real>)
    ensures Text.AllSpace(s) ==> r == Some(0.0)
  {
    var t := Text.Trim(s);
    if t == [] then Some(0.0) else DecimalLiteral(t)
  }

  /** `FindIn` is pinned down by its contract: the first position in `cs`. */
  lemma FindFirst(s: string, cs: set<char>, k: nat)
    requires k <= |s|
    requires forall i :: 0 <= i < k ==> s[i] !in cs
    requires k < |s| ==> s[k] in cs
    ensures FindIn(s, cs) == k
  {
  }

  /** Digits hold neither a point nor an exponent mark. */
  lemma DigitsFindNone(s: string, cs: set<char>)
    requires AllDigits(s)
    requires forall c :: c in cs ==> !IsDigit(c)
    ensures FindIn(s, cs) == |s|
  {
    FindFirst(s, cs, |s|);
  }

  /** A run of digits read as a decimal literal is its integer value. */
  lemma UnsignedDigits(ds: string)
    requires ds != [] && AllDigits(ds)
    ensures UnsignedDecimal(ds) == Some(DigitsValue(ds) as real)
  {
    DigitsFindNone(ds, {'e', 'E'});
    DigitsFindNone(ds, {'.'});
    assert ds[..|ds|] == ds;
    assert Mantissa(ds) == PointValue(ds, []);
  }

  /** On every literal the integer reader accepts, the decimal reader gives
      the same value. */
  lemma DecimalAgreesWithInteger(t: string)
    requires ParseIntLiteral(t).Some?
    ensures DecimalLiteral(t) == Some(ParseIntLiteral(t).value as real)
  {
    if t[0] == '-' || t[0] == '+' {
      UnsignedDigits(t[1..]);
    } else {
      UnsignedDigits(t);
    }
  }

  /** `Number` reads integer text the same whether fractions are modelled or
      not. */
  lemma TextToNumberAgrees(s: string)
    requires StringToNumber(s).Some?
    ensures TextToNumber(s) == Some(StringToNumber(s).value as real)
  {
    var t := Text.Trim(s);
    if t != [] {
      DecimalAgreesWithInteger(t);
    }
  }

  /** `Number(String(n)) == n` for the decimal reader. */
  lemma TextToNumberRoundTrip(n: int)
    ensures TextToNumber(IntToString(n)) == Some(n as real)
  {
    StringToNumberRoundTrip(n);
    TextToNumberAgrees(IntToString(n));
  }

  lemma PointValueOf(ip: string, fp: string)
    requires AllDigits(ip) && AllDigits(fp) && (ip != [] || fp != [])
    ensures PointValue(ip, fp) == Some(DigitsValue(ip) as real + DigitsValue(fp) as real / Pow10(|fp|))
  {
  }

  /** Text with no exponent mark whose first point sits at `d` reads as the
      digits before it plus the fraction after it. */
  lemma PointLiteral(m: string, d: nat)
    requires d < |m| && m[d] == '.'
    requires forall i :: 0 <= i < |m| ==> m[i] != 'e' && m[i] != 'E'
    requires forall i :: 0 <= i < d ==> m[i] != '.'
    requires AllDigits(m[..d]) && AllDigits(m[d + 1..]) && (d > 0 || d + 1 < |m|)
    ensures UnsignedDecimal(m)
         == Some(DigitsValue(m[..d]) as real + DigitsValue(m[d + 1..]) as real / Pow10(|m[d + 1..]|))
  {
    NoExponent(m);
    FindFirst(m, {'.'}, d);
    MantissaAt(m, d);
    PointValueOf(m[..d], m[d + 1..]);
  }

  lemma NoExponent(m: string)
    requires forall i :: 0 <= i < |m| ==> m[i] != 'e' && m[i] != 'E'
    ensures UnsignedDecimal(m) == Mantissa(m)
  {
    FindFirst(m, {'e', 'E'}, |m|);
  }

  lemma MantissaAt(m: string, d: nat)
    requires d < |m| && FindIn(m, {'.'}) == d
    ensures Mantissa(m) == PointValue(m[..d], m[d + 1..])
  {
  }

  /** Digits, then an exponent mark at `k`, then an integer literal read as
      the digits scaled by that power of ten. */
  lemma ExponentLiteral(b: string, k: nat)
    requires 0 < k < |b| && (b[k] == 'e' || b[k] == 'E')
    requires AllDigits(b[..k]) && ParseIntLiteral(b[k + 1..]).Some?
    ensures UnsignedDecimal(b) == Some(Scale(DigitsValue(b[..k]) as real, ParseIntLiteral(b[k + 1..]).value))
  {
    forall i | 0 <= i < k ensures b[i] !in {'e', 'E'} {
      assert b[i] == b[..k][i];
    }
    FindFirst(b, {'e', 'E'}, k);
    UnsignedDigits(b[..k]);
  }

  /** "7.5" reads as 7.5: a fraction is kept. */
  lemma FractionExample()
    ensures DecimalLiteral("7.5") == Some(7.5)
  {
    var m := "7.5";
    PointLiteral(m, 1);
    assert m[..1] == "7" && m[2..] == "5";
    assert DigitsValue("7") == 7 && DigitsValue("5") == 5 && Pow10(1) == 10.0;
    assert DecimalLiteral(m) == UnsignedDecimal(m);
  }

  /** "4.5" reads as 4.5. */
  lemma HalfExample()
    ensures DecimalLiteral("4.5") == Some(4.5)
  {
    var m := "4.5";
    PointLiteral(m, 1);
    assert m[..1] == "4" && m[2..] == "5";
    assert DigitsValue("4") == 4 && DigitsValue("5") == 5 && Pow10(1) == 10.0;
    assert DecimalLiteral(m) == UnsignedDecimal(m);
  }

  /** "-1.5" reads as -1.5. */
  lemma NegativeFractionExample()
    ensures DecimalLiteral("-1.5") == Some(-1.5)
  {
    var m := "1.5";
    PointLiteral(m, 1);
    assert m[..1] == "1" && m[2..] == "5";
    assert DigitsValue("1") == 1 && DigitsValue("5") == 5 && Pow10(1) == 10.0;
    assert "-1.5"[1..] == m;
  }

  /** "2.0" reads as the integer 2. */
  lemma ZeroFractionExample()
    ensures DecimalLiteral("2.0") == Some(2.0)
  {
    var m := "2.0";
    PointLiteral(m, 1);
    assert m[..1] == "2" && m[2..] == "0";
    assert DigitsValue("2") == 2 && DigitsValue("0") == 0 && Pow10(1) == 10.0;
    assert DecimalLiteral(m) == UnsignedDecimal(m);
  }

  /** "1e1" reads as 10. */
  lemma ExponentExample()
    ensures DecimalLiteral("1e1") == Some(10.0)
  {
    var b := "1e1";
    assert b[..1] == "1" && b[2..] == "1";
    assert DigitsValue("1") == 1 && ParseIntLiteral("1") == Some(1) && Pow10(1) == 10.0;
    ExponentLiteral(b, 1);
    assert DecimalLiteral(b) == UnsignedDecimal(b);
  }

  /** "1.2.3" is no literal: NaN. */
  lemma TwoPointsExample()
    ensures DecimalLiteral("1.2.3") == None
  {
    var bad := "1.2.3";
    FindFirst(bad, {'e', 'E'}, 5);
    FindFirst(bad, {'.'}, 1);
    assert bad[..1] == "1" && bad[2..] == "2.3";
    assert !IsDigit("2.3"[1]);
    assert Mantissa(bad) == PointValue("1", "2.3");
    assert DecimalLiteral(bad) == UnsignedDecimal(bad);
  }


}
