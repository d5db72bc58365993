/** Decimal text for numbers: Python's `str(int)` (used to build the
    `--timeout "{duration}s"` argument) and Python's `float(text)` for finite
    decimal literals (used on every number scraped from command output). */
module Decimal {
  import opened Base
  import opened Text

  predicate IsDigit(c: char)
  {
    '0' <= c <= '9'
  }

  predicate AllDigits(s: string)
  {
    forall i :: 0 <= i < |s| ==> IsDigit(s[i])
  }

  function DigitChar(d: nat): (c: char)
    requires d < 10
    ensures IsDigit(c)
  {
    ('0' as int + d) as char
  }

  /** The value of a string of decimal digits, most significant first. */
  function DigitsValue(s: string): nat
    requires AllDigits(s)
  {
    if s == [] then 0 else DigitsValue(s[..|s| - 1]) * 10 + (s[|s| - 1] as int - '0' as int)
  }

  /** Python's `str(n)` for a non-negative integer. */
  function NatToString(n: nat): (s: string)
    ensures |s| >= 1 && AllDigits(s)
    ensures |s| > 1 ==> s[0] != '0'
  {
    if n < 10 then [DigitChar(n)] else NatToString(n / 10) + [DigitChar(n % 10)]
  }

  /** The digits `str` prints contain no other character. */
  lemma DigitsAvoid(n: nat, c: char)
    requires !IsDigit(c)
    ensures c !in NatToString(n)
  {
    var s := NatToString(n);
    assert forall i :: 0 <= i < |s| ==> IsDigit(s[i]);
  }

  /** Python's `str(i)`: a minus sign, then the digits of the magnitude. */
  function IntToString(i: int): (s: string)
    ensures |s| >= 1
  {
    if i < 0 then "-" + NatToString(-i) else NatToString(i)
  }

  lemma {:induction false} NatToStringValue(n: nat)
    ensures DigitsValue(NatToString(n)) == n
  {
    if n >= 10 {
      var s := NatToString(n);
      assert s[..|s| - 1] == NatToString(n / 10);
      NatToStringValue(n / 10);
    }
  }

  // ---------------------------------------------------------------------
  // Python's float() on finite decimal literals
  // ---------------------------------------------------------------------

  function Pow10(n: nat): (p: real)
    ensures p >= 1.0
  {
    if n == 0 then 1.0 else 10.0 * Pow10(n - 1)
  }

  /** `m` times ten to the power `e`. */
  function Scale(m: real, e: int): real
  {
    if e >= 0 then m * Pow10(e) else m / Pow10(-e)
  }

  /** The exponent after `e`/`E`: an optional sign and at least one digit,
      with nothing after them. */
  function ParseExponent(s: string): Option<int>
  {
    var neg := |s| > 0 && s[0] == '-';
    var body := if |s| > 0 && (s[0] == '-' || s[0] == '+') then s[1..] else s;
    if body != [] && AllDigits(body) then
      var v: int := DigitsValue(body);
      Some(if neg then -v else v)
    else
      None
  }

  /** An unsigned literal: digits, an optional point with more digits (at
      least one digit overall), an optional exponent, nothing else. It is
      read one character at a time, as a scanner does. */
  function ParseUnsigned(s: string): Option<real>
  {
    IntegerPart(s, [])
  }

  /** Reading the integer digits; `whole` holds those read so far. */
  function IntegerPart(s: string, whole: string): Option<real>
    requires AllDigits(whole)
    decreases |s|
  {
    if s != [] && IsDigit(s[0]) then IntegerPart(s[1..], whole + [s[0]])
    else if s != [] && s[0] == '.' then FractionPart(s[1..], whole, [])
    else if whole != [] then ExponentPart(s, Mantissa(whole, []))
    else None
  }

  /** Reading the digits after the point; `frac` holds those read so far. */
  function FractionPart(s: string, whole: string, frac: string): Option<real>
    requires AllDigits(whole) && AllDigits(frac)
    decreases |s|
  {
    if s != [] && IsDigit(s[0]) then FractionPart(s[1..], whole, frac + [s[0]])
    else if whole != [] || frac != [] then ExponentPart(s, Mantissa(whole, frac))
    else None
  }

  /** The value of the digits before and after the point. */
  function Mantissa(whole: string, frac: string): real
    requires AllDigits(whole) && AllDigits(frac)
  {
    DigitsValue(whole) as real + DigitsValue(frac) as real / Pow10(|frac|)
  }

  /** What may follow the mantissa: nothing, or an exponent. */
  function ExponentPart(s: string, mantissa: real): Option<real>
  {
    if s == [] then Some(mantissa)
    else if s[0] == 'e' || s[0] == 'E' then
      match ParseExponent(s[1..])
      case Some(e) => Some(Scale(mantissa, e))
      case None => None
    else None
  }

  /** Python's `float(s)` on finite decimal literals: surrounding whitespace
      is ignored, an optional sign, then an unsigned literal; anything else
      is the `ValueError` case, `None`. */
  function ParseReal(s: string): (r: Option<real>)
    ensures Strip(s) == [] ==> r == None
  {
    ParseSigned(Strip(s))
  }

  /** An optional sign followed by an unsigned literal. */
  function ParseSigned(t: string): Option<real>
  {
    var signed := t != [] && (t[0] == '-' || t[0] == '+');
    match ParseUnsigned(if signed then t[1..] else t)
    case Some(m) => Some(if signed && t[0] == '-' then -m else m)
    case None => None
  }

  /** `float` looks only at the stripped text. */
  lemma ParseRealStrip(a: string, b: string)
    requires Strip(a) == Strip(b)
    ensures ParseReal(a) == ParseReal(b)
  {
  }

  lemma ParseUnsignedDigits(s: string)
    requires s != [] && AllDigits(s)
    ensures ParseUnsigned(s) == Some(DigitsValue(s) as real)
  {
    IntegerDigits(s, []);
    assert [] + s == s;
  }

  /** A run of digits continues the integer part to its end. */
  lemma {:induction false} IntegerDigits(s: string, whole: string)
    requires AllDigits(s) && AllDigits(whole) && (s != [] || whole != [])
    ensures AllDigits(whole + s)
    ensures IntegerPart(s, whole) == Some(DigitsValue(whole + s) as real)
    decreases |s|
  {
    if s == [] {
      assert whole + s == whole;
    } else {
      assert whole + [s[0]] + s[1..] == whole + s;
      IntegerDigits(s[1..], whole + [s[0]]);
    }
  }

  /** What `str` prints has no surrounding whitespace. */
  lemma IntToStringTrimmed(i: int)
    ensures Strip(IntToString(i)) == IntToString(i)
  {
    var s := IntToString(i);
    assert IsDigit(s[|s| - 1]);
    assert s[0] == '-' || IsDigit(s[0]);
    StripTrimmed(s);
  }

  /** Text without surrounding whitespace is read as it stands. */
  lemma TrimmedParse(t: string)
    requires t == [] || (!IsSpace(t[0]) && !IsSpace(t[|t| - 1]))
    ensures ParseReal(t) == ParseSigned(t)
  {
    StripTrimmed(t);
  }

  lemma SignedNegative(t: string, m: real)
    requires t != [] && t[0] == '-'
    requires ParseUnsigned(t[1..]) == Some(m)
    ensures ParseSigned(t) == Some(-m)
  {
  }

  lemma SignedUnsigned(t: string)
    requires t != [] && IsDigit(t[0])
    ensures ParseSigned(t) == ParseUnsigned(t)
  {
  }

  /** A plain run of digits reads as its decimal value. */
  lemma ParseDigitString(s: string)
    requires s != [] && AllDigits(s)
    ensures ParseReal(s) == Some(DigitsValue(s) as real)
  {
    assert ParseReal(s) == ParseSigned(s) by {
      assert IsDigit(s[0]) && IsDigit(s[|s| - 1]);
      TrimmedParse(s);
    }
    SignedUnsigned(s);
    ParseUnsignedDigits(s);
  }

  /** Reading back the digits `str` printed for a natural number. */
  lemma ParseNatString(n: nat)
    ensures ParseReal(NatToString(n)) == Some(n as real)
  {
    NatToStringValue(n);
    ParseDigitString(NatToString(n));
  }

  /** Fixed-point text of a non-negative number, as awk and `top` print
      one: the digits of the whole part and, when there is a fraction, a
      point followed by its digits. */
  function FixedText(whole: nat, frac: string): (s: string)
    requires AllDigits(frac)
    ensures s != [] && IsDigit(s[0]) && IsDigit(s[|s| - 1])
  {
    if frac == [] then NatToString(whole) else NatToString(whole) + "." + frac
  }

  /** The number that fixed-point text denotes. */
  function FixedValue(whole: nat, frac: string): real
    requires AllDigits(frac)
  {
    whole as real + DigitsValue(frac) as real / Pow10(|frac|)
  }

  /** Fixed-point text holds digits and at most a point, nothing else. */
  lemma FixedAvoid(whole: nat, frac: string, c: char)
    requires AllDigits(frac) && !IsDigit(c) && c != '.'
    ensures c !in FixedText(whole, frac)
  {
    DigitsAvoid(whole, c);
    assert forall i :: 0 <= i < |frac| ==> frac[i] != c;
  }

  /** Reading fixed-point text gives the number it denotes: the whole part
      plus the fraction digits over the matching power of ten. */
  lemma ParseFixed(whole: nat, frac: string)
    requires AllDigits(frac)
    ensures ParseReal(FixedText(whole, frac)) == Some(FixedValue(whole, frac))
  {
    if frac == [] {
      ParseNatString(whole);
    } else {
      DigitLedParse(FixedText(whole, frac));
      FixedUnsigned(whole, frac);
    }
  }

  /** Text that starts and ends with a digit is read as an unsigned
      literal. */
  lemma DigitLedParse(t: string)
    requires t != [] && IsDigit(t[0]) && IsDigit(t[|t| - 1])
    ensures ParseReal(t) == ParseUnsigned(t)
  {
    TrimmedParse(t);
    SignedUnsigned(t);
  }

  lemma FixedUnsigned(whole: nat, frac: string)
    requires AllDigits(frac) && frac != []
    ensures ParseUnsigned(NatToString(whole) + "." + frac) == Some(FixedValue(whole, frac))
  {
    var digits := NatToString(whole);
    var t := digits + "." + frac;
    assert IntegerPart(t, []) == FractionPart(frac, digits, []) by {
      assert digits + ("." + frac) == t;
      IntegerPrefix(digits, "." + frac, []);
      assert [] + digits == digits;
    }
    FractionDigits(frac, digits, []);
    assert [] + frac == frac;
    NatToStringValue(whole);
  }

  /** A run of digits is taken into the integer part, whatever follows. */
  lemma {:induction false} IntegerPrefix(digits: string, rest: string, whole: string)
    requires AllDigits(digits) && AllDigits(whole)
    ensures AllDigits(whole + digits)
    ensures IntegerPart(digits + rest, whole) == IntegerPart(rest, whole + digits)
    decreases |digits|
  {
    if digits == [] {
      assert digits + rest == rest;
      assert whole + digits == whole;
    } else {
      var s := digits + rest;
      assert s[0] == digits[0] && s[1..] == digits[1..] + rest;
      assert whole + [digits[0]] + digits[1..] == whole + digits;
      IntegerPrefix(digits[1..], rest, whole + [digits[0]]);
    }
  }

  /** A run of digits after the point continues the fraction to its end. */
  lemma {:induction false} FractionDigits(s: string, whole: string, frac: string)
    requires AllDigits(s) && AllDigits(whole) && AllDigits(frac)
    requires whole != [] || frac != [] || s != []
    ensures AllDigits(frac + s)
    ensures FractionPart(s, whole, frac) == Some(Mantissa(whole, frac + s))
    decreases |s|
  {
    if s == [] {
      assert frac + s == frac;
    } else {
      assert frac + [s[0]] + s[1..] == frac + s;
      FractionDigits(s[1..], whole, frac + [s[0]]);
    }
  }

  /** Reading back what `str` printed gives the integer again. */
  lemma ParseIntToString(i: int)
    ensures ParseReal(IntToString(i)) == Some(i as real)
  {
    if i < 0 {
      NegIntToString(i);
    } else {
      ParseNatString(i);
    }
  }

  lemma NegIntToString(i: int)
    requires i < 0
    ensures ParseReal(IntToString(i)) == Some(i as real)
  {
    var n: nat := -i;
    var digits := NatToString(n);
    assert IntToString(i) == "-" + digits;
    assert ParseUnsigned(digits) == Some(n as real) by {
      NatToStringValue(n);
      ParseUnsignedDigits(digits);
    }
    ParseNegative(digits, n as real);
  }

  /** A minus sign followed by an unsigned literal ending in a digit reads
      as the negated literal. */
  lemma ParseNegative(digits: string, m: real)
    requires digits != [] && IsDigit(digits[|digits| - 1])
    requires ParseUnsigned(digits) == Some(m)
    ensures ParseReal("-" + digits) == Some(-m)
  {
    var t := "-" + digits;
    assert ParseReal(t) == ParseSigned(t) by {
      assert t[|t| - 1] == digits[|digits| - 1];
      TrimmedParse(t);
    }
    assert t[1..] == digits;
    SignedNegative(t, m);
  }
}
