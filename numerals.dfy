/**
 * Python's `int(text)`, `float(text)` and the zero-padded integer format `f"{n:0W}"`,
 * on plain ASCII decimal text.
 */
module Numerals {
  import opened Wrappers
  import opened Strings

  predicate IsDigit(c: char) {
    '0' <= c <= '9'
  }

  predicate AllDigits(s: string) {
    forall k :: 0 <= k < |s| ==> IsDigit(s[k])
  }

  /** The value of a string of decimal digits; leading zeros are allowed, as in Python. */
  function DigitsValue(ds: string): nat
    requires AllDigits(ds)
  {
    if |ds| == 0 then 0
    else DigitsValue(ds[..|ds| - 1]) * 10 + (ds[|ds| - 1] as int - '0' as int)
  }

  function Pow10(n: nat): (p: nat)
    ensures p >= 1
  {
    if n == 0 then 1 else 10 * Pow10(n - 1)
  }

  /** Splits a leading `+` or `-` off a numeral: the sign as a factor and the rest. */
  function SignAndBody(t: string): (int, string) {
    if |t| > 0 && t[0] == '-' then (-1, t[1..])
    else if |t| > 0 && t[0] == '+' then (1, t[1..])
    else (1, t)
  }

  /**
   * Python's `int(text)` on numerals written with ASCII digits only: surrounding
   * whitespace, an optional sign and at least one digit give `Some`; everything else is
   * `None`, standing for `ValueError`. Python also accepts underscores between digits and
   * non-ASCII decimal digits; those texts are `None` here too.
   */
  function ParseInt(text: string): Option<int> {
    var t := Strip(text);
    var (sign, body) := SignAndBody(t);
    if |body| > 0 && AllDigits(body) then Some(sign * DigitsValue(body)) else None
  }

  function IndexOf(s: string, c: char): (r: Option<nat>)
    ensures r.None? <==> c !in s
    ensures r.Some? ==> r.value < |s| && s[r.value] == c && c !in s[..r.value]
  {
    if |s| == 0 then None
    else if s[0] == c then Some(0)
    else match IndexOf(s[1..], c)
      case None => None
      case Some(k) => assert s[1..][..k] == s[1..k + 1]; Some(k + 1)
  }

  /** The value of `intPart.fracPart` as an exact real. */
  function DecimalValue(intPart: string, fracPart: string): real
    requires AllDigits(intPart) && AllDigits(fracPart)
  {
    DigitsValue(intPart) as real + DigitsValue(fracPart) as real / Pow10(|fracPart|) as real
  }

  /** `10^e` for an integer exponent. */
  function Scale(e: int): (r: real)
    ensures r > 0.0
  {
    if e >= 0 then Pow10(e) as real else 1.0 / Pow10(-e) as real
  }

  /** A mantissa `digits[.digits]` or `.digits` with at least one digit. */
  function ParseMantissa(m: string): Option<real> {
    match IndexOf(m, '.')
    case None =>
      if |m| > 0 && AllDigits(m) then Some(DigitsValue(m) as real) else None
    case Some(dot) =>
      var ip := m[..dot];
      var fp := m[dot + 1..];
      if |ip| + |fp| > 0 && AllDigits(ip) && AllDigits(fp) then Some(DecimalValue(ip, fp)) else None
  }

  /**
   * Python's `float(text)` for decimal numerals in ASCII digits: surrounding whitespace,
   * an optional sign, a mantissa and an optional exponent `e[+-]digits`. Everything else is
   * `None`, standing for `ValueError`, including texts Python accepts: `inf`, `nan`,
   * underscores between digits and non-ASCII decimal digits.
   */
  function ParseFloat(text: string): Option<real> {
    var t := Strip(text);
    var (sign, body) := SignAndBody(t);
    var e := IndexOf(body, 'e');
    var cut := if e.Some? then e else IndexOf(body, 'E');
    match cut
    case None =>
      (match ParseMantissa(body)
       case None => None
       case Some(v) => Some(sign as real * v))
    case Some(k) =>
      (match (ParseMantissa(body[..k]), ParseInt(body[k + 1..]))
       case (Some(v), Some(x)) =>
         if |body[k + 1..]| > 0 && !IsSpace(body[k + 1]) && !IsSpace(body[|body| - 1])
         then Some(sign as real * v * Scale(x)) else None
       case _ => None)
  }

  /** An integer numeral reads the same through `float` as through `int`. */
  lemma IntegerNumeralAsFloat(text: string)
    requires ParseInt(text).Some?
    ensures ParseFloat(text) == Some(ParseInt(text).value as real)
  {
    var t := Strip(text);
    var (sign, body) := SignAndBody(t);
    assert |body| > 0 && AllDigits(body);
    assert 'e' !in body && 'E' !in body && '.' !in body by {
      forall k | 0 <= k < |body| ensures body[k] != 'e' && body[k] != 'E' && body[k] != '.' {
        assert IsDigit(body[k]);
      }
    }
  }

  /** The decimal digits of `n`, without leading zeros. */
  function ShowNat(n: nat): (r: string)
    ensures |r| >= 1 && AllDigits(r)
    ensures DigitsValue(r) == n
    ensures r[0] != '0' || n == 0
  {
    if n < 10 then [('0' as int + n) as char]
    else
      var r := ShowNat(n / 10) + [('0' as int + n % 10) as char];
      assert r[..|r| - 1] == ShowNat(n / 10);
      r
  }

  function Zeros(n: nat): (r: string)
    ensures |r| == n && AllDigits(r)
    ensures forall k :: 0 <= k < n ==> r[k] == '0'
  {
    if n == 0 then "" else Zeros(n - 1) + "0"
  }

  /** Leading zeros do not change the value of a numeral. */
  lemma {:induction false} LeadingZeros(n: nat, ds: string)
    requires AllDigits(ds)
    ensures AllDigits(Zeros(n) + ds) && DigitsValue(Zeros(n) + ds) == DigitsValue(ds)
    decreases |ds|
  {
    var s := Zeros(n) + ds;
    if |ds| == 0 {
      assert s == Zeros(n);
      ZerosValue(n);
    } else {
      assert s[..|s| - 1] == Zeros(n) + ds[..|ds| - 1];
      LeadingZeros(n, ds[..|ds| - 1]);
    }
  }

  lemma {:induction false} ZerosValue(n: nat)
    ensures DigitsValue(Zeros(n)) == 0
  {
    if n > 0 {
      assert Zeros(n)[..n - 1] == Zeros(n - 1);
      ZerosValue(n - 1);
    }
  }

  /** `ds` left-padded with zeros to at least `width` characters. */
  function ZeroPad(ds: string, width: int): (r: string) {
    Zeros(if width > |ds| then width - |ds| else 0) + ds
  }

  /**
   * Python's `f"{n:0W}"` for an integer: the sign first, then zeros up to a total
   * of `width` characters, then the digits; never truncated.
   */
  function FormatZeroPadded(n: int, width: nat): (r: string)
    ensures |r| >= width
    ensures n >= 0 ==> AllDigits(r)
  {
    if n >= 0 then ZeroPad(ShowNat(n), width)
    else "-" + ZeroPad(ShowNat(-n), width - 1)
  }

  /** `int()` reads back every zero-padded numeral. */
  lemma ParseZeroPadded(n: int, width: nat)
    ensures ParseInt(FormatZeroPadded(n, width)) == Some(n)
  {
    if n >= 0 {
      ParseZeroPaddedNat(n, width);
    } else {
      ParseZeroPaddedNeg(n, width);
    }
  }

  lemma ParseZeroPaddedNat(n: nat, width: nat)
    ensures ParseInt(FormatZeroPadded(n, width)) == Some(n)
  {
    var padded := ZeroPad(ShowNat(n), width);
    PaddedDigits(ShowNat(n), width, n);
    ParseUnsigned(padded);
  }

  lemma ParseZeroPaddedNeg(n: int, width: nat)
    requires n < 0
    ensures ParseInt(FormatZeroPadded(n, width)) == Some(n)
  {
    var padded := ZeroPad(ShowNat(-n), width - 1);
    PaddedDigits(ShowNat(-n), width - 1, -n);
    ParseNegative(padded, -n);
  }

  lemma PaddedDigits(ds: string, width: int, v: int)
    requires |ds| > 0 && AllDigits(ds) && v == DigitsValue(ds)
    ensures var padded := ZeroPad(ds, width); |padded| > 0 && AllDigits(padded) && DigitsValue(padded) == v
  {
    LeadingZeros(if width > |ds| then width - |ds| else 0, ds);
  }

  lemma ParseUnsigned(digits: string)
    requires |digits| > 0 && AllDigits(digits)
    ensures ParseInt(digits) == Some(DigitsValue(digits))
  {
    assert IsDigit(digits[0]) && IsDigit(digits[|digits| - 1]);
    StripKeeps(digits);
  }

  /** Text that neither starts nor ends with whitespace is left alone by `strip()`. */
  lemma StripKeeps(t: string)
    requires |t| > 0 && !IsSpace(t[0]) && !IsSpace(t[|t| - 1])
    ensures Strip(t) == t
  {
    assert StripLeft(t) == t;
    assert StripRight(t) == t;
  }

  lemma ParseNegative(digits: string, v: int)
    requires |digits| > 0 && AllDigits(digits) && v == DigitsValue(digits)
    ensures ParseInt("-" + digits) == Some(-v)
  {
    var text := "-" + digits;
    assert IsDigit(digits[|digits| - 1]);
    assert text[|text| - 1] == digits[|digits| - 1];
    StripKeeps(text);
    assert text[1..] == digits;
    assert SignAndBody(text) == (-1, digits);
    assert -1 * v == -v;
  }

  /** Distinct integers have distinct zero-padded numerals. */
  lemma ZeroPaddedInjective(a: int, b: int, width: nat)
    requires FormatZeroPadded(a, width) == FormatZeroPadded(b, width)
    ensures a == b
  {
    ParseZeroPadded(a, width);
    ParseZeroPadded(b, width);
  }
}
