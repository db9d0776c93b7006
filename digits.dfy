/**
 * Decimal digit strings: reading a run of digits as a number, writing a
 * number as a fixed-width zero-padded field (the `%Y`, `%m`, `%d` fields of a
 * date), and Python's `str(int)` rendering of an integer together with its
 * inverse.
 */
module Digits {
  import opened Wrappers

  predicate IsDigit(c: char) {
    '0' <= c <= '9'
  }

  predicate AllDigits(s: string) {
    forall i :: 0 <= i < |s| ==> IsDigit(s[i])
  }

  function DigitValue(c: char): (v: nat)
    requires IsDigit(c)
    ensures v < 10
  {
    c as int - '0' as int
  }

  function DigitChar(v: nat): (c: char)
    requires v < 10
    ensures IsDigit(c) && DigitValue(c) == v
  {
    ('0' as int + v) as char
  }

  function Pow10(n: nat): (p: nat)
    ensures p >= 1
  {
    if n == 0 then 1 else 10 * Pow10(n - 1)
  }

  /** The number a string of decimal digits denotes (most significant first). */
  function DigitsValue(s: string): (v: nat)
    requires AllDigits(s)
    ensures v < Pow10(|s|)
  {
    if s == [] then 0 else DigitsValue(s[..|s| - 1]) * 10 + DigitValue(s[|s| - 1])
  }

  /** `n` written with exactly `width` digits, padded with leading zeros. */
  function PadDigits(n: nat, width: nat): (r: string)
    ensures |r| == width && AllDigits(r)
  {
    if width == 0 then [] else PadDigits(n / 10, width - 1) + [DigitChar(n % 10)]
  }

  /** Reading back a padded field gives the number, whenever it fits the width. */
  lemma {:induction false} PadDigitsValue(n: nat, width: nat)
    requires n < Pow10(width)
    ensures DigitsValue(PadDigits(n, width)) == n
  {
    if width > 0 {
      var r := PadDigits(n, width);
      assert r[..width - 1] == PadDigits(n / 10, width - 1);
      PadDigitsValue(n / 10, width - 1);
    }
  }

  /** Writing back the value of a digit string at its own width gives the string. */
  lemma {:induction false} DigitsValuePadded(s: string)
    requires AllDigits(s)
    ensures PadDigits(DigitsValue(s), |s|) == s
  {
    if s != [] {
      var prefix := s[..|s| - 1];
      var v := DigitsValue(s);
      DivModDigit(DigitsValue(prefix), DigitValue(s[|s| - 1]));
      DigitsValuePadded(prefix);
      assert PadDigits(v, |s|) == PadDigits(v / 10, |s| - 1) + [DigitChar(v % 10)];
      assert s == prefix + [s[|s| - 1]];
    }
  }

  /** Appending a digit `d` to `q` and splitting it off again. */
  lemma DivModDigit(q: nat, d: nat)
    requires d < 10
    ensures (q * 10 + d) / 10 == q && (q * 10 + d) % 10 == d
  {
  }

  /** The shortest decimal writing of a natural number (no leading zeros). */
  function NatToDecimal(n: nat): (r: string)
    ensures |r| >= 1 && AllDigits(r)
  {
    if n < 10 then [DigitChar(n)] else NatToDecimal(n / 10) + [DigitChar(n % 10)]
  }

  /** A digit string without superfluous leading zeros ("0" itself is allowed). */
  predicate IsCanonicalNat(s: string) {
    |s| >= 1 && AllDigits(s) && (s[0] == '0' ==> |s| == 1)
  }

  /**
   * Python's `str(n)` for an integer: a minus sign for negatives, then the
   * digits of the magnitude.
   */
  function IntToDecimal(n: int): (r: string)
    ensures |r| >= 1
    ensures AllDigits(r) <==> n >= 0
    ensures n < 0 ==> r[0] == '-' && AllDigits(r[1..])
  {
    if n < 0 then
      var r := "-" + NatToDecimal(-n);
      assert !IsDigit(r[0]) && r[1..] == NatToDecimal(-n);
      r
    else NatToDecimal(n)
  }

  /** The strings `str` can produce for an integer. */
  predicate IsCanonicalDecimal(s: string) {
    if |s| > 0 && s[0] == '-' then IsCanonicalNat(s[1..]) && s[1..] != "0"
    else IsCanonicalNat(s)
  }

  /**
   * Reading an optionally negative decimal integer, leading zeros allowed
   * (the part of Python's `int(str)` that the pipeline's values exercise).
   */
  function ParseInt(s: string): Option<int> {
    if |s| > 0 && s[0] == '-' then
      if |s| > 1 && AllDigits(s[1..]) then Some(-(DigitsValue(s[1..]) as int)) else None
    else if |s| > 0 && AllDigits(s) then Some(DigitsValue(s))
    else None
  }

  lemma {:induction false} NatToDecimalValue(n: nat)
    ensures DigitsValue(NatToDecimal(n)) == n
  {
    if n >= 10 {
      var r := NatToDecimal(n);
      assert r[..|r| - 1] == NatToDecimal(n / 10);
      NatToDecimalValue(n / 10);
    }
  }

  lemma {:induction false} NatToDecimalCanonical(n: nat)
    ensures IsCanonicalNat(NatToDecimal(n))
    ensures NatToDecimal(n) == "0" <==> n == 0
  {
    if n >= 10 {
      NatToDecimalCanonical(n / 10);
      assert NatToDecimal(n)[0] == NatToDecimal(n / 10)[0];
    }
  }

  /** A digit string whose first digit is not zero denotes a positive number. */
  lemma {:induction false} LeadingDigitPositive(s: string)
    requires AllDigits(s) && |s| >= 1 && s[0] != '0'
    ensures DigitsValue(s) >= 1
  {
    if |s| > 1 {
      LeadingDigitPositive(s[..|s| - 1]);
    }
  }

  /** A canonical digit string is the decimal writing of its own value. */
  lemma {:induction false} CanonicalNatRoundTrip(s: string)
    requires IsCanonicalNat(s)
    ensures NatToDecimal(DigitsValue(s)) == s
  {
    if |s| > 1 {
      var prefix := s[..|s| - 1];
      var v := DigitsValue(s);
      LeadingDigitPositive(prefix);
      assert v / 10 == DigitsValue(prefix) && v % 10 == DigitValue(s[|s| - 1]);
      CanonicalNatRoundTrip(prefix);
      assert s == prefix + [s[|s| - 1]];
    }
  }

  /**
   * `int(str(n)) == n`, and `str(n)` is canonical: digits only exactly when
   * `n` is not negative.
   */
  lemma IntToDecimalRoundTrip(n: int)
    ensures ParseInt(IntToDecimal(n)) == Some(n)
    ensures IsCanonicalDecimal(IntToDecimal(n))
    ensures AllDigits(IntToDecimal(n)) <==> n >= 0
  {
    NatToDecimalValue(if n < 0 then -n else n);
    NatToDecimalCanonical(if n < 0 then -n else n);
    var s := IntToDecimal(n);
    if n < 0 {
      assert s[1..] == NatToDecimal(-n);
      assert !IsDigit(s[0]);
    }
  }

  /** `str(int(s)) == s` for every canonical decimal string. */
  lemma CanonicalDecimalRoundTrip(s: string)
    requires IsCanonicalDecimal(s)
    ensures ParseInt(s).Some? && IntToDecimal(ParseInt(s).value) == s
  {
    if s[0] == '-' {
      CanonicalNatRoundTrip(s[1..]);
      LeadingDigitPositive(s[1..]);
      assert s == "-" + s[1..];
    } else {
      CanonicalNatRoundTrip(s);
    }
  }
}
