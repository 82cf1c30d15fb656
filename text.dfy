/**
 * Decimal text as printf writes it: "%ld" of a non-negative number and "%0Nd" (zero padded
 * to a minimum width, the sign counted in the width).
 */
module Text {

  predicate IsDigit(c: char)
  {
    '0' <= c <= '9'
  }

  predicate AllDigits(s: string)
  {
    forall i :: 0 <= i < |s| ==> IsDigit(s[i])
  }

  function DigitChar(d: nat): (c: char)
    requires d < 10
    ensures IsDigit(c) && c as int - '0' as int == d
  {
    (d + '0' as int) as char
  }

  /** "%ld" of a non-negative value: its decimal digits, most significant first. */
  function Decimal(n: nat): (s: string)
    ensures |s| >= 1 && AllDigits(s)
    ensures n > 0 ==> s[0] != '0'
    decreases n
  {
    if n < 10 then [DigitChar(n)] else Decimal(n / 10) + [DigitChar(n % 10)]
  }

  /** The value a string of decimal digits denotes. */
  function DecimalValue(s: string): nat
    requires AllDigits(s)
  {
    if s == [] then 0 else DecimalValue(s[..|s| - 1]) * 10 + (s[|s| - 1] as int - '0' as int)
  }

  /** Decimal is read back by DecimalValue. */
  lemma {:induction false} DecimalRoundTrip(n: nat)
    ensures DecimalValue(Decimal(n)) == n
    decreases n
  {
    if n >= 10 {
      var s := Decimal(n);
      assert s[..|s| - 1] == Decimal(n / 10);
      DecimalRoundTrip(n / 10);
    }
  }

  function Pow10(k: nat): (p: nat)
    ensures p >= 1
  {
    if k == 0 then 1 else 10 * Pow10(k - 1)
  }

  /** A value below 10^k takes at most k digits. */
  lemma {:induction false} DecimalLength(n: nat, k: nat)
    requires 1 <= k && n < Pow10(k)
    ensures |Decimal(n)| <= k
    decreases k
  {
    if n >= 10 {
      assert k >= 2;
      DecimalLength(n / 10, k - 1);
    }
  }

  function Repeat(c: char, n: nat): (s: string)
    ensures |s| == n && forall i :: 0 <= i < n ==> s[i] == c
  {
    seq(n, _ => c)
  }

  /** "%0<width>d": the sign, then zeros up to the width, then the digits. */
  function PadDecimal(v: int, width: nat): (s: string)
    ensures |s| >= width
  {
    var sign := if v < 0 then "-" else "";
    var digits := Decimal(if v < 0 then -v else v);
    var zeros := if |sign| + |digits| < width then width - |sign| - |digits| else 0;
    sign + Repeat('0', zeros) + digits
  }

  /** What "%0Nd" writes reads back as the value, the zeros ignored. */
  lemma PadDecimalValue(v: nat, width: nat)
    ensures AllDigits(PadDecimal(v, width))
    ensures DecimalValue(PadDecimal(v, width)) == v
  {
    var digits := Decimal(v);
    var zeros := if |digits| < width then width - |digits| else 0;
    assert PadDecimal(v, width) == Repeat('0', zeros) + digits;
    LeadingZeros(zeros, digits);
    DecimalRoundTrip(v);
  }

  lemma {:induction false} LeadingZeros(z: nat, digits: string)
    requires AllDigits(digits)
    ensures AllDigits(Repeat('0', z) + digits)
    ensures DecimalValue(Repeat('0', z) + digits) == DecimalValue(digits)
    decreases |digits|
  {
    var s := Repeat('0', z) + digits;
    if digits == [] {
      assert s == Repeat('0', z);
      ZerosValue(z);
    } else {
      var init := digits[..|digits| - 1];
      assert s[..|s| - 1] == Repeat('0', z) + init;
      LeadingZeros(z, init);
    }
  }

  lemma {:induction false} ZerosValue(z: nat)
    ensures AllDigits(Repeat('0', z)) && DecimalValue(Repeat('0', z)) == 0
  {
    if z > 0 {
      assert Repeat('0', z)[..z - 1] == Repeat('0', z - 1);
      ZerosValue(z - 1);
    }
  }
}
