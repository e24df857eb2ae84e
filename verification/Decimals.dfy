/** Decimal text: the value a string of digits stands for, and the digits of a number. */
module Decimals {
  import opened Wrappers

  predicate IsDigit(c: char) {
    '0' <= c <= '9'
  }

  predicate AllDigits(s: string) {
    forall i | 0 <= i < |s| :: IsDigit(s[i])
  }

  function Pow10(n: nat): (p: nat)
    ensures p > 0
  {
    if n == 0 then 1 else 10 * Pow10(n - 1)
  }

  function DigitsValue(s: string): nat
    requires AllDigits(s)
  {
    if s == "" then 0
    else 10 * DigitsValue(s[..|s| - 1]) + (s[|s| - 1] as int - '0' as int)
  }

  function DigitChar(d: nat): (c: char)
    requires d < 10
    ensures IsDigit(c) && c as int - '0' as int == d
  {
    ('0' as int + d) as char
  }

  /** The shortest digits of n, as the integer part of a printed number. */
  function Digits(n: nat): (s: string)
    ensures s != "" && AllDigits(s) && DigitsValue(s) == n
  {
    if n < 10 then [DigitChar(n)]
    else
      var front := Digits(n / 10);
      var s := front + [DigitChar(n % 10)];
      assert s[..|s| - 1] == front;
      s
  }

  /** The digits of n filled up with leading zeros to exactly w places. */
  function Padded(n: nat, w: nat): (s: string)
    requires n < Pow10(w)
    ensures |s| == w && AllDigits(s) && DigitsValue(s) == n
  {
    if w == 0 then ""
    else
      var front := Padded(n / 10, w - 1);
      var s := front + [DigitChar(n % 10)];
      assert s[..|s| - 1] == front;
      s
  }

  lemma {:induction false} DigitsValueConcat(a: string, b: string)
    requires AllDigits(a) && AllDigits(b)
    ensures AllDigits(a + b)
    ensures DigitsValue(a + b) == DigitsValue(a) * Pow10(|b|) + DigitsValue(b)
  {
    if b == "" {
      assert a + b == a;
    } else {
      var front := b[..|b| - 1];
      DigitsValueConcat(a, front);
      assert (a + b)[..|a + b| - 1] == a + front;
      TimesTen(DigitsValue(a), Pow10(|front|));
    }
  }

  lemma TimesTen(x: nat, p: nat)
    ensures 10 * (x * p) == x * (10 * p)
  {
  }

  lemma SixDigitsAppended(a: string, b: string)
    requires AllDigits(a) && AllDigits(b) && |b| == 6
    ensures AllDigits(a + b)
    ensures DigitsValue(a + b) == DigitsValue(a) * 1000000 + DigitsValue(b)
  {
    assert Pow10(6) == 1000000;
    DigitsValueConcat(a, b);
  }

  /** Position of the first decimal point, or the length of t when it has none. */
  function PointAt(t: string): (k: nat)
    ensures k <= |t|
    ensures forall i | 0 <= i < k :: t[i] != '.'
    ensures k < |t| ==> t[k] == '.'
  {
    if t == "" || t[0] == '.' then 0 else 1 + PointAt(t[1..])
  }

  /**
   * The value of an unsigned decimal: digits with at most one point and at least one digit.
   * Anything else, such as "." or "1.2.3", has no value.
   */
  function ParseNumeral(t: string): Option<real> {
    var k := PointAt(t);
    var whole := t[..k];
    var fraction := if k < |t| then t[k + 1..] else "";
    if AllDigits(whole + fraction) && whole + fraction != "" then
      Some(DigitsValue(whole + fraction) as real / Pow10(|fraction|) as real)
    else
      None
  }

  lemma NumeralIsNotNegative(t: string)
    ensures ParseNumeral(t).Some? ==> ParseNumeral(t).value >= 0.0
  {
  }

  lemma PointIs(t: string, k: nat)
    requires k < |t| && t[k] == '.' && forall i | 0 <= i < k :: t[i] != '.'
    ensures PointAt(t) == k
  {
  }

  /** A whole part and a fraction written with a point between them read back as their decimal. */
  lemma ParseWithPoint(whole: string, fraction: string)
    requires AllDigits(whole) && AllDigits(fraction) && whole != ""
    ensures AllDigits(whole + fraction)
    ensures ParseNumeral(whole + "." + fraction)
         == Some(DigitsValue(whole + fraction) as real / Pow10(|fraction|) as real)
  {
    var t := whole + "." + fraction;
    PointIs(t, |whole|);
    assert t[..|whole|] == whole && t[|whole| + 1..] == fraction;
  }

  lemma ParseSixPlaces(whole: string, fraction: string)
    requires AllDigits(whole) && AllDigits(fraction) && whole != "" && |fraction| == 6
    ensures AllDigits(whole + fraction)
    ensures ParseNumeral(whole + "." + fraction) == Some(DigitsValue(whole + fraction) as real / 1000000.0)
  {
    ParseWithPoint(whole, fraction);
    hide ParseNumeral, DigitsValue;
    assert Pow10(6) == 1000000;
    assert Pow10(|fraction|) as real == 1000000.0;
  }

  /** A number of millionths, printed with six places behind the point. */
  function Millionths(n: nat): string {
    assert Pow10(6) == 1000000;
    Digits(n / 1000000) + "." + Padded(n % 1000000, 6)
  }

  lemma MillionthsText(n: nat)
    ensures Millionths(n) != ""
    ensures forall i | 0 <= i < |Millionths(n)| :: IsDigit(Millionths(n)[i]) || Millionths(n)[i] == '.'
  {
    hide DigitsValue, Digits, Padded;
    assert Pow10(6) == 1000000;
    var whole, fraction := Digits(n / 1000000), Padded(n % 1000000, 6);
    assert Millionths(n) == whole + "." + fraction;
  }

  lemma ParseMillionths(n: nat)
    ensures ParseNumeral(Millionths(n)) == Some(n as real / 1000000.0)
  {
    hide ParseNumeral, DigitsValue, Digits, Padded;
    assert Pow10(6) == 1000000;
    var whole, fraction := Digits(n / 1000000), Padded(n % 1000000, 6);
    ParseSixPlaces(whole, fraction);
    SixDigitsAppended(whole, fraction);
    assert DigitsValue(whole + fraction) == n;
  }
}
