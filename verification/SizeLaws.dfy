/**
 * Laws of size texts, stated on the text alone: what a numeral is worth, what each unit makes of it for
 * either reader (internal/utils/utils.go, internal/k8s/client.go), and what a published text looks like
 * (internal/http/handler.go).
 */
module SizeLaws {
  import opened Wrappers
  import opened Decimals
  import opened SizeText
  import opened Quantities

  // ---------------------------------------------------------------- numerals

  /** One digit is its own value, and one more is worth ten times what stood before it, and itself. */
  lemma WholeNumerals(whole: string, c: char)
    requires AllDigits(whole) && '0' <= c <= '9'
    ensures ParseNumeral([c]) == Some((c as int - '0' as int) as real)
    ensures whole != "" ==>
              && ParseNumeral(whole).Some?
              && ParseNumeral(whole + [c]) == Some(10.0 * ParseNumeral(whole).value + (c as int - '0' as int) as real)
  {
    NoPoint([c]);
    assert [c][..0] == "";
    if whole != "" {
      NoPoint(whole);
      NoPoint(whole + [c]);
      assert (whole + [c])[..|whole|] == whole;
    }
  }

  lemma NoPoint(whole: string)
    requires AllDigits(whole) && whole != ""
    ensures ParseNumeral(whole) == Some(DigitsValue(whole) as real)
  {
    forall i | 0 <= i < |whole|
      ensures whole[i] != '.'
    {
      assert IsDigit(whole[i]);
    }
    assert whole[..|whole|] == whole && whole + "" == whole;
    assert Pow10(0) == 1;
  }

  /** Moving the point one digit to the right makes ten times as much; a point at the end does nothing. */
  lemma PointMoves(whole: string, c: char, rest: string)
    requires AllDigits(whole) && '0' <= c <= '9' && AllDigits(rest)
    ensures whole != "" ==> ParseNumeral(whole + ".") == ParseNumeral(whole)
    ensures ParseNumeral(whole + "." + [c] + rest).Some? && ParseNumeral(whole + [c] + "." + rest).Some?
    ensures 10.0 * ParseNumeral(whole + "." + [c] + rest).value == ParseNumeral(whole + [c] + "." + rest).value
  {
    if whole != "" {
      NoPoint(whole);
      WithPoint(whole, "");
      assert whole + "." + "" == whole + "." && whole + "" == whole;
    }
    WithPoint(whole, [c] + rest);
    WithPoint(whole + [c], rest);
    Joined(whole, ".", [c], rest);
    Joined(whole, [c], rest, "");
    hide ParseNumeral, DigitsValue, AllDigits;
    TenthOf(DigitsValue(whole + [c] + rest), Pow10(|rest|));
  }

  lemma Joined<T>(a: seq<T>, b: seq<T>, c: seq<T>, d: seq<T>)
    ensures a + b + c + d == a + b + (c + d) && a + (b + c) == a + b + c
  {
  }

  lemma TenthOf(n: nat, p: nat)
    requires p > 0
    ensures 10.0 * (n as real / (10 * p) as real) == n as real / p as real
  {
    assert (10 * p) as real == 10.0 * p as real;
  }

  lemma WithPoint(whole: string, fraction: string)
    requires AllDigits(whole) && AllDigits(fraction) && whole + fraction != ""
    ensures AllDigits(whole + fraction)
    ensures ParseNumeral(whole + "." + fraction)
         == Some(DigitsValue(whole + fraction) as real / Pow10(|fraction|) as real)
  {
    var t := whole + "." + fraction;
    forall i | 0 <= i < |whole|
      ensures t[i] != '.'
    {
      assert t[i] == whole[i] && IsDigit(whole[i]);
    }
    PointIs(t, |whole|);
    assert t[..|whole|] == whole && t[|whole| + 1..] == fraction;
  }

  /** Digits with a point before, between or behind them. */
  ghost predicate Pointed(t: string) {
    exists whole, fraction ::
      t == whole + "." + fraction && AllDigits(whole) && AllDigits(fraction) && whole + fraction != ""
  }

  /** Digits, with one point or without, have a value, and nothing else has. */
  lemma NumeralsAre(t: string)
    ensures ParseNumeral(t).Some? <==> (t != "" && AllDigits(t)) || Pointed(t)
  {
    if t != "" && AllDigits(t) {
      NoPoint(t);
    }
    if Pointed(t) {
      var whole, fraction :|
        t == whole + "." + fraction && AllDigits(whole) && AllDigits(fraction) && whole + fraction != "";
      WithPoint(whole, fraction);
    }
    if ParseNumeral(t).Some? {
      ValuedIsNumeral(t);
    }
    hide ParseNumeral, AllDigits;
  }

  lemma DigitsApart(a: string, b: string)
    requires AllDigits(a + b)
    ensures AllDigits(a) && AllDigits(b)
  {
    assert forall i | 0 <= i < |a| :: a[i] == (a + b)[i];
    assert forall i | 0 <= i < |b| :: b[i] == (a + b)[|a| + i];
  }

  lemma ValuedIsNumeral(t: string)
    requires ParseNumeral(t).Some?
    ensures (t != "" && AllDigits(t)) || Pointed(t)
  {
    var k := PointAt(t);
    if k < |t| {
      var whole, fraction := t[..k], t[k + 1..];
      assert t == whole + "." + fraction;
      assert AllDigits(whole + fraction) && whole + fraction != "";
      DigitsApart(whole, fraction);
    } else {
      assert t[..k] + "" == t;
    }
  }

  // ---------------------------------------------------------------- units of the size reader

  /** The unit is number k of b, k, m, g, t, p in either case, alone or, but for b, with a b or an i. */
  predicate UnitIs(units: string, k: nat) {
    && k < 6 && units != "" && units[0] in ["bB", "kK", "mM", "gG", "tT", "pP"][k]
    && (|units| == 1 || (k > 0 && |units| == 2 && units[1] in "bBiI"))
  }

  function Power(base: nat, k: nat): nat {
    if k == 0 then 1 else base * Power(base, k - 1)
  }

  lemma PowersOf1024(k: nat)
    requires k < 6
    ensures Power(1024, k)
         == if k == 0 then 1 else if k == 1 then 1024 else if k == 2 then 1048576
            else if k == 3 then 1073741824 else if k == 4 then 1099511627776 else 1125899906842624
  {
    assert k == 0 || k == 1 || k == 2 || k == 3 || k == 4 || k == 5;
  }

  lemma PowersOf1000(k: nat)
    requires k < 10
    ensures Power(1000, k)
         == if k == 0 then 1 else if k == 1 then 1000 else if k == 2 then 1000000 else if k == 3 then 1000000000
            else if k == 4 then 1000000000000 else if k == 5 then 1000000000000000
            else if k == 6 then 1000000000000000000 else if k == 7 then 1000000000000000000000
            else if k == 8 then 1000000000000000000000000 else 1000000000000000000000000000
  {
    assert k == 0 || k == 1 || k == 2 || k == 3 || k == 4 || k == 5 || k == 6 || k == 7 || k == 8 || k == 9;
  }

  /** Gibibytes in unit k: 1024 to its power bytes. */
  function UnitFactor(k: nat): real {
    Power(1024, k) as real / 1073741824.0
  }

  lemma UnitIsRead(units: string, k: nat)
    requires UnitIs(units, k)
    ensures UnitGB(Upper(units)) == Some(UnitFactor(k))
  {
    PowersOf1024(k);
    var b := ['B', 'K', 'M', 'G', 'T', 'P'][k];
    assert UpperChar(units[0]) == b;
    if |units| == 1 {
      UpperOfOne(units);
      assert Upper(units) == [b];
    } else {
      UpperOfTwo(units);
      assert Upper(units) == [b, UpperChar(units[1])];
    }
    hide Upper, Power;
  }

  lemma OtherUnits(units: string)
    requires units != ""
    ensures UnitGB(Upper(units)).Some? ==> exists k: nat :: UnitIs(units, k)
  {
    var u := Upper(units);
    hide Upper;
    if UnitGB(u).Some? {
      var k := if u[0] == 'B' then 0 else if u[0] == 'K' then 1 else if u[0] == 'M' then 2
               else if u[0] == 'G' then 3 else if u[0] == 'T' then 4 else 5;
      assert u[0] == UpperChar(units[0]) && (|u| > 1 ==> u[1] == UpperChar(units[1]));
      assert UnitIs(units, k);
    }
  }

  /** A size text in its parts: white space around it, a numeral, white space, a unit. */
  ghost predicate InParts(text: string, left: string, numeral: string, blanks: string, units: string, right: string) {
    && text == left + (numeral + blanks + units) + right
    && (forall i | 0 <= i < |left| :: left[i] in " \t\n\r\U{000B}\U{000C}")
    && (forall i | 0 <= i < |right| :: right[i] in " \t\n\r\U{000B}\U{000C}")
    && numeral != "" && (forall i | 0 <= i < |numeral| :: '0' <= numeral[i] <= '9' || numeral[i] == '.')
    && (forall i | 0 <= i < |blanks| :: blanks[i] in " \t\n\r\U{000C}")
    && units != "" && (forall i | 0 <= i < |units| :: 'a' <= units[i] <= 'z' || 'A' <= units[i] <= 'Z')
  }

  lemma TrimmedCore(left: string, core: string, right: string)
    requires All(left, IsTrimmed) && All(right, IsTrimmed)
    requires core != "" && !IsTrimmed(core[0]) && !IsTrimmed(core[|core| - 1])
    ensures TrimSpace(left + core + right) == core
  {
    var text := left + core + right;
    assert text[..|left|] == left && text[|left|] == core[0];
    SpanIs(text, IsTrimmed, |left|);
    assert text[|left|..] == core + right;
    TrimmedRight(core, right);
  }

  lemma {:induction false} TrimmedRight(core: string, right: string)
    requires All(right, IsTrimmed) && core != "" && !IsTrimmed(core[|core| - 1])
    ensures TrimRight(core + right) == core
  {
    if right == "" {
      assert core + right == core;
    } else {
      assert (core + right)[..|core + right| - 1] == core + right[..|right| - 1];
      TrimmedRight(core, right[..|right| - 1]);
    }
  }

  /** The reader's answer for a numeral and a unit: their product, each unit being a power of 1024 bytes;
      a numeral without a value and a unit that is none of the six are refused. */
  ghost predicate IsSize(numeral: string, units: string, answer: Result<real, SizeError>) {
    match ParseNumeral(numeral)
    case None => answer == Err(BadNumber)
    case Some(v) =>
      && (forall k: nat | UnitIs(units, k) :: answer == Ok(v * UnitFactor(k)))
      && ((forall k: nat :: !UnitIs(units, k)) ==> answer == Err(UnknownUnit))
  }

  /** Any such text is read as its numeral times its unit. */
  lemma SizesRead(text: string, left: string, numeral: string, blanks: string, units: string, right: string)
    requires InParts(text, left, numeral, blanks, units, right)
    ensures IsSize(numeral, units, ToGB(text))
  {
    PartsAreNotEmpty(text, left, numeral, blanks, units, right);
    hide *;
    PartsAreRead(text, left, numeral, blanks, units, right);
    UnitsConvert(numeral, units);
  }

  lemma PartsAreNotEmpty(text: string, left: string, numeral: string, blanks: string, units: string, right: string)
    requires InParts(text, left, numeral, blanks, units, right)
    ensures units != ""
  {
  }

  lemma UnitsConvert(numeral: string, units: string)
    requires units != ""
    ensures IsSize(numeral, units, Convert(numeral, units))
  {
    OtherUnits(units);
    hide ParseNumeral, UnitGB, Upper, UnitFactor;
    forall k: nat | UnitIs(units, k)
      ensures UnitGB(Upper(units)) == Some(UnitFactor(k))
    {
      UnitIsRead(units, k);
    }
    hide UnitIs;
  }

  lemma PartsAreRead(text: string, left: string, numeral: string, blanks: string, units: string, right: string)
    requires InParts(text, left, numeral, blanks, units, right)
    ensures ToGB(text) == Convert(numeral, units)
  {
    var core := numeral + blanks + units;
    assert core[0] == numeral[0] && core[|core| - 1] == units[|units| - 1];
    TrimmedCore(left, core, right);
    assert Matches(core, numeral, blanks, units);
    MatchedSpans(core, numeral, blanks, units);
  }

  /** Every other text is refused. */
  lemma OtherTextsRefused(text: string)
    ensures ToGB(text) == Err(CannotParse)
            <==> !exists left, numeral, blanks, units, right :: InParts(text, left, numeral, blanks, units, right)
  {
    forall left, numeral, blanks, units, right | InParts(text, left, numeral, blanks, units, right)
      ensures ToGB(text) != Err(CannotParse)
    {
      PartsAreNotRefused(text, left, numeral, blanks, units, right);
    }
    if ToGB(text) != Err(CannotParse) {
      ReadHasParts(text);
    }
    hide ToGB, InParts;
  }

  lemma PartsAreNotRefused(text: string, left: string, numeral: string, blanks: string, units: string, right: string)
    requires InParts(text, left, numeral, blanks, units, right)
    ensures ToGB(text) != Err(CannotParse)
  {
    PartsAreRead(text, left, numeral, blanks, units, right);
    hide ToGB, InParts;
  }

  lemma ReadHasParts(text: string)
    requires ToGB(text) != Err(CannotParse)
    ensures exists left, numeral, blanks, units, right :: InParts(text, left, numeral, blanks, units, right)
  {
    var core, a := TrimSpace(text), Span(text, IsTrimmed);
    assert Split(core).Some?;
    var (numeral, units) := Split(core).value;
    SplitFindsTheMatch(core, numeral, units);
    hide ToGB, Split, TrimSpace, Span, InParts, Matches;
    var blanks :| Matches(core, numeral, blanks, units);
    TrimKeeps(text);
    MatchInParts(text[..a], numeral, blanks, units, text[a + |core|..]);
  }

  lemma MatchInParts(left: string, numeral: string, blanks: string, units: string, right: string)
    requires All(left, IsTrimmed) && All(right, IsTrimmed)
    requires Matches(numeral + blanks + units, numeral, blanks, units)
    ensures InParts(left + (numeral + blanks + units) + right, left, numeral, blanks, units, right)
  {
  }

  lemma TrimKeeps(text: string)
    ensures var a, core := Span(text, IsTrimmed), TrimSpace(text);
            && a + |core| <= |text|
            && text == text[..a] + core + text[a + |core|..]
            && All(text[..a], IsTrimmed) && All(text[a + |core|..], IsTrimmed)
  {
    var a := Span(text, IsTrimmed);
    var n := |TrimRight(text[a..])|;
    assert TrimSpace(text) == text[a..][..n];
    assert All(text[..a], IsTrimmed) && All(text[a..][n..], IsTrimmed);
    hide *;
    CutInThree(text, a, n);
  }

  lemma CutInThree<T>(s: seq<T>, a: nat, n: nat)
    requires a + n <= |s|
    ensures s == s[..a] + s[a..][..n] + s[a + n..] && s[a..][n..] == s[a + n..]
  {
  }

  // ---------------------------------------------------------------- suffixes of a quantity

  /** The suffix is number k of nano, micro, milli, none, k, M, G, T, P, E: each 1000 times the last. */
  predicate DecimalIs(suffix: string, k: nat) {
    k < 10 && suffix == ["n", "u", "m", "", "k", "M", "G", "T", "P", "E"][k]
  }

  /** The suffix is number k of Ki, Mi, Gi, Ti, Pi, Ei: each 1024 times the last. */
  predicate BinaryIs(suffix: string, k: nat) {
    k < 6 && suffix == ["Ki", "Mi", "Gi", "Ti", "Pi", "Ei"][k]
  }

  function DecimalFactor(k: nat): real {
    Power(1000, k) as real / 1000000000.0
  }

  function BinaryFactor(k: nat): real {
    1024.0 * Power(1024, k) as real
  }

  lemma DecimalBytes(suffix: string, k: nat)
    requires DecimalIs(suffix, k)
    ensures SuffixBytes(suffix) == Some(DecimalFactor(k))
  {
    PowersOf1000(k);
    hide Power;
  }

  lemma BinaryBytes(suffix: string, k: nat)
    requires BinaryIs(suffix, k)
    ensures SuffixBytes(suffix) == Some(BinaryFactor(k))
  {
    PowersOf1024(k);
    hide Power;
  }

  predicate IsLeast(answer: Option<nat>, bytes: real) {
    answer.Some? && answer.value as real - 1.0 < bytes <= answer.value as real
  }

  /** The bytes of a quantity are the least that cover its numeral times its suffix; with any other suffix
      it is none. */
  ghost predicate IsQuantity(numeral: string, suffix: string, answer: Option<nat>)
    requires ParseNumeral(numeral).Some?
  {
    var v := ParseNumeral(numeral).value;
    && (forall k: nat | DecimalIs(suffix, k) :: IsLeast(answer, v * DecimalFactor(k)))
    && (forall k: nat | BinaryIs(suffix, k) :: IsLeast(answer, v * BinaryFactor(k)))
    && (answer.None? <==> forall k: nat :: !DecimalIs(suffix, k) && !BinaryIs(suffix, k))
  }

  /** Any numeral with a suffix behind it is read so. */
  lemma QuantitiesRead(text: string, numeral: string, suffix: string)
    requires text == numeral + suffix && ParseNumeral(numeral).Some?
    requires suffix == "" || !IsNumeralChar(suffix[0])
    ensures IsQuantity(numeral, suffix, QuantityBytes(text))
  {
    hide *;
    QuantityParts(text, numeral, suffix);
    SuffixesConvert(numeral, suffix);
  }

  lemma SuffixesConvert(numeral: string, suffix: string)
    requires ParseNumeral(numeral).Some?
    ensures IsQuantity(numeral, suffix, BytesOf(numeral, suffix))
  {
    hide ParseNumeral, SuffixBytes, DecimalIs, BinaryIs, DecimalFactor, BinaryFactor;
    KnownSuffix(suffix);
    forall k: nat | DecimalIs(suffix, k)
      ensures SuffixBytes(suffix) == Some(DecimalFactor(k))
      ensures IsLeast(BytesOf(numeral, suffix), ParseNumeral(numeral).value * DecimalFactor(k))
    {
      DecimalBytes(suffix, k);
      BytesAreLeast(numeral, suffix, DecimalFactor(k));
    }
    forall k: nat | BinaryIs(suffix, k)
      ensures SuffixBytes(suffix) == Some(BinaryFactor(k))
      ensures IsLeast(BytesOf(numeral, suffix), ParseNumeral(numeral).value * BinaryFactor(k))
    {
      BinaryBytes(suffix, k);
      BytesAreLeast(numeral, suffix, BinaryFactor(k));
    }
  }

  lemma BytesAreLeast(numeral: string, suffix: string, f: real)
    requires ParseNumeral(numeral).Some? && SuffixBytes(suffix) == Some(f)
    ensures IsLeast(BytesOf(numeral, suffix), ParseNumeral(numeral).value * f)
  {
    hide ParseNumeral, SuffixBytes;
  }

  lemma KnownSuffix(suffix: string)
    ensures SuffixBytes(suffix).Some? ==> exists k: nat :: DecimalIs(suffix, k) || BinaryIs(suffix, k)
  {
    if suffix == "n" { assert DecimalIs(suffix, 0); }
    if suffix == "u" { assert DecimalIs(suffix, 1); }
    if suffix == "m" { assert DecimalIs(suffix, 2); }
    if suffix == "" { assert DecimalIs(suffix, 3); }
    if suffix == "k" { assert DecimalIs(suffix, 4); }
    if suffix == "M" { assert DecimalIs(suffix, 5); }
    if suffix == "G" { assert DecimalIs(suffix, 6); }
    if suffix == "T" { assert DecimalIs(suffix, 7); }
    if suffix == "P" { assert DecimalIs(suffix, 8); }
    if suffix == "E" { assert DecimalIs(suffix, 9); }
    if |suffix| == 2 && suffix[1] == 'i' {
      assert suffix == "Ki" ==> BinaryIs(suffix, 0);
      assert suffix == "Mi" ==> BinaryIs(suffix, 1);
      assert suffix == "Gi" ==> BinaryIs(suffix, 2);
      assert suffix == "Ti" ==> BinaryIs(suffix, 3);
      assert suffix == "Pi" ==> BinaryIs(suffix, 4);
      assert suffix == "Ei" ==> BinaryIs(suffix, 5);
    }
  }

  lemma QuantityParts(text: string, numeral: string, suffix: string)
    requires text == numeral + suffix && ParseNumeral(numeral).Some?
    requires suffix == "" || !IsNumeralChar(suffix[0])
    ensures QuantityBytes(text) == BytesOf(numeral, suffix)
  {
    NumeralChars(numeral);
    assert text[..|numeral|] == numeral && text[|numeral|..] == suffix;
    SpanIs(text, IsNumeralChar, |numeral|);
    hide ParseNumeral, BytesOf;
  }

  lemma NumeralChars(numeral: string)
    requires ParseNumeral(numeral).Some?
    ensures All(numeral, IsNumeralChar)
  {
    NumeralsAre(numeral);
    hide ParseNumeral;
  }

  // ---------------------------------------------------------------- sums and printed texts

  /** A total is a sum: nothing for no texts, a text by itself what it reads as, and the rest adds up. */
  lemma TotalsAdd(a: seq<string>, b: seq<string>, text: string)
    ensures Total([]) == 0.0
    ensures Total([text]) == match ToGB(text) case Ok(gb) => gb case Err(_) => 0.0
    ensures Total(a + b) == Total(a) + Total(b)
  {
    assert [text][..0] == [];
    TotalConcat(a, b);
    hide ToGB;
  }

  /** A published text: a whole part without leading zeros, a point, six digits and "Gi". */
  lemma PublishedText(x: real)
    requires x >= 0.0
    ensures exists whole, places ::
              && FormatGi(x) == whole + "." + places + "Gi"
              && AllDigits(whole) && whole != "" && (|whole| > 1 ==> whole[0] != '0')
              && AllDigits(places) && |places| == 6
  {
    var n: nat := RoundHalfEven(x * 1000000.0);
    assert Pow10(6) == 1000000;
    var whole, places := Digits(n / 1000000), Padded(n % 1000000, 6);
    NoLeadingZero(n / 1000000);
    assert FormatGi(x) == whole + "." + places + "Gi";
  }

  lemma {:induction false} NoLeadingZero(n: nat)
    ensures |Digits(n)| > 1 ==> Digits(n)[0] != '0'
    ensures n > 0 ==> Digits(n)[0] != '0'
  {
    if n < 10 {
    } else {
      NoLeadingZero(n / 10);
    }
  }

  /** The six places are the nearest, and of two equally near ones the even one. */
  lemma TiesGoToEven(x: real, n: int)
    requires x * 1000000.0 == n as real + 0.5
    ensures Round6(x) == (if n % 2 == 0 then n else n + 1) as real / 1000000.0
  {
    assert (x * 1000000.0).Floor == n;
  }
}
