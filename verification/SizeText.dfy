/**
 * Size texts: the reader ToGB (internal/utils/utils.go), the "%fGi" text the handlers publish
 * (internal/http/handler.go) and the total of a list of index sizes (internal/db/utils.go).
 * Numbers are exact reals.
 */
module SizeText {
  import opened Wrappers
  import opened Decimals

  datatype SizeError = CannotParse | BadNumber | UnknownUnit

  const GIB := 1073741824.0

  // ---------------------------------------------------------------- the reader

  /** ASCII white space as cut off at both ends of the text. */
  predicate IsTrimmed(c: char) {
    c in {' ', '\t', '\n', '\U{000B}', '\U{000C}', '\r'}
  }

  /** White space between number and unit; unlike the trimmed set it lacks the vertical tab. */
  predicate IsBlank(c: char) {
    c in {' ', '\t', '\n', '\U{000C}', '\r'}
  }

  predicate IsNumeralChar(c: char) {
    IsDigit(c) || c == '.'
  }

  predicate IsLetter(c: char) {
    'a' <= c <= 'z' || 'A' <= c <= 'Z'
  }

  predicate All(s: string, p: char -> bool) {
    forall i | 0 <= i < |s| :: p(s[i])
  }

  /** Length of the longest prefix of s in the class p. */
  function Span(s: string, p: char -> bool): (n: nat)
    ensures n <= |s|
    ensures forall i | 0 <= i < n :: p(s[i])
    ensures n < |s| ==> !p(s[n])
  {
    if s == "" || !p(s[0]) then 0 else 1 + Span(s[1..], p)
  }

  function TrimRight(s: string): (t: string)
    ensures t <= s
    ensures t != "" ==> !IsTrimmed(t[|t| - 1])
    ensures forall i | |t| <= i < |s| :: IsTrimmed(s[i])
  {
    if s == "" || !IsTrimmed(s[|s| - 1]) then s else TrimRight(s[..|s| - 1])
  }

  function TrimSpace(s: string): string {
    TrimRight(s[Span(s, IsTrimmed)..])
  }

  /** s reads as numeral, blanks, unit: one way for the size pattern to match. */
  predicate Matches(s: string, numeral: string, blanks: string, units: string) {
    && s == numeral + blanks + units
    && numeral != "" && All(numeral, IsNumeralChar)
    && All(blanks, IsBlank)
    && units != "" && All(units, IsLetter)
  }

  /** The groups the size pattern captures, numeral and unit. */
  function Split(s: string): Option<(string, string)> {
    var a := Span(s, IsNumeralChar);
    var b := a + Span(s[a..], IsBlank);
    if a > 0 && b < |s| && All(s[b..], IsLetter) then Some((s[..a], s[b..])) else None
  }

  /** The three character classes are disjoint, so there is one match at most, and Split finds it. */
  lemma SplitFindsTheMatch(s: string, numeral: string, units: string)
    ensures Split(s) == Some((numeral, units)) <==> exists blanks :: Matches(s, numeral, blanks, units)
  {
    var a := Span(s, IsNumeralChar);
    var b := a + Span(s[a..], IsBlank);
    if Split(s) == Some((numeral, units)) {
      assert Matches(s, numeral, s[a..b], units);
    }
    forall blanks | Matches(s, numeral, blanks, units)
      ensures Split(s) == Some((numeral, units))
    {
      MatchedSpans(s, numeral, blanks, units);
    }
  }

  lemma SpanIs(s: string, p: char -> bool, n: nat)
    requires n <= |s| && All(s[..n], p) && (n < |s| ==> !p(s[n]))
    ensures Span(s, p) == n
  {
    assert forall i | 0 <= i < n :: s[i] == s[..n][i];
  }

  lemma MatchedSpans(s: string, numeral: string, blanks: string, units: string)
    requires Matches(s, numeral, blanks, units)
    ensures Split(s) == Some((numeral, units))
  {
    var a, rest := |numeral|, blanks + units;
    assert s == numeral + rest && s[..a] == numeral && s[a..] == rest;
    assert s[a] == rest[0] == (if blanks == "" then units[0] else blanks[0]);
    assert !IsNumeralChar(s[a]);
    SpanIs(s, IsNumeralChar, a);
    assert rest[..|blanks|] == blanks && rest[|blanks|] == units[0];
    assert !IsBlank(rest[|blanks|]);
    SpanIs(rest, IsBlank, |blanks|);
    assert s[a + |blanks|..] == units;
  }

  /** Text without blanks around or inside it is read as the conversion of its two parts. */
  lemma PlainText(text: string, numeral: string, units: string)
    requires Matches(text, numeral, "", units)
    ensures ToGB(text) == Convert(numeral, units)
  {
    assert text[0] == numeral[0] && text[|text| - 1] == units[|units| - 1];
    assert IsNumeralChar(numeral[0]) && IsLetter(units[|units| - 1]);
    NothingToTrim(text);
    MatchedSpans(text, numeral, "", units);
    hide Convert, Split, TrimSpace, Matches;
  }

  lemma NothingToTrim(s: string)
    requires s != "" && !IsTrimmed(s[0]) && !IsTrimmed(s[|s| - 1])
    ensures TrimSpace(s) == s
  {
    assert s[Span(s, IsTrimmed)..] == s;
  }

  function UpperChar(c: char): char {
    if 'a' <= c <= 'z' then (c as int - 32) as char else c
  }

  function Upper(s: string): (u: string)
    ensures |u| == |s| && forall i | 0 <= i < |s| :: u[i] == UpperChar(s[i])
  {
    seq(|s|, i requires 0 <= i < |s| => UpperChar(s[i]))
  }

  /** Gibibytes in one unit; every unit is read as a power of 1024 bytes. */
  function UnitGB(units: string): (gb: Option<real>)
    ensures gb.Some? ==> gb.value > 0.0
  {
    if units == "" || units == "B" then Some(1.0 / GIB)
    else if units == "K" || units == "KB" || units == "KI" then Some(1.0 / 1048576.0)
    else if units == "M" || units == "MB" || units == "MI" then Some(1.0 / 1024.0)
    else if units == "G" || units == "GB" || units == "GI" then Some(1.0)
    else if units == "T" || units == "TB" || units == "TI" then Some(1024.0)
    else if units == "P" || units == "PB" || units == "PI" then Some(1048576.0)
    else None
  }

  /** The size of a numeral and its unit, as the pattern captured them. */
  function Convert(numeral: string, units: string): (r: Result<real, SizeError>)
    ensures r.Ok? ==> r.value >= 0.0
  {
    match ParseNumeral(numeral)
    case None => Err(BadNumber)
    case Some(v) =>
      match UnitGB(Upper(units))
      case None => Err(UnknownUnit)
      case Some(f) => NumeralIsNotNegative(numeral); Ok(Product(v, f))
  }

  /** The size in gibibytes that a text stands for. */
  function ToGB(text: string): (r: Result<real, SizeError>)
    ensures r.Ok? ==> r.value >= 0.0
  {
    match Split(TrimSpace(text))
    case None => Err(CannotParse)
    case Some((numeral, units)) => Convert(numeral, units)
  }

  function Product(v: real, f: real): (p: real)
    requires v >= 0.0 && f >= 0.0
    ensures p >= 0.0
  {
    v * f
  }

  // ---------------------------------------------------------------- the printer

  /** Nearest whole number, a tie going to the even one. */
  function RoundHalfEven(y: real): (n: int)
    ensures -0.5 <= n as real - y <= 0.5
  {
    var f := y.Floor;
    var d := y - f as real;
    if d < 0.5 || (d == 0.5 && f % 2 == 0) then f else f + 1
  }

  /** x to six decimal places. */
  function Round6(x: real): real {
    RoundHalfEven(x * 1000000.0) as real / 1000000.0
  }

  predicate IsMicroMultiple(x: real) {
    (x * 1000000.0).Floor as real == x * 1000000.0
  }

  lemma RoundingIsMonotone(x: real, y: real)
    requires x <= y
    ensures RoundHalfEven(x) <= RoundHalfEven(y)
  {
    if y < x.Floor as real + 1.0 {
      assert y.Floor == x.Floor;
    } else {
      assert y.Floor >= x.Floor + 1;
    }
  }

  lemma Round6Facts(x: real, y: real)
    requires x <= y
    ensures -0.0000005 <= Round6(x) - x <= 0.0000005
    ensures Round6(x) == x <==> IsMicroMultiple(x)
    ensures Round6(x) <= Round6(y)
  {
    RoundingIsMonotone(x * 1000000.0, y * 1000000.0);
  }

  /** "%f": whole part, point, six places. */
  function FormatFixed(x: real): string
    requires x >= 0.0
  {
    Millionths(RoundHalfEven(x * 1000000.0))
  }

  function FormatGi(x: real): string
    requires x >= 0.0
  {
    FormatFixed(x) + "Gi"
  }

  lemma FixedIsNumeral(x: real)
    requires x >= 0.0
    ensures FormatFixed(x) != "" && All(FormatFixed(x), IsNumeralChar)
    ensures ParseNumeral(FormatFixed(x)) == Some(Round6(x))
  {
    var n: nat := RoundHalfEven(x * 1000000.0);
    ParseMillionths(n);
    MillionthsText(n);
    hide ParseNumeral, Millionths;
  }

  /** The reader gives back exactly the six-place value of what the printer was given. */
  lemma PrintedSizeReadsBack(x: real)
    requires x >= 0.0
    ensures ToGB(FormatGi(x)) == Ok(Round6(x))
  {
    var numeral := FormatFixed(x);
    FixedIsNumeral(x);
    assert FormatGi(x) == numeral + "" + "Gi";
    PlainText(FormatGi(x), numeral, "Gi");
    GibibytesAsIs(numeral, Round6(x));
  }

  lemma GibibytesAsIs(numeral: string, v: real)
    requires ParseNumeral(numeral) == Some(v)
    ensures Convert(numeral, "Gi") == Ok(v)
  {
    hide ParseNumeral;
    assert Upper("Gi") == "GI";
  }

  /**
   * Print and read, on every pair of totals: off by half a millionth at most, exact just on the
   * multiples of a millionth, and order preserving.
   */
  lemma SizeRoundTrip(x: real, y: real)
    requires 0.0 <= x <= y
    ensures ToGB(FormatGi(x)).Ok? && ToGB(FormatGi(y)).Ok?
    ensures -0.0000005 <= ToGB(FormatGi(x)).value - x <= 0.0000005
    ensures ToGB(FormatGi(x)).value == x <==> IsMicroMultiple(x)
    ensures ToGB(FormatGi(x)).value <= ToGB(FormatGi(y)).value
  {
    PrintedSizeReadsBack(x);
    PrintedSizeReadsBack(y);
    Round6Facts(x, y);
  }

  // ---------------------------------------------------------------- the published total

  function SizeOrZero(text: string): (gb: real)
    ensures gb >= 0.0
  {
    match ToGB(text) case Ok(gb) => gb case Err(_) => 0.0
  }

  /** Total of a list of size texts; the ones that cannot be read count nothing. */
  function Total(sizes: seq<string>): (gb: real)
    ensures gb >= 0.0
  {
    if sizes == [] then 0.0 else Total(sizes[..|sizes| - 1]) + SizeOrZero(sizes[|sizes| - 1])
  }

  lemma {:induction false} TotalConcat(a: seq<string>, b: seq<string>)
    ensures Total(a + b) == Total(a) + Total(b)
  {
    if b == [] {
      assert a + b == a;
    } else {
      assert (a + b)[..|a + b| - 1] == a + b[..|b| - 1];
      TotalConcat(a, b[..|b| - 1]);
    }
  }

  /** The total does not depend on the order in which the database lists the rows. */
  lemma {:induction false} TotalOfPermutation(a: seq<string>, b: seq<string>)
    requires multiset(a) == multiset(b)
    ensures Total(a) == Total(b)
  {
    if a == [] {
      assert |b| == |multiset(b)| == 0;
    } else {
      var n := |a| - 1;
      var last := a[n];
      assert a == a[..n] + [last];
      assert last in multiset(b);
      var j :| 0 <= j < |b| && b[j] == last;
      var front, back := b[..j], b[j + 1..];
      assert b == front + [last] + back;
      assert multiset(a[..n]) == multiset(a) - multiset{last} == multiset(front + back);
      TotalOfPermutation(a[..n], front + back);
      TotalConcat(front, back);
      TotalConcat(front + [last], back);
      TotalConcat(front, [last]);
      assert Total([last]) == Total([]) + SizeOrZero(last);
    }
  }

  /** The text reads as the six places of the sum or of the minimum, and as no less than either. */
  predicate IsPublished(text: string, total: real, diskMinSize: real) {
    && ToGB(text).Ok?
    && var gb := ToGB(text).value;
       && gb >= Round6(total) && gb >= Round6(diskMinSize)
       && (gb == Round6(total) || gb == Round6(diskMinSize))
  }

  method StoreSize(sizes: seq<string>) returns (totalGB: real)
    ensures totalGB == Total(sizes)
  {
    totalGB := 0.0;
    for i := 0 to |sizes|
      invariant totalGB == Total(sizes[..i])
    {
      assert sizes[..i + 1][..i] == sizes[..i];
      var gb := ToGB(sizes[i]);
      if gb.Err? {
        continue;
      }
      totalGB := totalGB + gb.value;
    }
    assert sizes[..|sizes|] == sizes;
  }

  /** The "store_size" field of both query replies. */
  method PublishStoreSize(sizes: seq<string>, diskMinSize: real) returns (text: string)
    ensures IsPublished(text, Total(sizes), diskMinSize)
  {
    var storageSize := StoreSize(sizes);
    if storageSize < diskMinSize {
      storageSize := diskMinSize;
    }
    PrintedSizeReadsBack(storageSize);
    Round6Facts(Total(sizes), storageSize);
    Round6Facts(diskMinSize, storageSize);
    text := FormatGi(storageSize);
  }

  /**
   * When no total can be published below the configured minimum: exactly when six places do not
   * round that minimum down, so in particular for every multiple of a millionth.
   */
  lemma PublishedNeverBelowMinimum(diskMinSize: real)
    ensures (forall total: real, text | total >= 0.0 && IsPublished(text, total, diskMinSize) ::
               ToGB(text).value >= diskMinSize)
            <==> diskMinSize < 0.0 || Round6(diskMinSize) >= diskMinSize
    ensures IsMicroMultiple(diskMinSize) ==> Round6(diskMinSize) >= diskMinSize
  {
    Round6Facts(diskMinSize, diskMinSize);
    if diskMinSize >= 0.0 {
      PrintedSizeReadsBack(diskMinSize);
      Round6Facts(0.0, diskMinSize);
      assert IsPublished(FormatGi(diskMinSize), 0.0, diskMinSize);
    }
  }
}
