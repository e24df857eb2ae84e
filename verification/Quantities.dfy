/**
 * Kubernetes quantities, as the node set stores a size text (internal/k8s/client.go) and as the
 * reconciler reads the stored request back (internal/controller/controller/restoretask_controller.go).
 * The suffixes and the rounding up to whole bytes are assumptions about the quantity type.
 */
module Quantities {
  import opened Wrappers
  import opened Decimals
  import opened SizeText

  predicate BinarySuffix(u: string) {
    u == "Ki" || u == "Mi" || u == "Gi" || u == "Ti" || u == "Pi"
  }

  predicate DecimalSuffix(u: string) {
    u == "m" || u == "k" || u == "M" || u == "G" || u == "T" || u == "P"
  }

  /** Bytes in one unit of a quantity suffix. */
  function SuffixBytes(suffix: string): (bytes: Option<real>)
    ensures bytes.Some? ==> bytes.value > 0.0
  {
    if suffix == "" then Some(1.0)
    else if suffix == "n" then Some(0.000000001)
    else if suffix == "u" then Some(0.000001)
    else if suffix == "m" then Some(0.001)
    else if suffix == "k" then Some(1000.0)
    else if suffix == "M" then Some(1000000.0)
    else if suffix == "G" then Some(1000000000.0)
    else if suffix == "T" then Some(1000000000000.0)
    else if suffix == "P" then Some(1000000000000000.0)
    else if suffix == "E" then Some(1000000000000000000.0)
    else if suffix == "Ki" then Some(1024.0)
    else if suffix == "Mi" then Some(1048576.0)
    else if suffix == "Gi" then Some(GIB)
    else if suffix == "Ti" then Some(1099511627776.0)
    else if suffix == "Pi" then Some(1125899906842624.0)
    else if suffix == "Ei" then Some(1152921504606846976.0)
    else None
  }

  function NumeralOf(text: string): string {
    text[..Span(text, IsNumeralChar)]
  }

  function SuffixOf(text: string): string {
    text[Span(text, IsNumeralChar)..]
  }

  function Ceiling(y: real): (n: int)
    ensures n as real - 1.0 < y <= n as real
  {
    -((-y).Floor)
  }

  function BytesOf(numeral: string, suffix: string): Option<nat> {
    match ParseNumeral(numeral)
    case None => None
    case Some(v) =>
      match SuffixBytes(suffix)
      case None => None
      case Some(f) => NumeralIsNotNegative(numeral); Some(Ceiling(Product(v, f)))
  }

  /** Whole bytes of a quantity text; None where parsing panics. */
  function QuantityBytes(text: string): Option<nat> {
    BytesOf(NumeralOf(text), SuffixOf(text))
  }

  /** A stored request as the reconciler compares it: whole bytes over 2^30. */
  function StoredGB(bytes: nat): real {
    bytes as real / GIB
  }

  /** A decimal followed by a suffix that both readers know. */
  predicate SharedSize(text: string) {
    ParseNumeral(NumeralOf(text)).Some? && (BinarySuffix(SuffixOf(text)) || DecimalSuffix(SuffixOf(text)))
  }

  predicate BinarySize(text: string) {
    ParseNumeral(NumeralOf(text)).Some? && BinarySuffix(SuffixOf(text))
  }

  /** The number in front of the suffix. */
  function Number(text: string): real
    requires SharedSize(text)
  {
    ParseNumeral(NumeralOf(text)).value
  }

  /** The bytes stored for a binary size. */
  function Bytes(text: string): nat
    requires BinarySize(text)
  {
    QuantityBytes(text).value
  }

  lemma QuantityTextIsPlain(text: string)
    requires ParseNumeral(NumeralOf(text)).Some? && SuffixOf(text) != "" && SuffixBytes(SuffixOf(text)).Some?
    ensures ToGB(text) == Convert(NumeralOf(text), SuffixOf(text))
  {
    var n, u := NumeralOf(text), SuffixOf(text);
    assert n != "";
    assert text == n + "" + u;
    assert All(u, IsLetter);
    hide ParseNumeral, Convert, ToGB;
    PlainText(text, n, u);
  }

  lemma QuantityTextNeedsSuffix(text: string)
    requires QuantityBytes(text).Some? && SuffixOf(text) == ""
    ensures ToGB(text) == Err(CannotParse)
  {
    assert text == NumeralOf(text) && text != "";
    NothingToTrim(text);
    SpanIs(text, IsNumeralChar, |text|);
    assert Split(text) == None;
  }

  lemma UpperOfOne(u: string)
    requires |u| == 1
    ensures Upper(u) == [UpperChar(u[0])]
  {
  }

  lemma UpperOfTwo(u: string)
    requires |u| == 2
    ensures Upper(u) == [UpperChar(u[0]), UpperChar(u[1])]
  {
  }

  /** What ToGB makes of the suffixes both readers know; note that milli is read as mebi. */
  function SharedUnit(u: string): Option<real> {
    if u == "k" || u == "Ki" then Some(1.0 / 1048576.0)
    else if u == "m" || u == "M" || u == "Mi" then Some(1.0 / 1024.0)
    else if u == "G" || u == "Gi" then Some(1.0)
    else if u == "T" || u == "Ti" then Some(1024.0)
    else if u == "P" || u == "Pi" then Some(1048576.0)
    else None
  }

  lemma SharedLetter(u: string)
    requires |u| == 1 && SuffixBytes(u).Some?
    ensures UnitGB(Upper(u)) == SharedUnit(u)
  {
    UpperOfOne(u);
    hide Upper;
  }

  lemma SharedPair(u: string)
    requires |u| == 2 && SuffixBytes(u).Some?
    ensures UnitGB(Upper(u)) == SharedUnit(u)
  {
    UpperOfTwo(u);
    hide Upper;
  }

  lemma SharedSuffix(u: string)
    requires u != "" && SuffixBytes(u).Some?
    ensures UnitGB(Upper(u)) == SharedUnit(u)
    ensures SharedUnit(u).Some? <==> BinarySuffix(u) || DecimalSuffix(u)
  {
    hide UnitGB, Upper;
    if |u| == 1 {
      SharedLetter(u);
    } else {
      SharedPair(u);
    }
  }

  /** What both readers make of a shared size. */
  lemma BothValues(text: string)
    requires SharedSize(text)
    ensures var u := SuffixOf(text);
            && Number(text) >= 0.0
            && UnitGB(Upper(u)).Some? && SuffixBytes(u).Some?
            && ToGB(text) == Ok(Product(Number(text), UnitGB(Upper(u)).value))
            && QuantityBytes(text) == Some(Ceiling(Product(Number(text), SuffixBytes(u).value)))
  {
    NumeralIsNotNegative(NumeralOf(text));
    SharedSuffix(SuffixOf(text));
    QuantityTextIsPlain(text);
    hide ParseNumeral, ToGB, UnitGB, Upper;
  }

  /** Both readers take a text exactly when it is a decimal with one of the eleven shared suffixes. */
  lemma ReadByBothExactly(text: string)
    ensures ToGB(text).Ok? && QuantityBytes(text).Some? <==> SharedSize(text)
  {
    if SharedSize(text) {
      BothValues(text);
    } else if QuantityBytes(text).Some? {
      if SuffixOf(text) == "" {
        QuantityTextNeedsSuffix(text);
      } else {
        QuantityTextIsPlain(text);
        SharedSuffix(SuffixOf(text));
      }
    }
    hide ToGB, UnitGB, Upper, SuffixBytes;
  }

  /**
   * A binary size read back from the cluster covers the request, with less than one byte to spare:
   * the stored bytes are the least whole number that does.
   */
  lemma BinarySizesReadBack(text: string)
    requires BinarySize(text)
    ensures ToGB(text).Ok? && QuantityBytes(text).Some?
    ensures 0.0 <= StoredGB(QuantityBytes(text).value) - ToGB(text).value < 1.0 / GIB
    ensures QuantityBytes(text).value == Ceiling(ToGB(text).value * GIB)
  {
    BothValues(text);
    BinaryUnit(SuffixOf(text), Number(text));
    hide ToGB, QuantityBytes, UnitGB, Upper;
    CeilingIsClose(ToGB(text).value, ToGB(text).value * GIB);
  }

  lemma BinaryUnit(u: string, v: real)
    requires BinarySuffix(u) && v >= 0.0
    ensures UnitGB(Upper(u)).Some? && SuffixBytes(u).Some?
    ensures Product(v, SuffixBytes(u).value) == Product(v, UnitGB(Upper(u)).value) * GIB
  {
    SharedSuffix(u);
  }

  lemma CeilingIsClose(gb: real, bytes: real)
    requires 0.0 <= bytes == gb * GIB
    ensures 0.0 <= StoredGB(Ceiling(bytes)) - gb < 1.0 / GIB
  {
  }

  /** The size texts the handlers publish are binary sizes, stored as the bytes of their six places. */
  lemma PublishedSizeIsStored(x: real)
    requires x >= 0.0
    ensures BinarySize(FormatGi(x)) && QuantityBytes(FormatGi(x)) == Some(Ceiling(Round6(x) * GIB))
  {
    var numeral, text := FormatFixed(x), FormatGi(x);
    FixedIsNumeral(x);
    assert text[..|numeral|] == numeral && text[|numeral|..] == "Gi" && text[|numeral|] == 'G';
    SpanIs(text, IsNumeralChar, |numeral|);
    PublishedBytes(numeral, Round6(x));
    hide ParseNumeral, BytesOf, FormatFixed;
  }

  lemma PublishedBytes(numeral: string, v: real)
    requires ParseNumeral(numeral) == Some(v)
    ensures BytesOf(numeral, "Gi") == Some(Ceiling(v * GIB))
  {
    hide ParseNumeral;
  }

  /**
   * From one unit up, the stored request covers what the reconciler asks for on the next pass
   * exactly when the suffix is binary.
   */
  lemma ReadersAgreeExactlyOnBinary(text: string)
    requires SharedSize(text) && Number(text) >= 1.0
    ensures ToGB(text).Ok? && QuantityBytes(text).Some?
    ensures ToGB(text).value > StoredGB(QuantityBytes(text).value) <==> !BinarySize(text)
  {
    BothValues(text);
    if BinarySize(text) {
      BinarySizesReadBack(text);
    } else {
      SharedSuffix(SuffixOf(text));
      DecimalFallsShort(SuffixOf(text), Number(text));
    }
    hide ToGB, QuantityBytes, UnitGB, Upper;
  }

  lemma DecimalFallsShort(u: string, v: real)
    requires DecimalSuffix(u) && v >= 1.0
    requires UnitGB(Upper(u)).Some? && SuffixBytes(u).Some?
    ensures Product(v, UnitGB(Upper(u)).value) > StoredGB(Ceiling(Product(v, SuffixBytes(u).value)))
  {
    SharedSuffix(u);
  }

  /** In bytes, for every shared size: asked for again exactly when what ToGB reads is more. */
  lemma ReadersAgreeInBytes(text: string)
    requires SharedSize(text)
    ensures ToGB(text).Ok? && QuantityBytes(text).Some?
    ensures ToGB(text).value > StoredGB(QuantityBytes(text).value)
            <==> Ceiling(ToGB(text).value * GIB) > QuantityBytes(text).value
  {
    BothValues(text);
    hide ToGB, QuantityBytes, UnitGB, Upper;
    BytesCompared(ToGB(text).value, QuantityBytes(text).value);
  }

  lemma BytesCompared(gb: real, stored: nat)
    ensures gb > StoredGB(stored) <==> Ceiling(gb * GIB) > stored
  {
  }

  /** What is stored for the size covers what ToGB reads, where both readers take it. */
  predicate Covering(text: string) {
    ToGB(text).Ok? && QuantityBytes(text).Some? ==> ToGB(text).value <= StoredGB(QuantityBytes(text).value)
  }

  lemma BinaryIsCovering(text: string)
    requires BinarySize(text)
    ensures ToGB(text).Ok? && Covering(text)
  {
    BinarySizesReadBack(text);
    hide ToGB, QuantityBytes;
  }

  // ---------------------------------------------------------------- sizes that never shrink a claim

  /** Growing a claim to the size, once ToGB reads it as more, never makes the claim smaller. */
  predicate Growing(text: string) {
    ToGB(text).Ok? && QuantityBytes(text).Some? ==> ToGB(text).value * GIB <= QuantityBytes(text).value as real + 1.0
  }

  lemma GrowingIs(text: string)
    ensures Growing(text) <==>
            (ToGB(text).Ok? && QuantityBytes(text).Some? ==>
               forall claim: nat | ToGB(text).value > StoredGB(claim) :: claim <= QuantityBytes(text).value)
  {
    hide ToGB, QuantityBytes;
    if ToGB(text).Ok? && QuantityBytes(text).Some? {
      GrowingBytes(ToGB(text).value, QuantityBytes(text).value);
    }
  }

  lemma GrowingBytes(gb: real, bytes: nat)
    ensures gb * GIB <= bytes as real + 1.0 <==> forall claim: nat | gb > StoredGB(claim) :: claim <= bytes
  {
    if gb * GIB > bytes as real + 1.0 {
      assert gb > StoredGB(bytes + 1);
    }
  }

  lemma BinaryIsGrowing(text: string)
    requires BinarySize(text)
    ensures Growing(text)
  {
    BinarySizesReadBack(text);
    hide ToGB, QuantityBytes;
  }

  // ---------------------------------------------------------------- texts the readers disagree on

  /** A unit as the cat API prints it. */
  predicate CatUnit(units: string) {
    units == "b" || units == "kb" || units == "mb" || units == "gb" || units == "tb" || units == "pb"
  }

  /** Sizes as the cat API prints them are read by ToGB but are no quantity at all. */
  lemma CatSizeIsNoQuantity(text: string, numeral: string, units: string)
    requires text == numeral + units && All(numeral, IsNumeralChar) && ParseNumeral(numeral).Some? && CatUnit(units)
    ensures ToGB(text).Ok? && QuantityBytes(text) == None
    ensures units == "gb" ==> ToGB(text) == Ok(ParseNumeral(numeral).value)
  {
    assert All(units, IsLetter);
    ReadParts(text, numeral, units);
    hide ParseNumeral;
    CatUnitRead(units);
  }

  lemma CatUnitRead(units: string)
    requires CatUnit(units)
    ensures UnitGB(Upper(units)).Some? && SuffixBytes(units) == None
    ensures units == "gb" ==> UnitGB(Upper(units)) == Some(1.0)
  {
    if |units| == 1 {
      UpperOfOne(units);
      assert Upper(units) == "B";
    } else {
      UpperOfTwo(units);
      hide Upper;
      CatPairRead(units);
    }
  }

  lemma CatPairRead(units: string)
    requires CatUnit(units) && |units| == 2
    ensures var upper := [UpperChar(units[0]), UpperChar(units[1])];
            UnitGB(upper).Some? && SuffixBytes(units) == None && (units == "gb" ==> UnitGB(upper) == Some(1.0))
  {
    assert units[1] == 'b';
    if units[0] == 'k' {
      assert [UpperChar(units[0]), UpperChar(units[1])] == "KB";
    } else if units[0] == 'm' {
      assert [UpperChar(units[0]), UpperChar(units[1])] == "MB";
    } else if units[0] == 'g' {
      assert [UpperChar(units[0]), UpperChar(units[1])] == "GB";
    } else if units[0] == 't' {
      assert [UpperChar(units[0]), UpperChar(units[1])] == "TB";
    } else {
      assert [UpperChar(units[0]), UpperChar(units[1])] == "PB";
    }
  }

  /** Milli is read two ways: as mebibytes by one reader, as thousandths of a byte by the other. */
  lemma MilliIsReadTwoWays(text: string, numeral: string, v: real)
    requires text == numeral + "m" && All(numeral, IsNumeralChar) && ParseNumeral(numeral) == Some(v)
    ensures v >= 0.0
    ensures ToGB(text) == Ok(v / 1024.0)
    ensures QuantityBytes(text) == Some(Ceiling(v / 1000.0))
  {
    NumeralIsNotNegative(numeral);
    ReadParts(text, numeral, "m");
    MilliUnit(numeral, v);
  }

  lemma MilliUnit(numeral: string, v: real)
    requires ParseNumeral(numeral) == Some(v) && v >= 0.0
    ensures Convert(numeral, "m") == Ok(v / 1024.0)
    ensures BytesOf(numeral, "m") == Some(Ceiling(v / 1000.0))
  {
    hide ParseNumeral;
    UpperOfOne("m");
  }

  lemma ReadParts(text: string, numeral: string, units: string)
    requires text == numeral + units && All(numeral, IsNumeralChar) && ParseNumeral(numeral).Some?
    requires units != "" && All(units, IsLetter)
    ensures ToGB(text) == Convert(numeral, units)
    ensures QuantityBytes(text) == BytesOf(numeral, units)
  {
    assert numeral != "";
    hide ParseNumeral, Convert, BytesOf, ToGB;
    assert text == numeral + "" + units;
    PlainText(text, numeral, units);
    assert text[..|numeral|] == numeral && text[|numeral|..] == units && text[|numeral|] == units[0];
    assert !IsNumeralChar(units[0]);
    SpanIs(text, IsNumeralChar, |numeral|);
  }
}
