/**
 * `GenerateUUID`: the identifier every `Component` receives. The source draws its digits
 * from a process-wide Mersenne Twister; here the draws are the input, `digits` holding the
 * thirty uniform draws in `0..15` in the order they are written and `variant` the one draw
 * in `8..11`. Each draw is written with `std::hex`, so it is one lower-case hex digit.
 */
module Uuid {

  /** A draw of `hexDigitDistribution`. */
  type Nibble = n: int | 0 <= n < 16

  /** A draw of `variantDistribution`. */
  type Variant = n: int | 8 <= n < 12 witness 8

  /** A lower-case hex digit. */
  predicate IsHexDigit(c: char)
  {
    '0' <= c <= '9' || 'a' <= c <= 'f'
  }

  /** The value of a lower-case hex digit, or -1 for any other character. */
  function DigitValue(c: char): (n: int)
    ensures -1 <= n < 16 && (n >= 0 <==> IsHexDigit(c))
  {
    if '0' <= c <= '9' then c as int - '0' as int
    else if 'a' <= c <= 'f' then c as int - 'a' as int + 10
    else -1
  }

  /** How `operator<<` with `std::hex` writes a value below 16. */
  function HexDigit(n: Nibble): (c: char)
    ensures IsHexDigit(c) && DigitValue(c) == n
  {
    if n < 10 then ('0' as int + n) as char else ('a' as int + n - 10) as char
  }

  /** Each draw written in turn. */
  function Hex(ns: seq<Nibble>): (s: string)
    ensures |s| == |ns|
  {
    if ns == [] then [] else Hex(ns[..|ns| - 1]) + [HexDigit(ns[|ns| - 1])]
  }

  /** The text of a run holds each draw's digit at the draw's place. */
  lemma {:induction false} HexAt(ns: seq<Nibble>)
    ensures forall i :: 0 <= i < |ns| ==> Hex(ns)[i] == HexDigit(ns[i])
  {
    if ns != [] {
      HexAt(ns[..|ns| - 1]);
    }
  }

  /** Writing one more draw of a run extends the run's text by its digit. */
  lemma HexExtended(digits: seq<Nibble>, from: nat, to: nat)
    requires from <= to < |digits|
    ensures Hex(digits[from..to + 1]) == Hex(digits[from..to]) + [HexDigit(digits[to])]
  {
    assert digits[from..to + 1][..to - from] == digits[from..to];
  }

  /**
   * The text `GenerateUUID` produces: 8 digits, `-`, 4 digits, the version digit `4`,
   * 3 digits, `-`, the variant digit, 3 digits, `-`, 12 digits.
   */
  function Layout(digits: seq<Nibble>, variant: Variant): string
    requires |digits| == 30
  {
    Hex(digits[..8]) + "-" + Hex(digits[8..12]) + "4" + Hex(digits[12..15]) + "-" +
    [HexDigit(variant)] + Hex(digits[15..18]) + "-" + Hex(digits[18..])
  }

  /** Where the `i`-th uniform draw lands in the text. */
  function DigitPosition(i: nat): (p: nat)
    requires i < 30
    ensures p < 35 && p !in {8, 13, 17, 18, 22}
  {
    if i < 8 then i
    else if i < 12 then i + 1
    else if i < 15 then i + 2
    else if i < 18 then i + 4
    else i + 5
  }

  /**
   * The shape of every identifier: 35 characters, hyphens at exactly positions 8, 17 and 22,
   * `4` at position 13, one of `8`, `9`, `a`, `b` at position 18, and a lower-case hex digit
   * everywhere else.
   */
  ghost predicate WellFormed(s: string)
  {
    |s| == 35 &&
    (forall i :: 0 <= i < 35 ==> (s[i] == '-' <==> i in {8, 17, 22})) &&
    s[13] == '4' && s[18] in {'8', '9', 'a', 'b'} &&
    (forall i :: 0 <= i < 35 && i !in {8, 17, 22} ==> IsHexDigit(s[i]))
  }

  /** The uniform draws, read back from the text. */
  function Digits(s: string): (ns: seq<int>)
    requires |s| == 35
    ensures |ns| == 30
  {
    seq(30, i requires 0 <= i < 30 => DigitValue(s[DigitPosition(i)]))
  }

  /** Every draw lands at its position, and the variant at position 18. */
  lemma LayoutPositions(digits: seq<Nibble>, variant: Variant)
    requires |digits| == 30
    ensures |Layout(digits, variant)| == 35
    ensures forall i :: 0 <= i < 30 ==> Layout(digits, variant)[DigitPosition(i)] == HexDigit(digits[i])
    ensures Layout(digits, variant)[8] == Layout(digits, variant)[17] == Layout(digits, variant)[22] == '-'
    ensures Layout(digits, variant)[13] == '4' && Layout(digits, variant)[18] == HexDigit(variant)
  {
    var s := Layout(digits, variant);
    var a, b, c, d, e := Hex(digits[..8]), Hex(digits[8..12]), Hex(digits[12..15]), Hex(digits[15..18]), Hex(digits[18..]);
    HexAt(digits[..8]);
    HexAt(digits[8..12]);
    HexAt(digits[12..15]);
    HexAt(digits[15..18]);
    HexAt(digits[18..]);
    assert s == a + "-" + b + "4" + c + "-" + [HexDigit(variant)] + d + "-" + e;
    forall i | 0 <= i < 30
      ensures s[DigitPosition(i)] == HexDigit(digits[i])
    {
      if i < 8 {
        assert s[i] == a[i];
      } else if i < 12 {
        assert s[i + 1] == b[i - 8];
      } else if i < 15 {
        assert s[i + 2] == c[i - 12];
      } else if i < 18 {
        assert s[i + 4] == d[i - 15];
      } else {
        assert s[i + 5] == e[i - 18];
      }
    }
  }

  /** Every identifier has the shape above. */
  lemma LayoutWellFormed(digits: seq<Nibble>, variant: Variant)
    requires |digits| == 30
    ensures WellFormed(Layout(digits, variant))
  {
    var s := Layout(digits, variant);
    LayoutPositions(digits, variant);
    forall i | 0 <= i < 35 && i !in {8, 13, 17, 18, 22}
      ensures IsHexDigit(s[i])
    {
      var j := if i < 8 then i else if i < 13 then i - 1 else if i < 17 then i - 2
               else if i < 22 then i - 4 else i - 5;
      assert DigitPosition(j) == i;
    }
    assert HexDigit(variant) in {'8', '9', 'a', 'b'};
  }

  /** The text determines the draws: reading the digits back gives the uniform draws. */
  lemma LayoutDigitsRoundTrip(digits: seq<Nibble>, variant: Variant)
    requires |digits| == 30
    ensures |Layout(digits, variant)| == 35 && Digits(Layout(digits, variant)) == digits
    ensures DigitValue(Layout(digits, variant)[18]) == variant
  {
    LayoutPositions(digits, variant);
    var s := Layout(digits, variant);
    forall i | 0 <= i < 30
      ensures Digits(s)[i] == digits[i]
    {
      assert s[DigitPosition(i)] == HexDigit(digits[i]);
    }
  }

  /** Different draws give different identifiers. */
  lemma LayoutInjective(d1: seq<Nibble>, v1: Variant, d2: seq<Nibble>, v2: Variant)
    requires |d1| == 30 && |d2| == 30
    ensures Layout(d1, v1) == Layout(d2, v2) <==> d1 == d2 && v1 == v2
  {
    if Layout(d1, v1) == Layout(d2, v2) {
      LayoutDigitsRoundTrip(d1, v1);
      LayoutDigitsRoundTrip(d2, v2);
    }
  }

  /**
   * The layout is not the 8-4-4-4-12 text form of section 3 of RFC 4122: that form has 36
   * characters with a hyphen at position 13, where this one writes the version digit.
   */
  lemma NotTheRfc4122Form(digits: seq<Nibble>, variant: Variant)
    requires |digits| == 30
    ensures |Layout(digits, variant)| != 36 && Layout(digits, variant)[13] != '-'
  {
    LayoutPositions(digits, variant);
  }

  /** `GenerateUUID`: the five runs of draws and the fixed characters, written in order. */
  method GenerateUUID(digits: seq<Nibble>, variant: Variant) returns (uuid: string)
    requires |digits| == 30
    ensures uuid == Layout(digits, variant)
  {
    uuid := [];
    for index := 0 to 8
      invariant uuid == Hex(digits[0..index])
    {
      uuid := uuid + [HexDigit(digits[index])];
      HexExtended(digits, 0, index);
    }
    assert digits[0..8] == digits[..8];
    uuid := uuid + "-";
    ghost var mark := uuid;
    for index := 8 to 12
      invariant uuid == mark + Hex(digits[8..index])
    {
      uuid := uuid + [HexDigit(digits[index])];
      HexExtended(digits, 8, index);
    }
    uuid := uuid + "4";
    mark := uuid;
    for index := 12 to 15
      invariant uuid == mark + Hex(digits[12..index])
    {
      uuid := uuid + [HexDigit(digits[index])];
      HexExtended(digits, 12, index);
    }
    uuid := uuid + "-" + [HexDigit(variant)];
    mark := uuid;
    for index := 15 to 18
      invariant uuid == mark + Hex(digits[15..index])
    {
      uuid := uuid + [HexDigit(digits[index])];
      HexExtended(digits, 15, index);
    }
    uuid := uuid + "-";
    mark := uuid;
    for index := 18 to 30
      invariant uuid == mark + Hex(digits[18..index])
    {
      uuid := uuid + [HexDigit(digits[index])];
      HexExtended(digits, 18, index);
    }
    assert digits[18..30] == digits[18..];
  }
}
