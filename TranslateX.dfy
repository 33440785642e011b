/** The carousel keeps its horizontal offset in the track's inline style as the
    string `translateX(<n>px)` and reads it back at drag start. This module models
    the two ways the component writes that string and the regex-and-Number read,
    on integral offsets. */
module TranslateX {
  import opened Wrappers

  const Prefix: string := "translateX("
  const Suffix: string := "px)"

  predicate IsDigit(c: char) {
    '0' <= c <= '9'
  }

  predicate AllDigits(s: string) {
    forall k :: 0 <= k < |s| ==> IsDigit(s[k])
  }

  function DigitChar(d: nat): (c: char)
    requires d < 10
    ensures IsDigit(c) && DigitValue(c) == d
  {
    (('0' as int) + d) as char
  }

  function DigitValue(c: char): nat
    requires IsDigit(c)
  {
    (c as int) - ('0' as int)
  }

  /** The numeral a template literal produces for a non-negative integral number:
      decimal digits, without leading zeros. */
  function NatToDecimal(n: nat): (s: string)
    ensures |s| >= 1 && AllDigits(s)
    ensures |s| > 1 ==> s[0] != '0'
    ensures n < 10 <==> |s| == 1
  {
    if n < 10 then [DigitChar(n)] else NatToDecimal(n / 10) + [DigitChar(n % 10)]
  }

  /** The value `Number` gives a string of decimal digits. */
  function DecimalValue(s: string): (r: nat)
    requires AllDigits(s)
    ensures s == [] ==> r == 0
    ensures |s| == 1 ==> r == DigitValue(s[0])
  {
    if s == [] then 0 else DecimalValue(s[..|s| - 1]) * 10 + DigitValue(s[|s| - 1])
  }

  lemma {:induction false} DecimalRoundTrip(n: nat)
    ensures DecimalValue(NatToDecimal(n)) == n
  {
    if n >= 10 {
      var s := NatToDecimal(n);
      assert s[..|s| - 1] == NatToDecimal(n / 10);
      DecimalRoundTrip(n / 10);
    }
  }

  /** The numeral a template literal produces for an integral number. */
  function IntToDecimal(n: int): (s: string)
    ensures |s| >= 1
    ensures s[0] == '-' <==> n < 0
    ensures n < 0 ==> |s| >= 2 && AllDigits(s[1..])
    ensures n >= 0 ==> AllDigits(s)
  {
    if n < 0 then "-" + NatToDecimal(-n) else NatToDecimal(n)
  }

  /** `Number` of the captured group: an optional minus sign and decimal digits.
      Anything else is not a number (None). */
  function ParseNumber(s: string): (r: Option<int>)
    ensures r.Some? ==> |s| >= 1
    ensures r.Some? && s[0] == '-' ==> r.value <= 0
    ensures r.Some? && s[0] != '-' ==> r.value >= 0
  {
    if |s| > 1 && s[0] == '-' && AllDigits(s[1..]) then Some(-(DecimalValue(s[1..]) as int))
    else if |s| > 0 && AllDigits(s) then Some(DecimalValue(s))
    else None
  }

  /** `Number(transform.replace(/translateX\((-?.+)px\)/g, '$1'))` on a string that is
      a whole `translateX(...px)` form; any other string is not a number (None). */
  function Parse(transform: string): (r: Option<int>)
    ensures r.Some? ==> |transform| > |Prefix| + |Suffix|
    ensures r.Some? ==> transform[..|Prefix|] == Prefix
    ensures r.Some? ==> transform[|transform| - |Suffix|..] == Suffix
  {
    if |transform| >= |Prefix| + |Suffix|
       && transform[..|Prefix|] == Prefix
       && transform[|transform| - |Suffix|..] == Suffix
    then ParseNumber(transform[|Prefix|..|transform| - |Suffix|])
    else None
  }

  lemma ParseNumberOfDecimal(n: int)
    ensures ParseNumber(IntToDecimal(n)) == Some(n)
  {
    if n < 0 {
      var d := NatToDecimal(-n);
      assert ("-" + d)[1..] == d;
      DecimalRoundTrip(-n);
    } else {
      DecimalRoundTrip(n);
    }
  }

  lemma FramedMiddle(m: string)
    ensures (Prefix + m + Suffix)[..|Prefix|] == Prefix
    ensures (Prefix + m + Suffix)[|Prefix| + |m|..] == Suffix
    ensures (Prefix + m + Suffix)[|Prefix|..|Prefix| + |m|] == m
  {
  }

  /** Parsing a framed numeral parses the numeral. */
  lemma ParseFramed(m: string)
    requires |m| >= 1
    ensures Parse(Prefix + m + Suffix) == ParseNumber(m)
  {
    FramedMiddle(m);
    assert |Prefix + m + Suffix| - |Suffix| == |Prefix| + |m|;
  }

  /** `translateX(${n}px)`: what a non-wrapping move writes. Reading it back at drag
      start gives exactly the offset written. */
  function Format(offset: int): (s: string)
    ensures Parse(s) == Some(offset)
  {
    ParseFramed(IntToDecimal(offset));
    ParseNumberOfDecimal(offset);
    Prefix + IntToDecimal(offset) + Suffix
  }

  /** `translateX(-${w}px)`: what mount and a wrapping move write for a width w.
      Reading it back gives exactly -w. */
  function FormatNegated(width: nat): (s: string)
    ensures Parse(s) == Some(-(width as int))
  {
    var m := "-" + NatToDecimal(width);
    assert m[1..] == NatToDecimal(width);
    DecimalRoundTrip(width);
    ParseFramed(m);
    assert Prefix + "-" + NatToDecimal(width) + Suffix == Prefix + m + Suffix;
    Prefix + "-" + NatToDecimal(width) + Suffix
  }

  /** For a positive width both writers produce the same string, so the wrap and the
      plain move store the offset in one format. */
  lemma FormatNegatedIsFormat(width: nat)
    requires width > 0
    ensures FormatNegated(width) == Format(-(width as int))
  {
    var d := NatToDecimal(width);
    assert IntToDecimal(-(width as int)) == "-" + d;
    assert Prefix + "-" + d + Suffix == Prefix + ("-" + d) + Suffix;
  }
}
