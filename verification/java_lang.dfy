/** The pieces of Java's integer semantics the plan nodes rely on: the fixed
    widths of `int` and `long`, the narrowing `(int)` cast, and the decimal
    rendering `Long.toString` used by string concatenation. */
module JavaLang {
  import opened Wrappers

  /** Number of distinct 32-bit values. */
  const TWO_32: int := 0x1_0000_0000

  /** Java `int`. */
  type int32 = x: int | -0x8000_0000 <= x < 0x8000_0000

  /** Java `long`. */
  type int64 = x: int | -0x8000_0000_0000_0000 <= x < 0x8000_0000_0000_0000

  predicate InInt32Range(x: int) {
    -0x8000_0000 <= x < 0x8000_0000
  }

  /** The narrowing conversion `(int) x` of a `long`: the low 32 bits of the
      two's-complement representation, read back as a signed `int`. */
  function NarrowToInt(x: int64): (r: int32)
    ensures (x - r) % TWO_32 == 0
    ensures InInt32Range(x) ==> r == x
  {
    var low := x % TWO_32;
    if low < 0x8000_0000 then low else low - TWO_32
  }

  /** The narrowing is the only `int` congruent to its argument modulo 2^32. */
  lemma NarrowToIntIsUnique(x: int64, y: int32)
    requires (x - y) % TWO_32 == 0
    ensures y == NarrowToInt(x)
  {
    var r := NarrowToInt(x);
    var k1 := (x - r) / TWO_32;
    var k2 := (x - y) / TWO_32;
    assert x - r == TWO_32 * k1;
    assert x - y == TWO_32 * k2;
    assert y - r == TWO_32 * (k1 - k2);
  }

  /** Values outside the `int` range wrap around: 2^31 turns negative, and
      2^32 + 10 reads as 10. */
  lemma NarrowToIntWrapsAround()
    ensures NarrowToInt(0x8000_0000) == -0x8000_0000
    ensures NarrowToInt(0x1_0000_000A) == 10
    ensures NarrowToInt(-1) == -1
  {
  }

  predicate IsDigit(c: char) {
    '0' <= c <= '9'
  }

  predicate AllDigits(s: string) {
    forall i :: 0 <= i < |s| ==> IsDigit(s[i])
  }

  function DigitChar(d: nat): (c: char)
    requires d < 10
    ensures IsDigit(c)
  {
    ('0' as int + d) as char
  }

  function DigitValue(c: char): (d: nat)
    requires IsDigit(c)
    ensures d < 10 && DigitChar(d) == c
  {
    c as int - '0' as int
  }

  /** Decimal digits of a natural number, most significant first, without
      leading zeros. */
  function NatToDecimal(n: nat): (s: string)
    ensures |s| > 0 && AllDigits(s)
    ensures s[0] == '0' ==> n == 0
    ensures n == 0 ==> s == "0"
    decreases n
  {
    if n < 10 then [DigitChar(n)] else NatToDecimal(n / 10) + [DigitChar(n % 10)]
  }

  /** The number a string of decimal digits denotes. */
  function DecimalValue(s: string): nat
    requires AllDigits(s)
  {
    if |s| == 0 then 0 else 10 * DecimalValue(s[..|s| - 1]) + DigitValue(s[|s| - 1])
  }

  lemma {:induction false} DecimalRoundTrip(n: nat)
    ensures DecimalValue(NatToDecimal(n)) == n
    decreases n
  {
    if n >= 10 {
      var s := NatToDecimal(n);
      assert s[..|s| - 1] == NatToDecimal(n / 10);
      DecimalRoundTrip(n / 10);
    }
  }

  /** `Long.toString(x)`: an optional minus sign followed by the decimal digits
      of the magnitude. */
  function LongToString(x: int64): (s: string)
    ensures |s| > 0
    ensures x < 0 ==> s[0] == '-' && |s| > 1 && AllDigits(s[1..])
    ensures x >= 0 ==> AllDigits(s)
  {
    if x < 0 then "-" + NatToDecimal(-(x as int)) else NatToDecimal(x)
  }

  /** Reads back a signed decimal; absent when the text is not one. */
  function ParseLong(s: string): Option<int> {
    if |s| > 1 && s[0] == '-' && AllDigits(s[1..]) then Some(-(DecimalValue(s[1..]) as int))
    else if |s| > 0 && AllDigits(s) then Some(DecimalValue(s))
    else None
  }

  lemma LongToStringRoundTrip(x: int64)
    ensures ParseLong(LongToString(x)) == Some(x)
  {
    var s := LongToString(x);
    if x < 0 {
      assert s[1..] == NatToDecimal(-(x as int));
      DecimalRoundTrip(-(x as int));
    } else {
      DecimalRoundTrip(x);
    }
  }

  /** Distinct `long`s render differently. */
  lemma LongToStringInjective(x: int64, y: int64)
    requires LongToString(x) == LongToString(y)
    ensures x == y
  {
    LongToStringRoundTrip(x);
    LongToStringRoundTrip(y);
  }

  /** A rendered `long` never contains a comma. */
  lemma LongToStringHasNoComma(x: int64)
    ensures forall i :: 0 <= i < |LongToString(x)| ==> LongToString(x)[i] != ','
  {
    var s := LongToString(x);
    forall i | 0 <= i < |s|
      ensures s[i] != ','
    {
      if x < 0 && i > 0 {
        assert s[1..][i - 1] == s[i];
      }
    }
  }
}
