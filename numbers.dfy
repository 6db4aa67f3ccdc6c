/**
 * Decimal integers as Go writes and reads them: `fmt`'s `%d` and
 * `strconv.Atoi` on a 64-bit `int`, and `time.Duration` arithmetic, which
 * wraps around at 64 bits.
 */
module Numbers {
  import opened Wrappers

  const MinInt64: int := -0x8000_0000_0000_0000
  const MaxInt64: int := 0x7FFF_FFFF_FFFF_FFFF

  predicate IsInt64(n: int) {
    MinInt64 <= n <= MaxInt64
  }

  /** Two's-complement wrap-around of a mathematical integer to 64 bits. */
  function Wrap64(n: int): (r: int)
    ensures IsInt64(r)
    ensures IsInt64(n) ==> r == n
    ensures (r - n) % 0x1_0000_0000_0000_0000 == 0
  {
    var m := (n - MinInt64) % 0x1_0000_0000_0000_0000;
    m + MinInt64
  }

  /** An octet, as Go's `byte` and a JavaScript `Uint8Array` element. */
  type Byte = b: int | 0 <= b < 256

  predicate IsDigit(c: char) {
    '0' <= c <= '9'
  }

  predicate AllDigits(s: string) {
    forall i :: 0 <= i < |s| ==> IsDigit(s[i])
  }

  function DigitChar(d: int): (c: char)
    requires 0 <= d < 10
    ensures IsDigit(c)
  {
    ('0' as int + d) as char
  }

  function DigitValue(c: char): (d: int)
    requires IsDigit(c)
    ensures 0 <= d < 10 && DigitChar(d) == c
  {
    c as int - '0' as int
  }

  /** A natural number in decimal, without leading zeros. */
  function NatDecimal(n: nat): (s: string)
    ensures |s| >= 1 && AllDigits(s)
    ensures |s| > 1 ==> s[0] != '0'
  {
    if n < 10 then [DigitChar(n)] else NatDecimal(n / 10) + [DigitChar(n % 10)]
  }

  /** `%d`: a minus sign before the digits of a negative number. */
  function Decimal(n: int): (s: string)
    ensures |s| >= 1
    ensures n < 0 <==> s[0] == '-'
  {
    if n < 0 then "-" + NatDecimal(-n) else NatDecimal(n)
  }

  /** The value of a string of decimal digits, most significant first. */
  function DigitsValue(s: string): (v: nat)
    requires AllDigits(s)
    ensures |s| == 1 ==> v == DigitValue(s[0])
  {
    if s == [] then 0 else DigitsValue(s[..|s| - 1]) * 10 + DigitValue(s[|s| - 1])
  }

  /**
   * `strconv.Atoi`: an optional sign, then one or more decimal digits and
   * nothing else; a value outside the 64-bit range is an error.
   */
  function Atoi(s: string): (r: Option<int>)
    ensures r.Some? ==> IsInt64(r.value)
    ensures s == [] ==> r.None?
    ensures AllDigits(s) && s != [] && DigitsValue(s) <= MaxInt64 ==> r == Some(DigitsValue(s))
  {
    var signed := |s| > 0 && (s[0] == '-' || s[0] == '+');
    var digits := if signed then s[1..] else s;
    if digits == [] || !AllDigits(digits) then None
    else
      var v: int := if signed && s[0] == '-' then -(DigitsValue(digits) as int) else DigitsValue(digits);
      if IsInt64(v) then Some(v) else None
  }

  /** Reading the decimal digits of a number gives the number back. */
  lemma {:induction false} DigitsOfNatDecimal(n: nat)
    ensures DigitsValue(NatDecimal(n)) == n
  {
    if n >= 10 {
      var s := NatDecimal(n);
      assert s[..|s| - 1] == NatDecimal(n / 10);
      DigitsOfNatDecimal(n / 10);
    }
  }

  /** The digits of a natural number read back as that number, when it fits in 64 bits. */
  lemma AtoiNatDecimal(n: nat)
    ensures Atoi(NatDecimal(n)) == if n <= MaxInt64 then Some(n) else None
  {
    var s := NatDecimal(n);
    assert !(s[0] == '-' || s[0] == '+');
    DigitsOfNatDecimal(n);
  }

  /** A minus sign and the digits of a positive number read back as its negation, when it fits. */
  lemma AtoiNegatedDecimal(n: nat)
    requires n > 0
    ensures Atoi("-" + NatDecimal(n)) == if -(n as int) >= MinInt64 then Some(-(n as int)) else None
  {
    var s := "-" + NatDecimal(n);
    assert s[0] == '-';
    assert s[1..] == NatDecimal(n);
    DigitsOfNatDecimal(n);
  }

  /** `strconv.Atoi` reads back every 64-bit integer `%d` writes. */
  lemma AtoiDecimal(n: int)
    requires IsInt64(n)
    ensures Atoi(Decimal(n)) == Some(n)
  {
    if n < 0 {
      AtoiNegatedDecimal(-n);
    } else {
      AtoiNatDecimal(n);
    }
  }

  /** Atoi rejects every string with a character that is neither a digit nor a leading sign. */
  lemma AtoiRejectsOther(s: string, i: nat)
    requires i < |s| && !IsDigit(s[i]) && !(i == 0 && (s[i] == '-' || s[i] == '+'))
    ensures Atoi(s) == None
  {
    var signed := |s| > 0 && (s[0] == '-' || s[0] == '+');
    var digits := if signed then s[1..] else s;
    if signed {
      assert digits[i - 1] == s[i];
    }
  }
}
