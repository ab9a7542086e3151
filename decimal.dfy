/** Decimal literals: how the parser turns a NUMERIC literal into a count
    (strconv.ParseInt in base 10 with a 64-bit result), and how the writer
    renders a count (the `%d` verb of fmt.Sprintf). */
module Decimal {
  import opened Basics

  /** The largest value strconv.ParseInt accepts for a 64-bit result. */
  const MaxInt64: nat := 0x7FFF_FFFF_FFFF_FFFF

  predicate IsDigit(c: char)
  {
    '0' <= c <= '9'
  }

  predicate AllDigits(s: string)
  {
    forall i :: 0 <= i < |s| ==> IsDigit(s[i])
  }

  /** The value of a string of decimal digits, most significant first. */
  function DigitsValue(s: string): nat
    requires AllDigits(s)
  {
    if |s| == 0 then 0 else DigitsValue(s[..|s| - 1]) * 10 + (s[|s| - 1] as int - '0' as int)
  }

  /** strconv.ParseInt(lit, 10, 64) on a NUMERIC literal: it fails on an empty
      or non-digit literal and on a value that overflows int64. */
  function ParseNumeric(lit: string): (r: Option<nat>)
    ensures r.Some? ==> r.value <= MaxInt64
    ensures r.Some? <==> |lit| > 0 && AllDigits(lit) && DigitsValue(lit) <= MaxInt64
  {
    if |lit| > 0 && AllDigits(lit) && DigitsValue(lit) <= MaxInt64 then Some(DigitsValue(lit)) else None
  }

  function DigitChar(d: nat): (c: char)
    requires d < 10
    ensures IsDigit(c) && c as int - '0' as int == d
  {
    ('0' as int + d) as char
  }

  /** The decimal rendering of `n`, without sign or leading zeros. */
  function NatToString(n: nat): (s: string)
    ensures |s| > 0 && AllDigits(s)
    ensures n >= 10 ==> s[0] != '0'
  {
    if n < 10 then [DigitChar(n)] else NatToString(n / 10) + [DigitChar(n % 10)]
  }

  lemma {:induction false} DigitsValueOfNatToString(n: nat)
    ensures DigitsValue(NatToString(n)) == n
  {
    if n >= 10 {
      var s := NatToString(n);
      DigitsValueOfNatToString(n / 10);
      assert s[..|s| - 1] == NatToString(n / 10);
    }
  }

  /** Parsing what the writer renders gives the number back. */
  lemma ParseNumericOfNatToString(n: nat)
    requires n <= MaxInt64
    ensures ParseNumeric(NatToString(n)) == Some(n)
  {
    DigitsValueOfNatToString(n);
  }
}
