/**
 * Decimal text as the C++ standard library produces and reads it:
 * `std::to_string` for signed integers and `std::stoull` for the header
 * fields of a gateway response.
 */
module Decimal {
  import opened Wrappers

  /** 2^64: one more than the largest `unsigned long long`. */
  const U64Modulus: nat := 0x1_0000_0000_0000_0000

  predicate IsDigit(c: char) {
    '0' <= c <= '9'
  }

  predicate AllDigits(s: string) {
    forall i :: 0 <= i < |s| ==> IsDigit(s[i])
  }

  function DigitChar(d: nat): (c: char)
    requires d < 10
    ensures IsDigit(c) && DigitValue(c) == d
  {
    (('0' as int) + d) as char
  }

  function DigitValue(c: char): (d: nat)
    requires IsDigit(c)
    ensures d < 10
  {
    (c as int) - ('0' as int)
  }

  /** The shortest decimal spelling of `n` (no leading zeros). */
  function NatToString(n: nat): (s: string)
    ensures |s| > 0 && AllDigits(s)
    ensures |s| == 1 || s[0] != '0'
    decreases n
  {
    if n < 10 then [DigitChar(n)] else NatToString(n / 10) + [DigitChar(n % 10)]
  }

  /** `std::to_string` of a signed integer: a minus sign for negatives, then the digits. */
  function IntToString(i: int): (s: string)
    ensures |s| > 0
    ensures forall k :: 0 <= k < |s| ==> IsDigit(s[k]) || s[k] == '-'
  {
    if i < 0 then "-" + NatToString(-i) else NatToString(i)
  }

  /** The value of a string of decimal digits, most significant first. */
  function DigitsValue(s: string): nat
    requires AllDigits(s)
    decreases |s|
  {
    if s == [] then 0 else DigitsValue(s[..|s| - 1]) * 10 + DigitValue(s[|s| - 1])
  }

  lemma {:induction false} NatToStringRoundTrip(n: nat)
    ensures DigitsValue(NatToString(n)) == n
    decreases n
  {
    if n >= 10 {
      var s := NatToString(n);
      var t := NatToString(n / 10);
      assert s == t + [DigitChar(n % 10)];
      assert s[..|s| - 1] == t;
      NatToStringRoundTrip(n / 10);
    }
  }

  /** Reads back what `IntToString` writes: an optional minus sign followed by at least one digit. */
  function ParseInt(s: string): Option<int> {
    if |s| > 0 && s[0] == '-' then
      if |s| > 1 && AllDigits(s[1..]) then Some(0 - DigitsValue(s[1..]) as int) else None
    else if |s| > 0 && AllDigits(s) then Some(DigitsValue(s))
    else None
  }

  lemma IntToStringRoundTrip(i: int)
    ensures ParseInt(IntToString(i)) == Some(i)
  {
    if i < 0 {
      NegativeRoundTrip(-i);
    } else {
      NatToStringRoundTrip(i);
    }
  }

  lemma NegativeRoundTrip(n: nat)
    requires n > 0
    ensures ParseInt("-" + NatToString(n)) == Some(0 - n)
  {
    var s := "-" + NatToString(n);
    assert s[1..] == NatToString(n);
    NatToStringRoundTrip(n);
  }

  /** The white-space characters `std::isspace` accepts in the "C" locale. */
  predicate IsSpace(c: char) {
    c == ' ' || c == '\t' || c == '\n' || c == '\r' || c as int == 11 || c as int == 12
  }

  /** The index of the first character at or after `i` that is not white space. */
  function SkipSpaces(s: string, i: nat): (j: nat)
    requires i <= |s|
    ensures i <= j <= |s|
    ensures j < |s| ==> !IsSpace(s[j])
    decreases |s| - i
  {
    if i < |s| && IsSpace(s[i]) then SkipSpaces(s, i + 1) else i
  }

  /** The end of the run of digits that starts at `i`. */
  function DigitRunEnd(s: string, i: nat): (j: nat)
    requires i <= |s|
    ensures i <= j <= |s|
    ensures AllDigits(s[i..j])
    ensures j < |s| ==> !IsDigit(s[j])
    decreases |s| - i
  {
    if i < |s| && IsDigit(s[i]) then
      var j := DigitRunEnd(s, i + 1);
      assert s[i..j] == [s[i]] + s[i + 1..j];
      j
    else i
  }

  /**
   * `std::stoull(s)` in base 10: leading white space is skipped, one sign
   * is accepted, and the longest run of digits after it is read; text after
   * the digits is ignored. No digits (`std::invalid_argument`) or a value
   * above 2^64 - 1 (`std::out_of_range`) gives None. A minus sign negates
   * modulo 2^64, as `strtoull` does.
   */
  function Stoull(s: string): (r: Option<nat>)
    ensures r.Some? ==> r.value < U64Modulus
  {
    var i := SkipSpaces(s, 0);
    var negative := i < |s| && s[i] == '-';
    var j := if i < |s| && (s[i] == '+' || s[i] == '-') then i + 1 else i;
    var k := DigitRunEnd(s, j);
    if k == j then None
    else
      var v := DigitsValue(s[j..k]);
      if v >= U64Modulus then None
      else if negative then Some((U64Modulus - v) % U64Modulus)
      else Some(v)
  }

  /** Every 64-bit unsigned value survives `std::to_string` followed by `std::stoull`. */
  lemma StoullReadsDecimal(n: nat)
    requires n < U64Modulus
    ensures Stoull(NatToString(n)) == Some(n)
  {
    var s := NatToString(n);
    assert SkipSpaces(s, 0) == 0;
    assert DigitRunEnd(s, 0) == |s|;
    assert s[0..|s|] == s;
    NatToStringRoundTrip(n);
  }

  /** A value of 2^64 or more written in decimal is refused, as `std::out_of_range` is thrown. */
  lemma StoullRefusesOverflow(n: nat)
    requires n >= U64Modulus
    ensures Stoull(NatToString(n)) == None
  {
    var s := NatToString(n);
    assert SkipSpaces(s, 0) == 0;
    assert DigitRunEnd(s, 0) == |s|;
    assert s[0..|s|] == s;
    NatToStringRoundTrip(n);
  }

  /** Text that holds no digit at all is refused by `std::stoull`. */
  lemma StoullNeedsDigits(s: string)
    requires forall i :: 0 <= i < |s| ==> !IsDigit(s[i])
    ensures Stoull(s) == None
  {
  }
}
