/** Decimal text of integers, as `typesafe_sprintf` prints a count and `std::atoi` reads one. */
module Decimal {
  predicate IsDigit(c: char) { '0' <= c <= '9' }

  /** The decimal digits of a natural number, most significant first, without leading zeros. */
  function DecimalString(n: nat): (s: string)
    ensures |s| >= 1 && forall k | 0 <= k < |s| :: IsDigit(s[k])
  {
    if n < 10 then [(n + '0' as int) as char] else DecimalString(n / 10) + [((n % 10) + '0' as int) as char]
  }

  /** The value of a string of digits. */
  function DecimalValue(s: string): int {
    if s == [] then 0 else DecimalValue(s[..|s| - 1]) * 10 + (s[|s| - 1] as int - '0' as int)
  }

  /** Printed digits read back as the number. */
  lemma {:induction false} DecimalRoundTrip(n: nat)
    ensures DecimalValue(DecimalString(n)) == n
  {
    var s := DecimalString(n);
    if n < 10 {
      assert s[..|s| - 1] == [];
    } else {
      DecimalRoundTrip(n / 10);
      assert s[..|s| - 1] == DecimalString(n / 10);
    }
  }

  /** The length of the run of digits at the start of `s`. */
  function LeadingDigits(s: string): (n: nat)
    ensures n <= |s| && (forall k | 0 <= k < n :: IsDigit(s[k])) && (n < |s| ==> !IsDigit(s[n]))
  {
    if s == [] || !IsDigit(s[0]) then 0 else 1 + LeadingDigits(s[1..])
  }

  predicate IsSpace(c: char) { c == ' ' || c == '\t' || c == '\n' || c == '\r' || c == '\U{C}' || c == '\U{B}' }

  function SkipSpaces(s: string): (r: string)
    ensures |r| <= |s| && (r != [] ==> !IsSpace(r[0]))
  {
    if s != [] && IsSpace(s[0]) then SkipSpaces(s[1..]) else s
  }

  /**
   * `std::atoi`: leading white space is skipped, an optional sign is read, then the longest run
   * of digits; text with no digits there reads as 0. Values beyond `int` are not modelled.
   */
  function Atoi(s: string): (r: int)
    ensures s == [] ==> r == 0
    ensures s != [] && !IsSpace(s[0]) && s[0] != '-' && s[0] != '+' && !IsDigit(s[0]) ==> r == 0
  {
    var t := SkipSpaces(s);
    if t != [] && t[0] == '-' then -DecimalValue(t[1..][..LeadingDigits(t[1..])])
    else if t != [] && t[0] == '+' then DecimalValue(t[1..][..LeadingDigits(t[1..])])
    else DecimalValue(t[..LeadingDigits(t)])
  }

  /** `std::atoi` reads back every printed natural number. */
  lemma AtoiReadsDecimal(n: nat)
    ensures Atoi(DecimalString(n)) == n
  {
    var s := DecimalString(n);
    assert SkipSpaces(s) == s;
    assert LeadingDigits(s) == |s|;
    assert s[..|s|] == s;
    DecimalRoundTrip(n);
  }
}
