/**
 Decimal digit strings: rendering a natural number the way `%d` does (ASCII
 digits, no sign, no leading zeros) and reading such a string back.
 */
module Decimal {

  predicate IsDigit(c: char) {
    '0' <= c <= '9'
  }

  predicate IsDigits(s: string) {
    forall i :: 0 <= i < |s| ==> IsDigit(s[i])
  }

  function DigitChar(d: nat): (c: char)
    requires d < 10
    ensures IsDigit(c)
  {
    ('0' as int + d) as char
  }

  function DigitValue(c: char): (d: nat)
    requires IsDigit(c)
    ensures d < 10
    ensures DigitChar(d) == c
  {
    c as int - '0' as int
  }

  /** The shortest decimal rendering of `n`. */
  function ToDecimal(n: nat): (r: string)
    ensures |r| >= 1 && IsDigits(r)
    ensures n < 10 <==> |r| == 1
    ensures 10 <= n < 100 <==> |r| == 2
    ensures |r| > 1 ==> r[0] != '0'
  {
    if n < 10 then [DigitChar(n)] else ToDecimal(n / 10) + [DigitChar(n % 10)]
  }

  /** The value of a digit string, most significant digit first; leading zeros are allowed. */
  function ParseDecimal(s: string): (v: nat)
    requires IsDigits(s)
    ensures |s| <= 1 ==> v < 10
    ensures |s| <= 2 ==> v < 100
  {
    if |s| == 0 then 0 else 10 * ParseDecimal(s[..|s| - 1]) + DigitValue(s[|s| - 1])
  }

  lemma {:induction false} ParseToDecimal(n: nat)
    ensures ParseDecimal(ToDecimal(n)) == n
  {
    var r := ToDecimal(n);
    if n >= 10 {
      ParseToDecimal(n / 10);
      assert r[..|r| - 1] == ToDecimal(n / 10);
    }
  }

  /** Every shortest rendering is what ToDecimal produces for its value. */
  lemma {:induction false} ToDecimalParse(s: string)
    requires IsDigits(s) && |s| >= 1
    requires |s| > 1 ==> s[0] != '0'
    ensures ToDecimal(ParseDecimal(s)) == s
  {
    if |s| > 1 {
      var front := s[..|s| - 1];
      ToDecimalParse(front);
      LeadingDigitBound(front);
      var v := ParseDecimal(s);
      assert v / 10 == ParseDecimal(front);
      assert v % 10 == DigitValue(s[|s| - 1]);
      assert s == front + [s[|s| - 1]];
    }
  }

  /** A digit string that does not start with '0' denotes at least 1. */
  lemma {:induction false} LeadingDigitBound(s: string)
    requires IsDigits(s) && |s| >= 1 && s[0] != '0'
    ensures ParseDecimal(s) >= 1
  {
    if |s| > 1 {
      LeadingDigitBound(s[..|s| - 1]);
    }
  }
}
