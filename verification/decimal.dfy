/**
 * Decimal text of integers, as JavaScript's `String(n)` and template literals
 * print them (no leading zeros, a leading `-` for negatives), together with the
 * parser that reads such text back.
 */
module Decimal {
  import opened Wrappers

  predicate IsDigit(c: char) {
    '0' <= c <= '9'
  }

  predicate AllDigits(s: string) {
    forall i | 0 <= i < |s| :: IsDigit(s[i])
  }

  function DigitChar(d: nat): (c: char)
    requires d < 10
    ensures IsDigit(c)
  {
    ('0' as int + d) as char
  }

  function DigitValue(c: char): (d: nat)
    requires IsDigit(c)
    ensures d < 10
  {
    c as int - '0' as int
  }

  /** Decimal digits of `n`, most significant first. */
  function NatText(n: nat): (s: string)
    ensures 1 <= |s|
    ensures AllDigits(s)
    ensures |s| > 1 ==> s[0] != '0'
    decreases n
  {
    if n < 10 then [DigitChar(n)] else NatText(n / 10) + [DigitChar(n % 10)]
  }

  /** The number written by a string of decimal digits. */
  function DigitsValue(s: string): nat
    requires AllDigits(s)
    decreases |s|
  {
    if |s| == 0 then 0 else DigitsValue(s[..|s| - 1]) * 10 + DigitValue(s[|s| - 1])
  }

  /** JavaScript's decimal text of an integer. */
  function IntText(i: int): (s: string)
    ensures 1 <= |s|
  {
    if i < 0 then "-" + NatText(-i) else NatText(i)
  }

  /** Reads back an optional `-` followed by at least one decimal digit. */
  function ParseInt(s: string): Option<int> {
    if |s| > 1 && s[0] == '-' && AllDigits(s[1..]) then Some(0 - DigitsValue(s[1..]) as int)
    else if |s| > 0 && AllDigits(s) then Some(DigitsValue(s))
    else None
  }

  lemma {:induction false} NatTextValue(n: nat)
    ensures DigitsValue(NatText(n)) == n
    decreases n
  {
    if n >= 10 {
      var s := NatText(n);
      NatTextValue(n / 10);
      assert s[..|s| - 1] == NatText(n / 10);
      assert s[|s| - 1] == DigitChar(n % 10);
    }
  }

  /** Parsing the printed text of an integer gives the integer back. */
  lemma IntTextRoundTrip(i: int)
    ensures ParseInt(IntText(i)) == Some(i)
  {
    var s := IntText(i);
    if i < 0 {
      NatTextValue(-i);
      assert s[1..] == NatText(-i);
    } else {
      NatTextValue(i);
      assert s[0] != '-';
    }
  }

  /** Distinct integers print as distinct text. */
  lemma IntTextInjective(i: int, j: int)
    ensures IntText(i) == IntText(j) <==> i == j
  {
    IntTextRoundTrip(i);
    IntTextRoundTrip(j);
  }
}
