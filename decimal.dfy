/**
 * Decimal text of integers, as JavaScript's `String(n)` writes it and
 * `Number(s)` reads it back. The table turns page numbers and page sizes
 * into option labels and query-string values this way.
 */
module Decimal {

  predicate IsDigit(c: char) {
    '0' <= c <= '9'
  }

  predicate IsDigits(s: string) {
    forall i | 0 <= i < |s| :: IsDigit(s[i])
  }

  /** An optional minus sign followed by at least one digit. */
  predicate IsIntLiteral(s: string) {
    (|s| > 0 && IsDigits(s)) || (|s| > 1 && s[0] == '-' && IsDigits(s[1..]))
  }

  function DigitChar(d: nat): (c: char)
    requires d < 10
    ensures IsDigit(c) && c as int - '0' as int == d
  {
    ('0' as int + d) as char
  }

  /** `String(n)` for a non-negative integer: its digits, without leading zeros. */
  function NatString(n: nat): (s: string)
    ensures |s| > 0 && IsDigits(s)
    ensures s[0] == '0' ==> n == 0
    decreases n
  {
    if n < 10 then [DigitChar(n)] else NatString(n / 10) + [DigitChar(n % 10)]
  }

  /** `Number(s)` for a string of decimal digits (leading zeros are allowed). */
  function DigitsValue(s: string): nat
    requires IsDigits(s)
  {
    if s == [] then 0
    else DigitsValue(s[..|s| - 1]) * 10 + (s[|s| - 1] as int - '0' as int)
  }

  /** `String(n)` for any integer. */
  function IntString(n: int): (s: string)
    ensures IsIntLiteral(s)
    ensures s[0] == '-' <==> n < 0
  {
    if n < 0 then "-" + NatString(-n) else NatString(n)
  }

  /** `Number(s)` for an integer literal. */
  function IntLiteralValue(s: string): (v: int)
    requires IsIntLiteral(s)
    ensures v < 0 ==> s[0] == '-'
    ensures s[0] == '-' ==> v <= 0
  {
    if s[0] == '-' then -(DigitsValue(s[1..]) as int) else DigitsValue(s)
  }

  /** Reading back the digits of `n` gives `n`. */
  lemma {:induction false} NatStringRoundTrip(n: nat)
    ensures DigitsValue(NatString(n)) == n
  {
    if n >= 10 {
      var prefix := NatString(n / 10);
      var s := NatString(n);
      assert s == prefix + [DigitChar(n % 10)];
      assert s[..|s| - 1] == prefix;
      NatStringRoundTrip(n / 10);
    }
  }

  /** Different numbers are written differently. */
  lemma NatStringInjective(m: nat, n: nat)
    requires NatString(m) == NatString(n)
    ensures m == n
  {
    NatStringRoundTrip(m);
    NatStringRoundTrip(n);
  }

  /** `Number(String(n)) == n` for every integer. */
  lemma IntStringRoundTrip(n: int)
    ensures IntLiteralValue(IntString(n)) == n
  {
    if n < 0 {
      var s := IntString(n);
      assert s[1..] == NatString(-n);
      NatStringRoundTrip(-n);
    } else {
      NatStringRoundTrip(n);
    }
  }
}
