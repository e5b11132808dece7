/** Decimal text of natural numbers, as the script renders hours and days of the month. */
module Decimal {

  predicate IsDigit(c: char) {
    '0' <= c <= '9'
  }

  predicate AllDigits(s: string) {
    forall i :: 0 <= i < |s| ==> IsDigit(s[i])
  }

  /** The number a string of decimal digits denotes; leading zeros are allowed. */
  function ValueOf(s: string): nat
    requires AllDigits(s)
  {
    if s == [] then 0 else ValueOf(s[..|s| - 1]) * 10 + (s[|s| - 1] as int - '0' as int)
  }

  /** `s` is a digit string that denotes `n`. */
  predicate Denotes(s: string, n: nat) {
    AllDigits(s) && ValueOf(s) == n
  }

  function DigitChar(d: nat): (c: char)
    requires d < 10
    ensures IsDigit(c) && c as int - '0' as int == d
  {
    ('0' as int + d) as char
  }

  /** Python's `str(n)` for a non-negative integer: the shortest decimal text of `n`. */
  function Show(n: nat): (s: string)
    ensures 1 <= |s| && Denotes(s, n)
    ensures s[0] == '0' <==> n == 0
    ensures |s| == 1 <==> n < 10
    ensures |s| == 2 <==> 10 <= n < 100
  {
    if n < 10 then
      [DigitChar(n)]
    else
      var init := Show(n / 10);
      var s := init + [DigitChar(n % 10)];
      assert s[..|s| - 1] == init;
      s
  }

  /** The expression `str(x) if x >= 10 else f'0{x}'`: two-digit zero padding. */
  function PadTwo(x: nat): (s: string)
    ensures Denotes(s, x)
    ensures |s| == 2 <==> x < 100
    ensures x < 10 <==> s[0] == '0'
  {
    if x >= 10 then
      Show(x)
    else
      var s := "0" + Show(x);
      assert s[..1] == "0";
      s
  }
}
