/** Decimal digits, read and written. */
module Numerals {
  predicate Digit(c: char) { '0' <= c <= '9' }

  predicate AllDigits(s: string) { forall i :: 0 <= i < |s| ==> Digit(s[i]) }

  /** How many digits a text starts with. */
  function Digits(s: string): (n: nat)
    ensures n <= |s| && AllDigits(s[..n]) && (n < |s| ==> !Digit(s[n]))
  {
    if |s| == 0 || !Digit(s[0]) then 0
    else
      var n := Digits(s[1..]);
      assert forall i :: 1 <= i <= n ==> s[i] == s[1..][..n][i - 1];
      n + 1
  }

  lemma {:induction false} DigitsAre(s: string, n: nat)
    requires n <= |s| && (forall j :: 0 <= j < n ==> Digit(s[j])) && (n < |s| ==> !Digit(s[n]))
    ensures Digits(s) == n
    decreases |s|
  {
    if n > 0 { DigitsAre(s[1..], n - 1); }
  }

  function Value(digits: string): nat
    requires AllDigits(digits)
  {
    if |digits| == 0 then 0 else Value(digits[..|digits| - 1]) * 10 + (digits[|digits| - 1] as int - '0' as int)
  }

  lemma DigitsThen(digits: string, t: string)
    requires AllDigits(digits) && t != "" && !Digit(t[0])
    ensures Digits(digits + t) == |digits| && (digits + t)[..|digits|] == digits && (digits + t)[|digits|..] == t
  {
    DigitsAre(digits + t, |digits|);
  }

  /** %d of a number. */
  function Decimal(n: nat): (s: string)
    ensures s != "" && AllDigits(s) && Value(s) == n
    ensures s[0] == '0' ==> s == "0"
  {
    var last := [('0' as int + n % 10) as char];
    if n < 10 then last
    else
      var s := Decimal(n / 10) + last;
      assert s[..|s| - 1] == Decimal(n / 10);
      s
  }
}
