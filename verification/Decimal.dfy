/** Canonical decimal text of an integer, as String(n) prints a safe integer. */
module Decimal {
  predicate IsDigit(c: char) {
    '0' <= c <= '9'
  }

  predicate AllDigits(s: string) {
    |s| > 0 && forall i :: 0 <= i < |s| ==> IsDigit(s[i])
  }

  function Digits(n: nat): (s: string)
    ensures AllDigits(s)
  {
    if n < 10 then ['0' + n as char] else Digits(n / 10) + ['0' + (n % 10) as char]
  }

  function Text(n: int): string {
    if n >= 0 then Digits(n) else "-" + Digits(-n)
  }

  function ValueOf(s: string): int {
    if |s| == 0 then 0 else ValueOf(s[..|s| - 1]) * 10 + (s[|s| - 1] as int - '0' as int)
  }

  lemma {:induction false} DigitsInvert(n: nat)
    ensures ValueOf(Digits(n)) == n
  {
    if n >= 10 {
      DigitsInvert(n / 10);
      assert Digits(n)[..|Digits(n)| - 1] == Digits(n / 10);
    } else {
      assert Digits(n)[..0] == "";
    }
  }

  /** Two integers never share their decimal text. */
  lemma TextInjective(m: int, n: int)
    ensures Text(m) == Text(n) <==> m == n
  {
    DigitsInvert(if m >= 0 then m else -m);
    DigitsInvert(if n >= 0 then n else -n);
    if Text(m) == Text(n) {
      assert m < 0 <==> Text(m)[0] == '-';
      assert n < 0 <==> Text(n)[0] == '-';
      assert m < 0 ==> Text(m)[1..] == Digits(-m);
      assert n < 0 ==> Text(n)[1..] == Digits(-n);
    }
  }
}
