/** Numbers written in decimal, as they appear in file names and account labels. */
module Decimal {
  function Digit(d: nat): char
    requires d < 10
  {
    "0123456789"[d]
  }

  function Dec(n: nat): (s: string)
    ensures |s| >= 1 && (|s| == 1 <==> n < 10)
  {
    if n < 10 then [Digit(n)] else Dec(n / 10) + [Digit(n % 10)]
  }

  lemma {:induction false} DecInjective(m: nat, n: nat)
    requires Dec(m) == Dec(n)
    ensures m == n
  {
    var s, t := Dec(m), Dec(n);
    assert s[|s| - 1] == Digit(m % 10) && t[|t| - 1] == Digit(n % 10);
    if m >= 10 {
      assert s[..|s| - 1] == Dec(m / 10) && t[..|t| - 1] == Dec(n / 10);
      DecInjective(m / 10, n / 10);
    }
  }
}
