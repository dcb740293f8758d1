/** Decimal notation of natural numbers, as `str(n)` writes it. */
module Decimal {
  function Digit(d: nat): char
    requires d < 10
  {
    "0123456789"[d]
  }

  function ToString(n: nat): (s: string)
    ensures s != ""
  {
    if n < 10 then [Digit(n)] else ToString(n / 10) + [Digit(n % 10)]
  }

  lemma {:induction false} ToStringIsInjective(m: nat, n: nat)
    requires ToString(m) == ToString(n)
    ensures m == n
    decreases m
  {
    var s := ToString(m);
    if 10 <= m && 10 <= n {
      assert ToString(m / 10) == s[..|s| - 1] == ToString(n / 10);
      assert Digit(m % 10) == s[|s| - 1] == Digit(n % 10);
      ToStringIsInjective(m / 10, n / 10);
    } else {
      LengthTellsSmall(m);
      LengthTellsSmall(n);
      assert s[|s| - 1] == Digit(m % 10) == Digit(n % 10);
    }
  }

  lemma LengthTellsSmall(n: nat)
    ensures n < 10 <==> |ToString(n)| == 1
  {
  }
}
