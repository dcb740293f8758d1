/** Integer arithmetic shared by the other modules. */
module Arithmetic {
  function Min(a: int, b: int): int { if a < b then a else b }

  function Max(a: int, b: int): int { if a < b then b else a }

  lemma {:induction false} MulMonotone(a: nat, x: nat, y: nat)
    requires x <= y
    ensures a * x <= a * y
    decreases y - x
  {
    if x < y {
      MulSucc(a, x);
      MulMonotone(a, x + 1, y);
    }
  }

  /** A quotient is the number of times the divisor fits. */
  lemma DivBound(a: nat, d: nat)
    requires 0 < d
    ensures 0 <= a / d && a < (a / d + 1) * d
  {
    assert a == a / d * d + a % d;
    MulSucc(d, a / d);
  }

  lemma MulSucc(a: nat, x: nat)
    ensures a * (x + 1) == a * x + a
  {
  }
}
