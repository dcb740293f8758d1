/** Python's `round` on exact numbers: to the nearest integer, ties to the even one. */
module Rounding {
  function RoundHalfEven(x: real): (r: int)
    ensures -0.5 <= r as real - x <= 0.5
    ensures (r as real - x == 0.5 || r as real - x == -0.5) ==> r % 2 == 0
  {
    var f := x.Floor;
    var rest := x - f as real;
    if rest < 0.5 || (rest == 0.5 && f % 2 == 0) then f else f + 1
  }

  lemma RoundIsMonotone(x: real, y: real)
    requires x <= y
    ensures RoundHalfEven(x) <= RoundHalfEven(y)
  {
    assert RoundHalfEven(y) < RoundHalfEven(x) ==> x == y;
  }

  /** Rounding turns an increase below n into an increase of at most n. */
  lemma RoundGrowsSlowly(x: real, y: real, n: int)
    requires y < x + n as real
    ensures RoundHalfEven(y) <= RoundHalfEven(x) + n
  {
  }
}
