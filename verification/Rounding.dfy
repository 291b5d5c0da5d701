/** Math.round, round(value, 4) and clamp over the reals. */
module Rounding {

  function Clamp(low: real, value: real, high: real): (r: real)
    ensures low <= high ==> low <= r <= high
    ensures low <= value <= high ==> r == value
    ensures low <= high && value < low ==> r == low
    ensures low <= high && value > high ==> r == high
  {
    var m := if value <= high then value else high;
    if low >= m then low else m
  }

  /** Math.round: halves go up. */
  function Round(x: real): (n: int)
    ensures n as real - 0.5 <= x < n as real + 0.5
  {
    (x + 0.5).Floor
  }

  /** round(x, 4) */
  function Round4(x: real): (r: real)
    ensures 0.0 <= x ==> 0.0 <= r
    ensures x <= 1.0 ==> r <= 1.0
    ensures r - 0.00005 <= x < r + 0.00005
  {
    Round(x * 10000.0) as real / 10000.0
  }

  lemma ClampMonotone(low: real, x: real, y: real, high: real)
    requires low <= high && x <= y
    ensures Clamp(low, x, high) <= Clamp(low, y, high)
  {
  }

  lemma RoundMonotone(x: real, y: real)
    requires x <= y
    ensures Round(x) <= Round(y)
  {
  }

  lemma RoundInteger(n: int)
    ensures Round(n as real) == n
  {
  }

  lemma RoundPercent(x: real)
    requires 0.0 <= x <= 1.0
    ensures 0 <= Round(x * 100.0) <= 100
  {
  }
}
