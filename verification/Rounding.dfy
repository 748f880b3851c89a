/** Decimal.quantize(0.01, ROUND_HALF_UP) on exact values; the result counts cents. */
module Rounding {
  /** Round half away from zero. */
  function HalfUp(x: real): int {
    if x >= 0.0 then (x + 0.5).Floor else -((-x + 0.5).Floor)
  }

  function QMoney(value: real): int { HalfUp(value * 100.0) }

  /** The result is a nearest integer; a tie goes away from zero; no other integer qualifies. */
  lemma HalfUpIsNearest(x: real, m: int)
    ensures m == HalfUp(x) <==>
      if x >= 0.0 then m as real - 0.5 <= x < m as real + 0.5 else m as real - 0.5 < x <= m as real + 0.5
  {
  }
}
