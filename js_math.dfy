/** `Math.floor` and `Math.round` on exact reals. */
module JsMath {

  /**
   * `Math.round(x)`: the nearest integer, halves rounded up (towards +∞).
   * It is `Math.floor(x + 0.5)`.
   */
  function Round(x: real): (r: int)
    ensures r as real - 0.5 <= x < r as real + 0.5
  {
    (x + 0.5).Floor
  }

  /** Rounding an integer gives it back. */
  lemma RoundInteger(k: int)
    ensures Round(k as real) == k
  {
  }

  /** Rounding is monotone. */
  lemma RoundMonotone(x: real, y: real)
    requires x <= y
    ensures Round(x) <= Round(y)
  {
  }
}
