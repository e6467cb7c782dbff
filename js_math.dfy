/**
 * JavaScript's `Math.round`, and the "round to hundredths" idiom
 * `Math.round(x * 100) / 100`, on exact real numbers.
 */
module JsMath {

  /** `Math.round(x)`: the nearest integer, with halves rounded up (toward +infinity). */
  function Round(x: real): (n: int)
    ensures n as real - 0.5 <= x < n as real + 0.5
  {
    (x + 0.5).Floor
  }

  /** The nearest integer is unique: any `n` within the half-open window around `x` is `Round(x)`. */
  lemma RoundUnique(x: real, n: int)
    requires n as real - 0.5 <= x < n as real + 0.5
    ensures Round(x) == n
  {
  }

  /** `r` is a whole number of hundredths. */
  ghost predicate IsCents(r: real) {
    (r * 100.0).Floor as real == r * 100.0
  }

  /** `Math.round(x * 100) / 100`: `x` rounded to two decimal places, halves up. */
  function Round2(x: real): (r: real)
    ensures IsCents(r)
    ensures x - 0.005 < r <= x + 0.005
  {
    Round(x * 100.0) as real / 100.0
  }

  /** Rounding to hundredths is determined by its two properties: any whole number of
      hundredths in the window `(x - 0.005, x + 0.005]` is `Round2(x)`. */
  lemma Round2Unique(x: real, n: int)
    requires x - 0.005 < n as real / 100.0 <= x + 0.005
    ensures Round2(x) == n as real / 100.0
  {
    RoundUnique(x * 100.0, n);
  }

  /** The source compares rounded ratios with `< 33`: a rounded ratio is below 33
      exactly when the unrounded one is below 32.995, so 32.996 fails the test. */
  lemma Round2Below(x: real, bound: int)
    ensures Round2(x) < bound as real <==> x < bound as real - 0.005
  {
    var n := Round(x * 100.0);
    if Round2(x) < bound as real {
      assert n < bound * 100;
    } else {
      assert n >= bound * 100;
    }
  }
}
