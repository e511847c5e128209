/** Integer operations of the source's Rust arithmetic and the facts about
    Euclidean `%` that the cursor proofs rest on. */
module Arith {

  /** Rust's `%` on signed integers: the remainder keeps the sign of the
      dividend, is smaller than the divisor in magnitude, and leaves a
      dividend already below the divisor as it is. */
  function TruncRem(a: int, b: int): (r: int)
    requires b > 0
    ensures -b < r < b
    ensures a >= 0 ==> r >= 0
    ensures a <= 0 ==> r <= 0
    ensures 0 <= a < b ==> r == a
  {
    if a >= 0 then
      (if a < b then ModUnique(a, 0, a, b); a % b else a % b)
    else -((-a) % b)
  }

  /** `i32::abs`. */
  function Abs(a: int): (r: nat)
    ensures r == a || r == -a
  {
    if a < 0 then -a else a
  }

  /** `(v as f32 / 2.0) as i32`: half of `v`, truncated toward zero (exact
      for the magnitudes of window and image sizes). */
  function Half(v: int): (r: int)
    ensures v >= 0 ==> 0 <= v - 2 * r <= 1
    ensures v <= 0 ==> 0 <= 2 * r - v <= 1
  {
    if v >= 0 then v / 2 else -((-v) / 2)
  }

  /** Euclidean division is determined by its defining equation. */
  lemma ModUnique(x: int, q: int, r: int, n: int)
    requires n > 0 && 0 <= r < n && x == q * n + r
    ensures x % n == r && x / n == q
  {
    var a, b := x / n, x % n;
    assert x == a * n + b;
    var d := a - q;
    assert d * n == r - b;
  }

  /** Adding a multiple of `n` does not change the residue. */
  lemma ModMultiple(y: int, q: int, n: int)
    requires n > 0
    ensures (y + q * n) % n == y % n
  {
    assert y == (y / n) * n + y % n;
    assert y + q * n == (y / n + q) * n + y % n;
    ModUnique(y + q * n, y / n + q, y % n, n);
  }

  /** Reducing modulo `n` before adding `d` does not change the residue. */
  lemma ModAdd(x: int, d: int, n: int)
    requires n > 0
    ensures (x % n + d) % n == (x + d) % n
  {
    var q := x / n;
    assert x == q * n + x % n;
    assert x + d == (x % n + d) + q * n;
    ModMultiple(x % n + d, q, n);
  }
}
