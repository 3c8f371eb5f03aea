/** Facts about integer multiples and Euclidean remainders used by the window and playback proofs. */
module Arithmetic {
  /** No multiple of `n` lies strictly between 0 and `n`. */
  lemma MultipleOutside(q: int, n: int)
    requires n > 0
    ensures q * n <= 0 || q * n >= n
  {
    if q >= 1 {
      assert q * n == (q - 1) * n + n;
    }
  }

  /** Adding whole multiples of `n` does not change the Euclidean remainder. */
  lemma ModShift(y: int, q: int, n: int)
    requires n > 0
    ensures (y + q * n) % n == y % n
  {
    assert y + q * n == (y / n + q) * n + y % n;
    ModUnique(y + q * n, y / n + q, y % n, n);
  }

  /** The remainder is the unique `r` in `[0, n)` with `x == m * n + r`. */
  lemma ModUnique(x: int, m: int, r: int, n: int)
    requires n > 0 && 0 <= r < n && x == m * n + r
    ensures x % n == r
  {
    var d := m - x / n;
    assert d * n == x % n - r;
    MultipleOutside(d, n);
    MultipleOutside(-d, n);
    assert (-d) * n == -(d * n);
  }
}
