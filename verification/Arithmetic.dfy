/** Powers of two, and quotients and remainders that determine each other. */
module Arithmetic {
  function Pow2(k: nat): (n: nat)
    ensures n > 0
  {
    if k == 0 then 1 else 2 * Pow2(k - 1)
  }

  lemma MulNonNegative(m: int, d: int)
    requires m >= 0 && d >= 0
    ensures m * d >= 0
  {
  }

  /** A non-zero multiple of m is at least m away from zero. */
  lemma MultipleIsFar(m: int, d: int)
    requires m > 0
    ensures d >= 1 ==> m * d >= m
    ensures d <= -1 ==> m * d <= -m
  {
    if d >= 1 {
      MulNonNegative(m, d - 1);
      assert m * d == m + m * (d - 1);
    } else if d <= -1 {
      MulNonNegative(m, -d - 1);
      assert m * d == -m - m * (-d - 1);
    }
  }

  lemma ModUnique(i: int, m: int, q: int, r: int)
    requires m > 0 && 0 <= r < m && i == m * q + r
    ensures i % m == r && i / m == q
  {
    var q', r' := i / m, i % m;
    DivMod(i, m);
    assert m * (q - q') == m * q - m * q';
    MultipleIsFar(m, q - q');
  }

  lemma DivMod(i: int, m: int)
    requires m > 0
    ensures i == m * (i / m) + i % m && 0 <= i % m < m
  {
  }
}
