/** Facts about Euclidean division by a positive divisor, shared by the
    modules that pick a device by rank or a k-cycle level by index. */
module Arithmetic {

  /** A nonzero multiple of a positive `n` is at least `n` away from zero. */
  lemma NonzeroMultiple(z: int, n: int)
    requires 0 < n
    ensures z >= 1 ==> z * n >= n
    ensures z <= -1 ==> z * n <= -n
  {
    if z >= 1 {
      assert z * n == n + (z - 1) * n;
    } else if z <= -1 {
      assert z * n == -n + (z + 1) * n;
    }
  }

  /** The remainder is the unique `m` in `[0, n)` with `a == q * n + m`. */
  lemma ModuloUnique(a: int, q: int, m: int, n: int)
    requires 0 < n && 0 <= m < n && a == q * n + m
    ensures a % n == m
  {
    assert (q - a / n) * n == a % n - m;
    NonzeroMultiple(q - a / n, n);
  }

  /** The quotient is the unique `q` with `a == q * n + m` for `m` in `[0, n)`. */
  lemma DivUnique(a: int, q: int, m: int, n: int)
    requires 0 < n && 0 <= m < n && a == q * n + m
    ensures a / n == q && a % n == m
  {
    ModuloUnique(a, q, m, n);
    assert (q - a / n) * n == 0;
    NonzeroMultiple(q - a / n, n);
  }
}
