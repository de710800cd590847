/** Facts about Euclidean quotient and remainder, used wherever an index
    wraps around a list. */
module Arith {

  /** A positive multiple of `n` is at least `n`. */
  lemma MultipleAtLeast(d: int, n: int)
    requires d >= 1 && n > 0
    ensures d * n >= n
  {
    var k := d - 1;
    assert d * n == k * n + n;
  }

  /** Quotient and remainder are determined by `a == q * n + r, 0 <= r < n`. */
  lemma DivModUnique(a: int, n: int, q: int, r: int)
    requires n > 0 && 0 <= r < n && a == q * n + r
    ensures a / n == q && a % n == r
  {
    var q', r' := a / n, a % n;
    assert a == q' * n + r' && 0 <= r' < n;
    if q > q' {
      assert (q - q') * n == r' - r;
      MultipleAtLeast(q - q', n);
      assert false;
    } else if q < q' {
      assert (q' - q) * n == r - r';
      MultipleAtLeast(q' - q, n);
      assert false;
    }
  }

  /** How quotient and remainder move from m to m + 1. */
  lemma DivModSuccessor(m: nat, n: nat)
    requires n > 0
    ensures m % n == n - 1 ==> (m + 1) / n == m / n + 1 && (m + 1) % n == 0
    ensures m % n < n - 1 ==> (m + 1) / n == m / n && (m + 1) % n == m % n + 1
  {
    var q, r := m / n, m % n;
    assert m == q * n + r && 0 <= r < n;
    if r == n - 1 {
      assert m + 1 == (q + 1) * n + 0;
      DivModUnique(m + 1, n, q + 1, 0);
    } else {
      DivModUnique(m + 1, n, q, r + 1);
    }
  }
}
