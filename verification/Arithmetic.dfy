/** The range of a 32-bit unsigned integer, and facts about products and quotients. */
module Arithmetic {

  const UINT32_RANGE: nat := 0x1_0000_0000

  lemma MulAtLeast(a: int, n: int)
    requires a >= 1 && n >= 0
    ensures a * n >= n
  {
    assert a * n == (a - 1) * n + n;
    assert (a - 1) * n >= 0;
  }

  /** Quotient and remainder are determined by the decomposition. */
  lemma DivModUnique(x: int, n: int, q: int, r: int)
    requires n > 0 && 0 <= r < n && x == q * n + r
    ensures x / n == q && x % n == r
  {
    var q', r' := x / n, x % n;
    assert x == n * q' + r';
    assert (q - q') * n == r' - r by { assert (q - q') * n == q * n - q' * n; }
    if q > q' {
      MulAtLeast(q - q', n);
    } else if q < q' {
      MulAtLeast(q' - q, n);
    }
  }

  /** One wrap-around. */
  lemma WrapMod(i: nat, n: nat)
    requires 0 < n && i < 2 * n
    ensures i % n == if i < n then i else i - n
  {
    if i < n {
      DivModUnique(i, n, 0, i);
    } else {
      DivModUnique(i, n, 1, i - n);
    }
  }

  /** Counting up by one. */
  lemma DivModStep(k: nat, n: nat)
    requires 0 < n
    ensures (k + 1) / n == if k % n + 1 < n then k / n else k / n + 1
    ensures (k + 1) % n == if k % n + 1 < n then k % n + 1 else 0
  {
    var q, r := k / n, k % n;
    assert k == q * n + r;
    if r + 1 < n {
      DivModUnique(k + 1, n, q, r + 1);
    } else {
      assert (q + 1) * n == q * n + n;
      DivModUnique(k + 1, n, q + 1, 0);
    }
  }

  lemma MulNonNegative(a: nat, b: nat)
    ensures a * b >= 0
  {
  }

  /** The quotient of a number below `q * n` is below `q`. */
  lemma DivBelow(x: nat, q: nat, n: nat)
    requires 0 < n && x < q * n
    ensures x / n < q
  {
    var q' := x / n;
    assert x == n * q' + x % n;
    MulNonNegative(n, if q' >= q then q' - q else 0);
  }

  lemma MulStep(q: nat, n: nat)
    requires q > 0
    ensures q * n == (q - 1) * n + n
  {
  }
}
