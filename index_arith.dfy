/** Mixed-radix indices: a row-major layout turns a pair of indices (a, b)
    with b < m into the single index a * m + b. */
module IndexArith {

  /** The index a * m + b of digit pair (a, b) in radix m; its digits are
      recovered by division and remainder. */
  function Join(a: nat, b: nat, m: nat): (k: nat)
    requires b < m
    ensures k / m == a && k % m == b
  {
    var am: nat := a * m;
    DivModOfMulAdd(a, b, m);
    am + b
  }

  lemma MulMonotone(a: nat, n: nat, m: nat)
    requires a <= n
    ensures a * m <= n * m
  {
  }

  lemma DivModOfMulAdd(a: nat, b: nat, m: nat)
    requires b < m
    ensures (a * m + b) / m == a
    ensures (a * m + b) % m == b
  {
    var k := a * m + b;
    var q, s := k / m, k % m;
    assert k == q * m + s && 0 <= s < m;
    if q > a {
      MulMonotone(a + 1, q, m);
      assert false;
    } else if q < a {
      MulMonotone(q + 1, a, m);
      assert false;
    }
  }

  /** Digits in range give an index in range. */
  lemma JoinBound(a: nat, b: nat, n: nat, m: nat)
    requires a < n && b < m
    ensures Join(a, b, m) < n * m
  {
    MulMonotone(a + 1, n, m);
  }

  /** Every index is the join of its quotient and remainder. */
  lemma JoinSplit(k: nat, m: nat)
    requires m > 0
    ensures Join(k / m, k % m, m) == k
  {
  }

  /** A product that exceeds some natural number has no zero factor. */
  lemma PositiveFactors(k: nat, n: nat, m: nat)
    requires k < n * m
    ensures n > 0 && m > 0
  {
  }

  /** An index below n * m has its leading digit below n. */
  lemma DivBound(k: nat, n: nat, m: nat)
    requires k < n * m
    ensures m > 0 && k / m < n
  {
    PositiveFactors(k, n, m);
    if k / m >= n {
      MulMonotone(n, k / m, m);
      assert false;
    }
  }

  /** Joining step by step is the same as joining with the product radix:
      (r * p + col) * c + ch == r * (p * c) + (col * c + ch). */
  lemma JoinAssoc(r: nat, col: nat, ch: nat, p: nat, c: nat)
    requires col < p && ch < c
    ensures Join(col, ch, c) < p * c
    ensures Join(r, Join(col, ch, c), p * c) == Join(Join(r, col, p), ch, c)
  {
    JoinBound(col, ch, p, c);
    assert r * (p * c) == (r * p) * c;
  }

  /** Cell g of size p along an axis of the given extent, where g is below
      the number of whole cells, lies inside the axis. */
  lemma CellInBounds(g: nat, p: nat, extent: nat)
    requires p >= 1 && g < extent / p
    ensures Join(g, 0, p) + p <= extent
  {
    JoinBound(g, 0, extent / p, p);
    MulMonotone(g + 1, extent / p, p);
  }

  /** A product of positive factors is positive. */
  lemma MulPositive(a: nat, b: nat)
    requires a >= 1 && b >= 1
    ensures a * b >= 1
  {
    MulMonotone(1, a, b);
  }

  /** Multiplication regroups. */
  lemma MulAssoc(a: nat, b: nat, c: nat)
    ensures a * (b * c) == a * b * c
  {
  }
}
