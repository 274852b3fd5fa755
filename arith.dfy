/** Small facts about natural-number division used by the index arithmetic of the model. */
module Arith {

  function Min(a: int, b: int): (m: int)
    ensures m <= a && m <= b && (m == a || m == b)
  {
    if a <= b then a else b
  }

  /** Quotient and remainder of `q * d + r` are `q` and `r` when `r < d`. */
  lemma DivModOf(q: nat, r: nat, d: nat)
    requires r < d
    ensures (q * d + r) / d == q && (q * d + r) % d == r
  {
    var n := q * d + r;
    var q' := n / d;
    assert n == q' * d + n % d;
    if q' < q {
      MulMonotone(q' + 1, q, d);
      assert false;
    } else if q' > q {
      MulMonotone(q + 1, q', d);
      assert false;
    }
  }

  /** A number written as `q * d + r` with `r < d` has quotient `q` and remainder `r`. */
  lemma SplitAt(n: nat, r: nat, q: nat, d: nat)
    requires r < d && n == q * d + r
    ensures n % d == r && n / d == q
  {
    DivModOf(q, r, d);
  }

  /** A positive product has positive factors. */
  lemma PositiveFactors(a: nat, b: nat)
    requires 0 < a * b
    ensures 0 < a && 0 < b
  {
  }

  lemma MulPositive(a: nat, b: nat)
    requires 0 < a && 0 < b
    ensures 0 < a * b
  {
    MulMonotone(1, a, b);
  }

  lemma MulMonotone(a: nat, b: nat, c: nat)
    requires a <= b
    ensures a * c <= b * c
  {
  }

  lemma MulNonneg(a: nat, b: nat)
    ensures 0 <= a * b
  {
  }

  /** `j` copies of `w` added up: the product by repeated addition, one row at a time. */
  function Times(j: nat, w: nat): nat {
    if j == 0 then 0 else Times(j - 1, w) + w
  }

  lemma {:induction false} TimesIsMul(j: nat, w: nat)
    ensures Times(j, w) == j * w
  {
    if j > 0 {
      TimesIsMul(j - 1, w);
      MulSplit(j - 1, 1, w);
    }
  }

  /** The product of a span of `p - q + 1` chunks is the difference of the end products. */
  lemma MulSpan(p: nat, q: nat, c: nat)
    requires q <= p + 1
    ensures (p - q + 1) * c == (p + 1) * c - q * c
  {
  }

  /** `n` lies in the `d`-block its quotient names. */
  lemma InQuotientBlock(n: nat, d: nat)
    requires 0 < d
    ensures 0 <= n / d && (n / d) * d <= n < (n / d + 1) * d
  {
    assert n == (n / d) * d + n % d;
    MulSplit(n / d, 1, d);
  }

  lemma MulSplit(a: nat, b: nat, c: nat)
    ensures (a + b) * c == a * c + b * c && 0 <= a * c && 0 <= b * c
  {
  }

  /** Writing `n` as quotient and remainder by `d`; `n < k * d` bounds the quotient by `k`. */
  lemma QuotientBelow(n: nat, k: nat, d: nat)
    requires 0 < d && n < k * d
    ensures n / d < k
  {
    assert n == (n / d) * d + n % d;
    if n / d >= k {
      MulMonotone(k, n / d, d);
      assert false;
    }
  }

  /** Dividing a quantity at most `m * u` by `c * u` yields at most `m / c`. */
  lemma ScaledQuotientAtMost(a: nat, m: nat, c: nat, u: nat)
    requires 0 < c && 0 < u && a <= m * u
    ensures a / (c * u) <= m / c
  {
    var q := a / (c * u);
    InQuotientBlock(a, c * u);
    assert (q * c) * u == q * (c * u);
    MulSplit(m, 1, u);
    MulCancelLess(q * c, m + 1, u);
    QuotientAtLeast(q, c, m);
  }

  /** Dividing a quantity below `m * u` by `c * u` yields at most `(m - 1) / c`. */
  lemma ScaledQuotientBelow(a: nat, m: nat, c: nat, u: nat)
    requires 0 < c && 0 < u && a < m * u
    ensures 0 < m && a / (c * u) <= (m - 1) / c
  {
    var q := a / (c * u);
    InQuotientBlock(a, c * u);
    assert (q * c) * u == q * (c * u);
    MulCancelLess(q * c, m, u);
    QuotientAtLeast(q, c, m - 1);
  }

  /** Division is monotone in the dividend. */
  lemma DivMonotone(a: nat, b: nat, d: nat)
    requires 0 < d && a <= b
    ensures a / d <= b / d
  {
    assert a == (a / d) * d + a % d;
    assert b == (b / d) * d + b % d;
    if a / d > b / d {
      MulMonotone(b / d + 1, a / d, d);
      assert false;
    }
  }

  /** Adding one to the dividend raises the quotient by at most one. */
  lemma DivSucc(a: nat, c: nat)
    requires 0 < c
    ensures (a + 1) / c <= a / c + 1
  {
    var q, r := a / c, a % c;
    assert a == q * c + r;
    if r + 1 < c {
      DivModOf(q, r + 1, c);
    } else {
      assert a + 1 == (q + 1) * c + 0;
      DivModOf(q + 1, 0, c);
    }
  }

  /** A multiple `n * d` that fits in `a` bounds `n` by the quotient `a / d`. */
  lemma QuotientAtLeast(n: nat, d: nat, a: nat)
    requires 0 < d && n * d <= a
    ensures n <= a / d
  {
    assert a == (a / d) * d + a % d;
    if n > a / d {
      MulMonotone(a / d + 1, n, d);
      assert false;
    }
  }

  /** A strict inequality between multiples of the same `u` holds between the factors. */
  lemma MulCancelLess(a: nat, b: nat, u: nat)
    requires a * u < b * u
    ensures a < b
  {
    if a >= b {
      MulMonotone(b, a, u);
    }
  }
}
