/**
  Facts about products and quotients of reals that the cost proofs use.
  Each is proved once here, in a context of its own, so that the proofs
  about bills only combine them linearly.
 */
module RealArith {

  lemma MulNonNegative(x: real, y: real)
    requires 0.0 <= x && 0.0 <= y
    ensures 0.0 <= x * y
  {
  }

  lemma MulNegative(x: real, y: real)
    requires x < 0.0 && 0.0 < y
    ensures x * y < 0.0 && y * x < 0.0
  {
  }

  lemma ZeroProduct(x: real, y: real)
    ensures x == 0.0 ==> x * y == 0.0 && y * x == 0.0
  {
  }

  /** Multiplication distributes over a sum, with the second product written either way round. */
  lemma MulAddDistributes(c: real, a: real, b: real)
    ensures c * (a + b) == c * a + b * c
  {
  }

  /** Multiplying by a non-negative factor keeps the order. */
  lemma MulMonotone(c: real, a: real, b: real)
    requires 0.0 <= c && a <= b
    ensures c * a <= c * b && a * c <= b * c
  {
    MulNonNegative(c, b - a);
    assert c * b - c * a == c * (b - a);
  }

  /** Multiplying by a positive factor keeps the strict order. */
  lemma MulStrictlyMonotone(c: real, a: real, b: real)
    requires 0.0 < c && a < b
    ensures c * a < c * b && a * c < b * c
  {
    MulNegative(a - b, c);
    assert a * c - b * c == (a - b) * c;
  }

  /** Dividing and multiplying back by a non-zero divisor gives the dividend. */
  lemma DivMul(x: real, p: real)
    requires p != 0.0
    ensures (x / p) * p == x
  {
  }

  /** An `m`-in-`p` share of `x`, taken as `x / p * m`, multiplied back by `p`. */
  lemma ShareTimesWhole(x: real, p: real, m: real)
    requires p != 0.0
    ensures ((x / p) * m) * p == x * m
  {
    DivMul(x, p);
    assert ((x / p) * m) * p == ((x / p) * p) * m;
  }

  /** An `m`-in-`p` share of a non-negative `x` lies between 0 and `x`. */
  lemma ShareWithin(x: real, p: real, m: real)
    requires 0.0 <= x && 0.0 < p && 0.0 <= m <= p
    ensures 0.0 <= (x / p) * m <= x
  {
    var q := x / p;
    DivMul(x, p);
    assert 0.0 <= q by {
      if q < 0.0 {
        MulNegative(q, p);
      }
    }
    MulNonNegative(q, m);
    MulMonotone(q, m, p);
  }

  /** A number at or above the quotient `q` of `total` by `n` covers `total` when multiplied back. */
  lemma AboveQuotientCovers(total: real, n: real, q: real, c: real)
    requires n > 0.0 && q * n == total
    requires q <= c
    ensures c * n >= total
  {
    MulMonotone(n, q, c);
  }

  /** A number less than one above the quotient covers `total` no more once lowered by one. */
  lemma BelowNextQuotientFallsShort(total: real, n: real, q: real, c: real)
    requires n > 0.0 && q * n == total
    requires c < q + 1.0
    ensures (c - 1.0) * n < total
  {
    MulStrictlyMonotone(n, c - 1.0, q);
  }
}
