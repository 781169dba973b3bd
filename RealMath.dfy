/**
 * Real-number facts shared by the feature computations.
 *
 * The source works on IEEE doubles; the model uses exact `real` arithmetic.
 * The C library `sqrt` is passed around as a function value `sqrt` that is
 * only known to satisfy `IsSqrt`: on non-negative arguments it returns the
 * non-negative square root.
 */
module RealMath {

  /** The value of `M_PI` in the C math header. */
  const Pi: real := 3.14159265358979323846

  function Max(x: real, y: real): (r: real)
    ensures r >= x && r >= y && (r == x || r == y)
  {
    if x >= y then x else y
  }

  function Min(x: real, y: real): (r: real)
    ensures r <= x && r <= y && (r == x || r == y)
  {
    if x <= y then x else y
  }

  /** `sqrt` agrees with the square root on every non-negative argument. */
  ghost predicate IsSqrt(sqrt: real -> real)
  {
    forall x :: 0.0 <= x ==> 0.0 <= sqrt(x) && sqrt(x) * sqrt(x) == x
  }

  /** A non-negative product with a positive factor has a non-negative other factor. */
  lemma NonNegativeFactor(p: real, q: real)
    requires 0.0 < q && 0.0 <= p * q
    ensures 0.0 <= p
  {
  }

  /** Two non-negative roots are ordered as their squares are. */
  lemma RootsOrdered(u: real, v: real)
    requires 0.0 <= u && 0.0 <= v && u * u <= v * v
    ensures u <= v
  {
    assert (v - u) * (v + u) == v * v - u * u;
    if 0.0 < v + u {
      NonNegativeFactor(v - u, v + u);
    }
  }

  /** The square root is monotone on the non-negative reals. */
  lemma SqrtMonotone(sqrt: real -> real, x: real, y: real)
    requires IsSqrt(sqrt)
    requires 0.0 <= x <= y
    ensures sqrt(x) <= sqrt(y)
  {
    RootsOrdered(sqrt(x), sqrt(y));
  }

  /** The square root of a square of a non-negative number is that number. */
  lemma SqrtOfSquare(sqrt: real -> real, x: real)
    requires IsSqrt(sqrt)
    requires 0.0 <= x
    ensures sqrt(x * x) == x
  {
    var s := sqrt(x * x);
    assert 0.0 <= s && s * s == x * x;
    RootsOrdered(s, x);
    RootsOrdered(x, s);
  }

  /** A quotient by a positive number has the sign of its numerator. */
  lemma QuotientSign(p: real, q: real)
    requires 0.0 < q
    ensures p / q == 0.0 <==> p == 0.0
    ensures p / q > 0.0 <==> p > 0.0
  {
    assert (p / q) * q == p;
  }

  /** A quotient by a non-zero number is zero exactly when its numerator is, and by a positive one has the sign of the numerator. */
  lemma QuotientByNonZero(p: real, q: real)
    requires q != 0.0
    ensures p / q == 0.0 <==> p == 0.0
    ensures 0.0 < q ==> (p / q > 0.0 <==> p > 0.0)
  {
    QuotientEquals(p, q, 0.0);
    if 0.0 < q {
      QuotientSign(p, q);
    }
  }

  /** A quotient by a positive number is at most 1 in size when its numerator is. */
  lemma QuotientWithinUnit(p: real, q: real)
    requires 0.0 < q && -q <= p <= q
    ensures -1.0 <= p / q <= 1.0
  {
    assert (p / q) * q == p;
  }

  /** A quotient by a positive number is 1 exactly when the numerator equals it. */
  lemma QuotientIsOne(p: real, q: real)
    requires 0.0 < q
    ensures p / q == 1.0 <==> p == q
  {
    assert (p / q) * q == p;
  }

  /** A quotient by a non-zero number is `r` exactly when the numerator is `r` times the divisor. */
  lemma QuotientEquals(p: real, q: real, r: real)
    requires q != 0.0
    ensures p / q == r <==> p == r * q
  {
    assert (p / q) * q == p;
  }

  /** The square `y` of a non-zero number is not zero: dividing it by the number gives the number back. */
  lemma SquareNonZero(x: real, y: real)
    requires x != 0.0 && y == x * x
    ensures y != 0.0
  {
    QuotientEquals(y, x, x);
    QuotientEquals(0.0, x, 0.0);
  }

  /** The fourth power `w` of a non-zero number is positive. */
  lemma FourthPowerPositive(x: real, w: real)
    requires x != 0.0 && w == x * x * x * x
    ensures 0.0 < w
  {
    var y := x * x;
    SquareNonZero(x, y);
    var z := y * y;
    SquareNonZero(y, z);
    assert w == z;
  }

  /** A sum of two squares is zero exactly when both numbers are. */
  lemma SumOfSquaresZero(x: real, y: real)
    ensures x * x + y * y == 0.0 <==> x == 0.0 && y == 0.0
  {
    if x != 0.0 {
      SquareNonZero(x, x * x);
    }
    if y != 0.0 {
      SquareNonZero(y, y * y);
    }
  }

  /** The square root vanishes exactly at zero. */
  lemma SqrtZeroIff(sqrt: real -> real, x: real)
    requires IsSqrt(sqrt)
    requires 0.0 <= x
    ensures sqrt(x) == 0.0 <==> x == 0.0
  {
    SqrtOfSquare(sqrt, 0.0);
  }
}
