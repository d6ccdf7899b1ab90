/** Two-dimensional real vectors (the rows of the numpy position and velocity
    buffers) and the Euclidean norm, which enters as a parameter. */
module Vectors {

  datatype Vec = Vec(x: real, y: real) {
    function Plus(o: Vec): Vec { Vec(x + o.x, y + o.y) }
    function Times(c: real): Vec { Vec(c * x, c * y) }
    function Dot(o: Vec): real { x * o.x + y * o.y }
  }

  const Zero := Vec(0.0, 0.0)

  /** The type of `np.linalg.norm` applied to one row. */
  type NormFn = Vec -> real

  /** What the model relies on about `np.linalg.norm`: it is non-negative and
      its square is the sum of the squared components. */
  ghost predicate IsEuclideanNorm(norm: NormFn) {
    forall u :: norm(u) >= 0.0 && norm(u) * norm(u) == u.Dot(u)
  }

  function Abs(c: real): real { if c < 0.0 then -c else c }

  /* Sign facts are stated for a product `a * b` of two named reals, so
     that one lemma serves squares and mixed products alike. */

  lemma ProductPositive(a: real, b: real, p: real)
    requires a > 0.0 && b > 0.0 && p == a * b
    ensures p > 0.0
  {
  }

  /** Two non-negative reals with the same square are equal. */
  lemma SquareRootUnique(p: real, q: real)
    requires p >= 0.0 && q >= 0.0 && p * p == q * q
    ensures p == q
  {
    if p < q {
      SquareStrictlyMonotone(p, q);
    } else if q < p {
      SquareStrictlyMonotone(q, p);
    }
  }

  lemma SquareStrictlyMonotone(a: real, b: real)
    requires 0.0 <= a < b
    ensures a * a < b * b
  {
    var aa, ab, bb := a * a, a * b, b * b;
    assert aa <= ab;
    assert ab < bb;
  }

  /** `u · u` vanishes only at the origin. */
  lemma DotSelfPositive(u: Vec)
    requires u != Zero
    ensures u.Dot(u) > 0.0
  {
    calc {
      u.Dot(u);
    ==
      u.x * u.x + u.y * u.y;
    >
      0.0;
    }
  }

  /** A non-negative square root of a positive number is positive. */
  lemma RootOfPositive(n: real, s: real)
    requires n >= 0.0 && n * n == s && s > 0.0
    ensures n != 0.0
  {
  }

  /** The norm vanishes exactly at the origin. */
  lemma NormPositiveIffNonZero(norm: NormFn, u: Vec)
    requires IsEuclideanNorm(norm)
    ensures norm(u) > 0.0 <==> u != Zero
  {
    var n := norm(u);
    assert n >= 0.0 && n * n == u.Dot(u);
    if u == Zero {
      assert u.Dot(u) == 0.0;
      if n > 0.0 {
        ProductPositive(n, n, u.Dot(u));
      }
    } else {
      DotSelfPositive(u);
      RootOfPositive(n, u.Dot(u));
    }
  }

  /** The norm is absolutely homogeneous: |c·u| = |c|·|u|. */
  lemma NormScale(norm: NormFn, u: Vec, c: real)
    requires IsEuclideanNorm(norm)
    ensures norm(u.Times(c)) == Abs(c) * norm(u)
  {
    var p, n := norm(u.Times(c)), norm(u);
    assert p >= 0.0 && p * p == u.Times(c).Dot(u.Times(c));
    assert n >= 0.0 && n * n == u.Dot(u);
    assert Abs(c) * Abs(c) == c * c;
    ScaledSquare(p, n, Abs(c), c, u);
    assert Abs(c) * n >= 0.0;
    SquareRootUnique(p, Abs(c) * n);
  }

  lemma ScaledSquare(p: real, n: real, k: real, c: real, u: Vec)
    requires k * k == c * c
    requires p * p == u.Times(c).Dot(u.Times(c)) && n * n == u.Dot(u)
    ensures p * p == (k * n) * (k * n)
  {
    assert u.Times(c).Dot(u.Times(c)) == (c * c) * u.Dot(u);
    assert (k * n) * (k * n) == (k * k) * (n * n);
  }
}
