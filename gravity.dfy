/** The inverse-square acceleration of `create_acceleration_fn`. */
module Gravity {
  import opened Vectors

  /** `acc_fn(r)` with the constants G and M captured: -(G·M / |r|³)·r.  The
      Python divides by the cube of the norm, so the origin is outside its
      domain. */
  function Acceleration(g: real, m: real, norm: NormFn, r: Vec): (a: Vec)
    requires norm(r) > 0.0
    ensures a.x * r.y == a.y * r.x
  {
    r.Times(Attraction(g, m, norm(r)))
  }

  /** The factor by which `r` is scaled. */
  function Attraction(g: real, m: real, n: real): (c: real)
    requires n > 0.0
    ensures c * (n * n * n) == -(g * m)
  {
    -(g * m / (n * n * n))
  }

  lemma AttractionNegative(g: real, m: real, n: real)
    requires g > 0.0 && m > 0.0 && n > 0.0
    ensures Attraction(g, m, n) < 0.0
  {
    ProductPositive(g, m, g * m);
    ProductPositive(n, n, n * n);
    ProductPositive(n * n, n, n * n * n);
    QuotientPositive(g * m, n * n * n);
  }

  lemma QuotientPositive(p: real, q: real)
    requires p > 0.0 && q > 0.0
    ensures p / q > 0.0
  {
  }

  /** With positive G and M the acceleration is a strictly negative multiple of
      the position: it points at the origin. */
  lemma AccelerationPointsToOrigin(g: real, m: real, norm: NormFn, r: Vec)
    requires IsEuclideanNorm(norm)
    requires g > 0.0 && m > 0.0 && norm(r) > 0.0
    ensures Acceleration(g, m, norm, r).Dot(r) < 0.0
  {
    var n := norm(r);
    var c := Attraction(g, m, n);
    AttractionNegative(g, m, n);
    NormPositiveIffNonZero(norm, r);
    DotSelfPositive(r);
    assert Acceleration(g, m, norm, r) == r.Times(c);
    assert r.Times(c).Dot(r) == c * r.Dot(r);
  }

  /** The magnitude of the acceleration is G·M / |r|²: the inverse-square law. */
  lemma AccelerationInverseSquare(g: real, m: real, norm: NormFn, r: Vec)
    requires IsEuclideanNorm(norm)
    requires g >= 0.0 && m >= 0.0 && norm(r) > 0.0
    ensures norm(Acceleration(g, m, norm, r)) == g * m / (norm(r) * norm(r))
  {
    var n := norm(r);
    var c := Attraction(g, m, n);
    assert Acceleration(g, m, norm, r) == r.Times(c);
    NormScale(norm, r, c);
    ProductNonNegative(g, m, g * m);
    ProductPositive(n, n, n * n);
    ProductPositive(n * n, n, n * n * n);
    assert g * m / (n * n * n) >= 0.0;
    assert Abs(c) == g * m / (n * n * n);
    CancelOne(g * m, n);
  }

  lemma ProductNonNegative(a: real, b: real, p: real)
    requires a >= 0.0 && b >= 0.0 && p == a * b
    ensures p >= 0.0
  {
  }

  lemma CancelOne(p: real, n: real)
    requires n > 0.0
    ensures p / (n * n * n) * n == p / (n * n)
  {
    var q := n * n;
    ProductPositive(n, n, q);
    assert n * n * n == q * n;
    CancelFactor(p, q, n);
  }

  lemma CancelFactor(p: real, q: real, k: real)
    requires q > 0.0 && k > 0.0
    ensures p / (q * k) * k == p / q
  {
    var x := p / (q * k);
    ProductPositive(q, k, q * k);
    assert x * (q * k) == p;
    assert (x * k) * q == p;
  }

  /** `create_acceleration_fn(G, M)`: a closure defined at every point of
      non-zero norm, whose value there is the inverse-square acceleration. */
  function CreateAccelerationFn(g: real, m: real, norm: NormFn): (f: Vec --> Vec)
    ensures forall r :: norm(r) > 0.0 ==> f.requires(r)
    ensures forall r :: norm(r) > 0.0 ==> f(r) == Acceleration(g, m, norm, r)
    ensures forall r :: f.reads(r) == {}
  {
    r requires norm(r) > 0.0 => Acceleration(g, m, norm, r)
  }

  /** With a Euclidean norm the closure is defined at every point except the
      origin, where the quotient by |r|³ divides by zero. */
  lemma AccelerationFnDomain(g: real, m: real, norm: NormFn, r: Vec)
    requires IsEuclideanNorm(norm)
    requires r != Zero
    ensures CreateAccelerationFn(g, m, norm).requires(r)
  {
    NormPositiveIffNonZero(norm, r);
  }
}
