/** `compute_aphelion`: the farthest row of the position buffer, found with a
    first-occurrence argmax and a fallback when that row is row 0. */
module Aphelion {
  import opened Vectors
  import opened Results

  /** `np.linalg.norm(r, axis=1)`: the distance of every row from the origin. */
  function Distances(norm: NormFn, r: seq<Vec>): (d: seq<real>)
    ensures |d| == |r|
    ensures forall j :: 0 <= j < |r| ==> d[j] == norm(r[j])
  {
    seq(|r|, j requires 0 <= j < |r| => norm(r[j]))
  }

  /** `k` is where `d[lo..]` first reaches its maximum: no later entry is
      larger and every earlier one is strictly smaller. */
  ghost predicate IsFirstArgMax(d: seq<real>, lo: nat, k: nat) {
    lo <= k < |d| &&
    (forall j :: lo <= j < |d| ==> d[j] <= d[k]) &&
    (forall j :: lo <= j < k ==> d[j] < d[k])
  }

  /** A window has at most one first argmax. */
  lemma FirstArgMaxUnique(d: seq<real>, lo: nat, k1: nat, k2: nat)
    requires IsFirstArgMax(d, lo, k1) && IsFirstArgMax(d, lo, k2)
    ensures k1 == k2
  {
    assert d[k1] == d[k2];
  }

  /** `np.argmax(d[lo:]) + lo`: the first index of the maximum of the window
      `d[lo..]`.  numpy raises on an empty window; the `requires` is that
      error's complement, and `ComputeAphelion` models the error itself. */
  function ArgMaxFrom(d: seq<real>, lo: nat): (k: nat)
    requires lo < |d|
    ensures IsFirstArgMax(d, lo, k)
    decreases |d| - lo
  {
    if lo == |d| - 1 then lo
    else
      var k := ArgMaxFrom(d, lo + 1);
      if d[lo] >= d[k] then lo else k
  }

  /** The argmax of a slice, shifted by the slice's start, is the argmax of
      the window. */
  lemma ArgMaxOfSlice(d: seq<real>, lo: nat)
    requires lo < |d|
    ensures ArgMaxFrom(d[lo..], 0) + lo == ArgMaxFrom(d, lo)
  {
    var k := ArgMaxFrom(d[lo..], 0);
    assert forall j :: lo <= j < |d| ==> d[j] == d[lo..][j - lo];
    assert IsFirstArgMax(d, lo, k + lo);
    FirstArgMaxUnique(d, lo, k + lo, ArgMaxFrom(d, lo));
  }

  /** `max(1, int(len(r) * 0.05))`: the first 5% of the run that the fallback
      skips.  For a whole number n of rows, truncating n·0.05 gives n / 20. */
  function Cutoff(n: nat): (c: nat)
    ensures c >= 1
    ensures n >= 2 ==> c <= n - 1
    ensures c == 1 || c == n / 20
    ensures c >= n / 20
  {
    if n / 20 > 1 then n / 20 else 1
  }

  /** The aphelion reported to the caller: its distance, the velocity row at
      it and its index. */
  datatype Aphelion = Aphelion(distance: real, velocity: Vec, index: nat)

  /** The index `compute_aphelion` settles on, for a run of at least two
      rows: the first argmax of the distances, or, when that is row 0, the
      first argmax of the distances from `Cutoff` on. */
  function AphelionIndex(norm: NormFn, r: seq<Vec>): (k: nat)
    requires |r| >= 2
    ensures 1 <= k < |r|
    ensures var d := Distances(norm, r);
      (k > 0 && IsFirstArgMax(d, 0, k)) ||
      (IsFirstArgMax(d, 0, 0) && Cutoff(|r|) <= k && IsFirstArgMax(d, Cutoff(|r|), k))
  {
    var d := Distances(norm, r);
    var raw := ArgMaxFrom(d, 0);
    if raw == 0 then ArgMaxFrom(d, Cutoff(|r|)) else raw
  }

  /** `compute_aphelion(r, v)`.  With fewer than two rows the argmax (of the
      whole run, or of the remaining empty window) raises; the velocity
      lookup raises when `v` has no row at the chosen index. */
  function ComputeAphelion(norm: NormFn, r: seq<Vec>, v: seq<Vec>): (res: Result<Aphelion>)
    ensures |r| <= 1 ==> res == Err(EmptyArgmax)
    ensures res.Ok? ==> |r| >= 2 && res.value.index == AphelionIndex(norm, r)
    ensures res.Ok? ==> res.value.index < |v| && res.value.velocity == v[res.value.index]
    ensures res.Ok? ==> res.value.distance == norm(r[res.value.index])
    ensures |r| >= 2 ==> (res.Ok? <==> AphelionIndex(norm, r) < |v|)
    ensures res.Err? && |r| >= 2 ==> res == Err(IndexOutOfRange)
  {
    if |r| == 0 then Err(EmptyArgmax)
    else
      var d := Distances(norm, r);
      var raw := ArgMaxFrom(d, 0);
      var cutoff := Cutoff(|r|);
      if raw == 0 && cutoff >= |r| then Err(EmptyArgmax)
      else
        var k := if raw == 0 then ArgMaxFrom(d, cutoff) else raw;
        if k < |v| then Ok(Aphelion(d[k], v[k], k)) else Err(IndexOutOfRange)
  }

  /** When the first maximum is after row 0 it is reported as it is: its
      distance is the largest of the whole run and every earlier one is
      strictly smaller. */
  lemma AphelionRaw(norm: NormFn, r: seq<Vec>, v: seq<Vec>, k: nat)
    requires 0 < k < |r| && k < |v|
    requires IsFirstArgMax(Distances(norm, r), 0, k)
    ensures ComputeAphelion(norm, r, v) == Ok(Aphelion(norm(r[k]), v[k], k))
    ensures forall j :: 0 <= j < |r| ==> norm(r[j]) <= norm(r[k])
    ensures forall j :: 0 <= j < k ==> norm(r[j]) < norm(r[k])
  {
    var d := Distances(norm, r);
    var i := AphelionIndex(norm, r);
    if IsFirstArgMax(d, 0, 0) {
      FirstArgMaxUnique(d, 0, 0, k);
    } else {
      FirstArgMaxUnique(d, 0, i, k);
    }
    assert forall j :: 0 <= j < |r| ==> d[j] == norm(r[j]);
  }

  /** When row 0 is the farthest, the fallback reports the first maximum of
      the rows from `Cutoff` on, which is never row 0. */
  lemma AphelionFallback(norm: NormFn, r: seq<Vec>, v: seq<Vec>)
    requires |r| >= 2
    requires IsFirstArgMax(Distances(norm, r), 0, 0)
    ensures var k := AphelionIndex(norm, r);
      Cutoff(|r|) <= k &&
      (forall j :: Cutoff(|r|) <= j < |r| ==> norm(r[j]) <= norm(r[k])) &&
      (forall j :: Cutoff(|r|) <= j < k ==> norm(r[j]) < norm(r[k]))
    ensures ComputeAphelion(norm, r, v).Ok? ==>
      ComputeAphelion(norm, r, v).value.index >= Cutoff(|r|)
  {
    var d := Distances(norm, r);
    var k := AphelionIndex(norm, r);
    if !(IsFirstArgMax(d, 0, 0) && Cutoff(|r|) <= k && IsFirstArgMax(d, Cutoff(|r|), k)) {
      FirstArgMaxUnique(d, 0, 0, k);
    }
    assert forall j :: 0 <= j < |r| ==> d[j] == norm(r[j]);
  }

  /** Under a Euclidean norm every reported distance is non-negative. */
  lemma AphelionDistanceNonNegative(norm: NormFn, r: seq<Vec>, v: seq<Vec>)
    requires IsEuclideanNorm(norm)
    requires ComputeAphelion(norm, r, v).Ok?
    ensures ComputeAphelion(norm, r, v).value.distance >= 0.0
  {
  }

  /** A point on the positive x-axis lies at its x coordinate from the origin. */
  lemma NormOnAxis(norm: NormFn, x: real)
    requires IsEuclideanNorm(norm) && x >= 0.0
    ensures norm(Vec(x, 0.0)) == x
  {
    var n := norm(Vec(x, 0.0));
    assert n >= 0.0 && n * n == Vec(x, 0.0).Dot(Vec(x, 0.0)) == x * x;
    SquareRootUnique(n, x);
  }

  /** A run that starts at its farthest row: the first maximum is row 0, so
      the search restarts after the cutoff (one row for a run of four) and
      settles on the farthest of the remaining rows. */
  lemma AphelionFallbackExample(norm: NormFn)
    requires IsEuclideanNorm(norm)
    ensures var r := [Vec(10.0, 0.0), Vec(1.0, 0.0), Vec(5.0, 0.0), Vec(2.0, 0.0)];
      ComputeAphelion(norm, r, r) == Ok(Aphelion(5.0, Vec(5.0, 0.0), 2))
  {
    var r := [Vec(10.0, 0.0), Vec(1.0, 0.0), Vec(5.0, 0.0), Vec(2.0, 0.0)];
    NormOnAxis(norm, 10.0);
    NormOnAxis(norm, 1.0);
    NormOnAxis(norm, 5.0);
    NormOnAxis(norm, 2.0);
    var d := Distances(norm, r);
    assert d == [10.0, 1.0, 5.0, 2.0];
    assert Cutoff(4) == 1;
    assert IsFirstArgMax(d, 0, 0);
    FirstArgMaxUnique(d, 0, 0, ArgMaxFrom(d, 0));
    assert IsFirstArgMax(d, 1, 2);
    FirstArgMaxUnique(d, 1, 2, ArgMaxFrom(d, 1));
  }
}
