/** One step of the explicit Euler and the classical fourth-order Runge-Kutta
    schemes for the system r' = v, v' = acc(r). */
module Steppers {
  import opened Vectors

  /** A row of the position and velocity buffers. */
  datatype State = State(r: Vec, v: Vec)

  /** `euler_step`: acc is evaluated once, at the old position. */
  function EulerStep(rOld: Vec, vOld: Vec, dt: real, acc: Vec --> Vec): (next: State)
    requires acc.requires(rOld)
    ensures dt == 0.0 ==> next == State(rOld, vOld)
  {
    var aOld := acc(rOld);
    State(rOld.Plus(vOld.Times(dt)), vOld.Plus(aOld.Times(dt)))
  }

  /** The Euler step reads the acceleration only at the old position: two
      acceleration functions that agree there give the same step. */
  lemma EulerStepLocal(rOld: Vec, vOld: Vec, dt: real, acc1: Vec --> Vec, acc2: Vec --> Vec)
    requires acc1.requires(rOld) && acc2.requires(rOld) && acc1(rOld) == acc2(rOld)
    ensures EulerStep(rOld, vOld, dt, acc1) == EulerStep(rOld, vOld, dt, acc2)
  {
  }

  /** The points at which `rk4_step` evaluates acc, in the order it calls it;
      each later point depends on the value at an earlier one. */
  ghost predicate Rk4Defined(rOld: Vec, vOld: Vec, dt: real, acc: Vec --> Vec) {
    acc.requires(rOld) &&
    acc.requires(rOld.Plus(vOld.Times(dt / 2.0))) &&
    acc.requires(rOld.Plus(vOld.Plus(acc(rOld).Times(dt / 2.0)).Times(dt / 2.0))) &&
    acc.requires(rOld.Plus(vOld.Plus(acc(rOld.Plus(vOld.Times(dt / 2.0))).Times(dt / 2.0)).Times(dt)))
  }

  /** `rk4_step`: four slope evaluations combined with weights 1, 2, 2, 1. */
  function Rk4Step(rOld: Vec, vOld: Vec, dt: real, acc: Vec --> Vec): (next: State)
    requires Rk4Defined(rOld, vOld, dt, acc)
    ensures dt == 0.0 ==> next == State(rOld, vOld)
  {
    var k1v := acc(rOld);
    var k1r := vOld;
    var k2r := vOld.Plus(k1v.Times(dt / 2.0));
    var k2v := acc(rOld.Plus(k1r.Times(dt / 2.0)));
    var k3r := vOld.Plus(k2v.Times(dt / 2.0));
    var k3v := acc(rOld.Plus(k2r.Times(dt / 2.0)));
    var k4r := vOld.Plus(k3v.Times(dt));
    var k4v := acc(rOld.Plus(k3r.Times(dt)));
    State(rOld.Plus(k1r.Plus(k2r.Times(2.0)).Plus(k3r.Times(2.0)).Plus(k4r).Times(dt / 6.0)),
          vOld.Plus(k1v.Plus(k2v.Times(2.0)).Plus(k3v.Times(2.0)).Plus(k4v).Times(dt / 6.0)))
  }

  /** Under a constant acceleration `a` the RK4 step is exact: it returns the
      uniformly accelerated motion r + v·dt + a·dt²/2, v + a·dt. */
  lemma Rk4ConstantAcceleration(rOld: Vec, vOld: Vec, dt: real, acc: Vec --> Vec, a: Vec)
    requires forall p :: acc.requires(p) && acc(p) == a
    ensures Rk4Defined(rOld, vOld, dt, acc)
    ensures Rk4Step(rOld, vOld, dt, acc)
         == State(rOld.Plus(vOld.Times(dt)).Plus(a.Times(dt * dt / 2.0)), vOld.Plus(a.Times(dt)))
  {
  }

  /** Without force RK4 and Euler coincide: the position moves by v·dt and
      the velocity is unchanged. */
  lemma Rk4ZeroForceIsEuler(rOld: Vec, vOld: Vec, dt: real, acc: Vec --> Vec)
    requires forall p :: acc.requires(p) && acc(p) == Zero
    ensures Rk4Defined(rOld, vOld, dt, acc)
    ensures Rk4Step(rOld, vOld, dt, acc) == EulerStep(rOld, vOld, dt, acc)
    ensures Rk4Step(rOld, vOld, dt, acc) == State(rOld.Plus(vOld.Times(dt)), vOld)
  {
    Rk4ConstantAcceleration(rOld, vOld, dt, acc, Zero);
  }

  /** Under a constant non-zero acceleration, Euler's position lags behind
      the exact (RK4) position by exactly a·dt²/2. */
  lemma EulerPositionError(rOld: Vec, vOld: Vec, dt: real, acc: Vec --> Vec, a: Vec)
    requires forall p :: acc.requires(p) && acc(p) == a
    ensures Rk4Defined(rOld, vOld, dt, acc)
    ensures Rk4Step(rOld, vOld, dt, acc).r == EulerStep(rOld, vOld, dt, acc).r.Plus(a.Times(dt * dt / 2.0))
    ensures Rk4Step(rOld, vOld, dt, acc).v == EulerStep(rOld, vOld, dt, acc).v
  {
    Rk4ConstantAcceleration(rOld, vOld, dt, acc, a);
  }

  /** The two schemes `run_integration` accepts. */
  datatype Method = Euler | Rk4

  ghost predicate StepDefined(m: Method, s: State, dt: real, acc: Vec --> Vec) {
    match m
    case Euler => acc.requires(s.r)
    case Rk4 => Rk4Defined(s.r, s.v, dt, acc)
  }

  /** The update applied to row i-1 to obtain row i. */
  function Step(m: Method, s: State, dt: real, acc: Vec --> Vec): (next: State)
    requires StepDefined(m, s, dt, acc)
    ensures dt == 0.0 ==> next == s
    ensures m == Euler ==> next == EulerStep(s.r, s.v, dt, acc)
    ensures m == Rk4 ==> next == Rk4Step(s.r, s.v, dt, acc)
  {
    match m
    case Euler => EulerStep(s.r, s.v, dt, acc)
    case Rk4 => Rk4Step(s.r, s.v, dt, acc)
  }
}
