/** The trajectory buffers and the time-marching loop: `initialize_arrays`
    and `run_integration`. */
module Integration {
  import opened Vectors
  import opened Results
  import opened Steppers

  // ---------------------------------------------------------------------
  // Selecting the scheme by name
  // ---------------------------------------------------------------------

  /** `str.lower` on one character, restricted to ASCII letters. */
  function LowerChar(c: char): (d: char)
    ensures !('A' <= d <= 'Z')
    ensures !('A' <= c <= 'Z') ==> d == c
    ensures 'A' <= c <= 'Z' ==> 'a' <= d <= 'z' && d as int - c as int == 32
  {
    if 'A' <= c <= 'Z' then (c as int + 32) as char else c
  }

  /** `str.lower` on ASCII text. */
  function Lower(s: string): (t: string)
    ensures |t| == |s|
    ensures forall i :: 0 <= i < |s| ==> t[i] == LowerChar(s[i])
  {
    if s == [] then [] else [LowerChar(s[0])] + Lower(s[1..])
  }

  /** Lower-casing twice is lower-casing once. */
  lemma LowerIdempotent(s: string)
    ensures Lower(Lower(s)) == Lower(s)
  {
    var t := Lower(s);
    assert forall i :: 0 <= i < |t| ==> LowerChar(t[i]) == t[i];
  }

  /** The name each scheme answers to once lower-cased. */
  function MethodName(m: Method): string {
    match m
    case Euler => "euler"
    case Rk4 => "rk4"
  }

  /** The dispatch in the loop body of `run_integration`: the lower-cased name
      is compared with "euler" and then with "rk4". */
  function MethodOf(lowered: string): (m: Option<Method>)
    ensures m == Some(Euler) <==> lowered == "euler"
    ensures m == Some(Rk4) <==> lowered == "rk4"
    ensures m.Some? ==> MethodName(m.value) == lowered
  {
    if lowered == "euler" then Some(Euler)
    else if lowered == "rk4" then Some(Rk4)
    else None
  }

  /** The scheme a configured name selects, if any. */
  function ParseMethod(name: string): (m: Option<Method>)
    ensures m.Some? <==> Lower(name) == "euler" || Lower(name) == "rk4"
    ensures m.Some? ==> Lower(name) == MethodName(m.value)
  {
    MethodOf(Lower(name))
  }

  /** A name selects a scheme exactly when it lower-cases to that scheme's
      name. */
  lemma ParseMethodCharacterized(name: string, m: Method)
    ensures ParseMethod(name) == Some(m) <==> Lower(name) == MethodName(m)
  {
  }

  /** The scheme names are recognised in any letter case. */
  lemma ParseMethodCaseInsensitive(a: string, b: string)
    requires Lower(a) == Lower(b)
    ensures ParseMethod(a) == ParseMethod(b)
  {
  }

  /** Each scheme's own name selects it. */
  lemma ParseMethodRoundTrip(m: Method)
    ensures ParseMethod(MethodName(m)) == Some(m)
  {
    match m
    case Euler => assert Lower("euler") == "euler";
    case Rk4 => assert Lower("rk4") == "rk4";
  }

  /** Mixed-case names select their scheme; any other name selects none. */
  lemma ParseMethodExamples()
    ensures ParseMethod("RK4") == Some(Rk4)
    ensures ParseMethod("Euler") == Some(Euler)
    ensures ParseMethod("leapfrog") == None
  {
    assert Lower("RK4") == "rk4";
    assert Lower("Euler") == "euler";
    assert Lower("leapfrog")[0] == 'l';
  }

  // ---------------------------------------------------------------------
  // The recurrence the buffers follow
  // ---------------------------------------------------------------------

  /** Every one of the first `steps` updates from `s` evaluates acc only
      where it is defined. */
  ghost predicate Defined(m: Method, dt: real, acc: Vec --> Vec, s: State, steps: nat)
    decreases steps
  {
    steps == 0 ||
    (StepDefined(m, s, dt, acc) && Defined(m, dt, acc, Step(m, s, dt, acc), steps - 1))
  }

  /** The state after `steps` updates from `s`. */
  function Iterate(m: Method, dt: real, acc: Vec --> Vec, s: State, steps: nat): State
    requires Defined(m, dt, acc, s, steps)
    decreases steps
  {
    if steps == 0 then s else Iterate(m, dt, acc, Step(m, s, dt, acc), steps - 1)
  }

  /** Peeling the last update off an orbit that is defined for one step more. */
  lemma {:induction false} IterateLast(m: Method, dt: real, acc: Vec --> Vec, s: State, steps: nat)
    requires Defined(m, dt, acc, s, steps + 1)
    ensures Defined(m, dt, acc, s, steps)
    ensures StepDefined(m, Iterate(m, dt, acc, s, steps), dt, acc)
    ensures Iterate(m, dt, acc, s, steps + 1) == Step(m, Iterate(m, dt, acc, s, steps), dt, acc)
    decreases steps
  {
    if steps > 0 {
      IterateLast(m, dt, acc, Step(m, s, dt, acc), steps - 1);
    }
  }

  /** Adding one update: the converse of `IterateLast`. */
  lemma {:induction false} IterateExtend(m: Method, dt: real, acc: Vec --> Vec, s: State, steps: nat)
    requires Defined(m, dt, acc, s, steps)
    requires StepDefined(m, Iterate(m, dt, acc, s, steps), dt, acc)
    ensures Defined(m, dt, acc, s, steps + 1)
    ensures Iterate(m, dt, acc, s, steps + 1) == Step(m, Iterate(m, dt, acc, s, steps), dt, acc)
    decreases steps
  {
    if steps > 0 {
      IterateExtend(m, dt, acc, Step(m, s, dt, acc), steps - 1);
    }
  }

  /** An orbit defined for some number of steps is defined for fewer. */
  lemma {:induction false} DefinedPrefix(m: Method, dt: real, acc: Vec --> Vec, s: State, steps: nat, fewer: nat)
    requires Defined(m, dt, acc, s, steps)
    requires fewer <= steps
    ensures Defined(m, dt, acc, s, fewer)
    decreases steps
  {
    if fewer > 0 {
      DefinedPrefix(m, dt, acc, Step(m, s, dt, acc), steps - 1, fewer - 1);
    }
  }

  /** `after` is the update of `before`. */
  ghost predicate IsUpdate(m: Method, dt: real, acc: Vec --> Vec, before: State, after: State) {
    StepDefined(m, before, dt, acc) && after == Step(m, before, dt, acc)
  }

  /** Row j of the buffers `rs`, `vs` is the update of row j-1. */
  ghost predicate UpdatedAt(m: Method, dt: real, acc: Vec --> Vec, rs: seq<Vec>, vs: seq<Vec>, j: int) {
    1 <= j < |rs| && j < |vs| &&
    IsUpdate(m, dt, acc, State(rs[j - 1], vs[j - 1]), State(rs[j], vs[j]))
  }

  /** Every row after the first is the update of the row before it. */
  ghost predicate IsTrajectory(m: Method, dt: real, acc: Vec --> Vec, rs: seq<Vec>, vs: seq<Vec>) {
    |rs| == |vs| &&
    forall j :: 1 <= j < |rs| ==> UpdatedAt(m, dt, acc, rs, vs, j)
  }

  /** Row j of a trajectory is the j-th iterate of row 0. */
  lemma {:induction false} TrajectoryIsIterate(m: Method, dt: real, acc: Vec --> Vec, rs: seq<Vec>, vs: seq<Vec>, j: nat)
    requires IsTrajectory(m, dt, acc, rs, vs)
    requires j < |rs|
    ensures Defined(m, dt, acc, State(rs[0], vs[0]), j)
    ensures State(rs[j], vs[j]) == Iterate(m, dt, acc, State(rs[0], vs[0]), j)
    decreases j
  {
    if j > 0 {
      TrajectoryIsIterate(m, dt, acc, rs, vs, j - 1);
      assert UpdatedAt(m, dt, acc, rs, vs, j);
      IterateExtend(m, dt, acc, State(rs[0], vs[0]), j - 1);
    }
  }

  /** The buffers are determined by row 0: two trajectories of the same
      length that start alike are equal. */
  lemma TrajectoryUnique(m: Method, dt: real, acc: Vec --> Vec, rs1: seq<Vec>, vs1: seq<Vec>, rs2: seq<Vec>, vs2: seq<Vec>)
    requires IsTrajectory(m, dt, acc, rs1, vs1) && IsTrajectory(m, dt, acc, rs2, vs2)
    requires |rs1| == |rs2| > 0 && rs1[0] == rs2[0] && vs1[0] == vs2[0]
    ensures rs1 == rs2 && vs1 == vs2
  {
    forall j | 0 <= j < |rs1|
      ensures rs1[j] == rs2[j] && vs1[j] == vs2[j]
    {
      TrajectoryIsIterate(m, dt, acc, rs1, vs1, j);
      TrajectoryIsIterate(m, dt, acc, rs2, vs2, j);
    }
  }

  // ---------------------------------------------------------------------
  // The buffers
  // ---------------------------------------------------------------------

  /** `initialize_arrays`: zero-filled buffers with one row per time sample
      and the initial state in row 0.  With no samples the assignment to
      row 0 raises an IndexError. */
  method InitializeArrays(r0: Vec, v0: Vec, t: seq<real>) returns (res: Outcome, r: array<Vec>, v: array<Vec>)
    ensures fresh(r) && fresh(v) && r != v
    ensures r.Length == |t| && v.Length == |t|
    ensures res.Fail? <==> |t| == 0
    ensures res.Fail? ==> res.error == IndexOutOfRange
    ensures |t| > 0 ==> r[0] == r0 && v[0] == v0
    ensures forall j :: 1 <= j < |t| ==> r[j] == Zero && v[j] == Zero
  {
    r := new Vec[|t|](_ => Zero);
    v := new Vec[|t|](_ => Zero);
    if |t| == 0 {
      return Fail(IndexOutOfRange), r, v;
    }
    r[0] := r0;
    v[0] := v0;
    res := Pass;
  }

  /** The number of updates `run_integration` computes on buffers of `n`
      position rows and `k` velocity rows: one per row 1..n-1, except that
      when the velocity buffer is the shorter one the last update is the one
      for row k, which raises while being stored. */
  function Updates(n: nat, k: nat): (u: nat)
    ensures n > 0 ==> u <= n - 1
    ensures u <= k
    ensures k >= n > 0 ==> u == n - 1
    ensures 0 < n && k < n ==> u == k
  {
    if n == 0 then 0 else if k < n then k else n - 1
  }

  /** One pass of the loop body of `run_integration` for row `i`: dispatch on
      the lower-cased name, read row i-1, compute the update and store it
      with the tuple assignment `r[i], v[i] = ...`, which stores the position
      row first.  An unknown name raises before anything is read; a missing
      velocity row raises an IndexError. */
  method UpdateRow(lowered: string, r: array<Vec>, v: array<Vec>, i: nat, dt: real, acc: Vec --> Vec)
    returns (res: Outcome)
    requires r != v
    requires 1 <= i < r.Length
    requires MethodOf(lowered).Some? && i <= v.Length ==>
      StepDefined(MethodOf(lowered).value, State(r[i - 1], v[i - 1]), dt, acc)
    modifies r, v
    ensures res.Fail? <==> MethodOf(lowered).None? || v.Length <= i
    ensures MethodOf(lowered).None? ==> res == Fail(UnknownMethod(lowered))
    ensures MethodOf(lowered).Some? && v.Length <= i ==> res == Fail(IndexOutOfRange)
    // Only row i is written, and the velocity row only when it exists.
    ensures forall j :: 0 <= j < r.Length && j != i ==> r[j] == old(r[j])
    ensures forall j :: 0 <= j < v.Length && j != i ==> v[j] == old(v[j])
    ensures MethodOf(lowered).None? || v.Length < i ==> r[i] == old(r[i])
    ensures MethodOf(lowered).None? && i < v.Length ==> v[i] == old(v[i])
    ensures MethodOf(lowered).Some? && i <= v.Length ==>
      r[i] == Step(MethodOf(lowered).value, State(old(r[i - 1]), old(v[i - 1])), dt, acc).r
    ensures MethodOf(lowered).Some? && i < v.Length ==>
      v[i] == Step(MethodOf(lowered).value, State(old(r[i - 1]), old(v[i - 1])), dt, acc).v
  {
    var next;
    if lowered == "euler" {
      if i - 1 >= v.Length {
        return Fail(IndexOutOfRange);
      }
      next := EulerStep(r[i - 1], v[i - 1], dt, acc);
    } else if lowered == "rk4" {
      if i - 1 >= v.Length {
        return Fail(IndexOutOfRange);
      }
      next := Rk4Step(r[i - 1], v[i - 1], dt, acc);
    } else {
      return Fail(UnknownMethod(lowered));
    }
    r[i] := next.r;
    if i >= v.Length {
      return Fail(IndexOutOfRange);
    }
    v[i] := next.v;
    res := Pass;
  }

  /** What `run_integration` leaves behind: its outcome and the contents of
      the two buffers. */
  datatype Run = Run(outcome: Outcome, rs: seq<Vec>, vs: seq<Vec>)

  /** The orbit from row 0 stays where acc is defined for as many updates as
      `run_integration` computes on these buffers. */
  ghost predicate CanRun(name: string, rs: seq<Vec>, vs: seq<Vec>, dt: real, acc: Vec --> Vec) {
    ParseMethod(name).Some? && |rs| > 0 && |vs| > 0 ==>
      Defined(ParseMethod(name).value, dt, acc, State(rs[0], vs[0]), Updates(|rs|, |vs|))
  }

  /** The j-th iterate of `s`, for j within a defined orbit. */
  ghost function Row(m: Method, dt: real, acc: Vec --> Vec, s: State, steps: nat, j: nat): State
    requires Defined(m, dt, acc, s, steps) && j <= steps
  {
    DefinedPrefix(m, dt, acc, s, steps, j);
    Iterate(m, dt, acc, s, j)
  }

  /** Row j+1 of an orbit is the update of row j. */
  lemma RowNext(m: Method, dt: real, acc: Vec --> Vec, s: State, steps: nat, j: nat)
    requires Defined(m, dt, acc, s, steps) && j + 1 <= steps
    ensures StepDefined(m, Row(m, dt, acc, s, steps, j), dt, acc)
    ensures Row(m, dt, acc, s, steps, j + 1) == Step(m, Row(m, dt, acc, s, steps, j), dt, acc)
  {
    DefinedPrefix(m, dt, acc, s, steps, j + 1);
    IterateLast(m, dt, acc, s, j);
  }

  /** The effect of `run_integration` on buffers holding `rs` and `vs`, in
      closed form: position rows 1..Updates(n, k) and velocity rows 1..w-1
      (w the shorter length) hold the iterates of row 0, the other rows keep
      their contents, and the outcome is the exception raised, if any. */
  ghost function Integrated(name: string, rs: seq<Vec>, vs: seq<Vec>, dt: real, acc: Vec --> Vec): Run
    requires CanRun(name, rs, vs, dt, acc)
  {
    var n, k := |rs|, |vs|;
    if n <= 1 then Run(Pass, rs, vs)
    else match ParseMethod(name)
      case None => Run(Fail(UnknownMethod(Lower(name))), rs, vs)
      case Some(m) =>
        if k == 0 then Run(Fail(IndexOutOfRange), rs, vs)
        else
          var s0, u := State(rs[0], vs[0]), Updates(n, k);
          Run(if k < n then Fail(IndexOutOfRange) else Pass,
              seq(n, j requires 0 <= j < n => if 1 <= j <= u then Row(m, dt, acc, s0, u, j).r else rs[j]),
              seq(k, j requires 0 <= j < k => if 1 <= j < n then Row(m, dt, acc, s0, u, j).v else vs[j]))
  }

  /** `run_integration` fails exactly when the loop body runs and either the
      name is unknown or the velocity buffer runs out; it fails with the
      ValueError for the lower-cased name first. */
  lemma IntegratedOutcome(name: string, rs: seq<Vec>, vs: seq<Vec>, dt: real, acc: Vec --> Vec)
    requires CanRun(name, rs, vs, dt, acc)
    ensures var run := Integrated(name, rs, vs, dt, acc);
      (run.outcome.Fail? <==> |rs| >= 2 && (ParseMethod(name).None? || |vs| < |rs|)) &&
      (|rs| >= 2 && ParseMethod(name).None? ==> run.outcome == Fail(UnknownMethod(Lower(name)))) &&
      (|rs| >= 2 && ParseMethod(name).Some? && |vs| < |rs| ==> run.outcome == Fail(IndexOutOfRange))
  {
  }

  /** The buffers keep their lengths and their row 0. */
  lemma IntegratedShape(name: string, rs: seq<Vec>, vs: seq<Vec>, dt: real, acc: Vec --> Vec)
    requires CanRun(name, rs, vs, dt, acc)
    ensures var run := Integrated(name, rs, vs, dt, acc);
      |run.rs| == |rs| && |run.vs| == |vs| &&
      (|rs| > 0 ==> run.rs[0] == rs[0]) && (|vs| > 0 ==> run.vs[0] == vs[0])
  {
  }

  /** An unknown name, a run of at most one row or an empty velocity buffer
      leaves both buffers as they were. */
  lemma IntegratedUnchanged(name: string, rs: seq<Vec>, vs: seq<Vec>, dt: real, acc: Vec --> Vec)
    requires CanRun(name, rs, vs, dt, acc)
    requires ParseMethod(name).None? || |rs| <= 1 || |vs| == 0
    ensures Integrated(name, rs, vs, dt, acc).rs == rs
    ensures Integrated(name, rs, vs, dt, acc).vs == vs
  {
  }

  /** Rows past the last update keep their contents. */
  lemma IntegratedFrame(name: string, rs: seq<Vec>, vs: seq<Vec>, dt: real, acc: Vec --> Vec)
    requires CanRun(name, rs, vs, dt, acc)
    ensures var run := Integrated(name, rs, vs, dt, acc);
      (forall j :: Updates(|rs|, |vs|) < j < |rs| ==> run.rs[j] == rs[j]) &&
      (forall j :: |rs| <= j < |vs| ==> run.vs[j] == vs[j])
  {
  }

  /** With a known name the rows both buffers have form a trajectory. */
  lemma IntegratedTrajectory(name: string, rs: seq<Vec>, vs: seq<Vec>, dt: real, acc: Vec --> Vec)
    requires CanRun(name, rs, vs, dt, acc)
    requires ParseMethod(name).Some?
    ensures var run, w := Integrated(name, rs, vs, dt, acc), if |rs| < |vs| then |rs| else |vs|;
      IsTrajectory(ParseMethod(name).value, dt, acc, run.rs[..w], run.vs[..w])
  {
    var run, m := Integrated(name, rs, vs, dt, acc), ParseMethod(name).value;
    var n, k := |rs|, |vs|;
    if n >= 2 && k >= 1 {
      IntegratedRows(name, rs, vs, dt, acc);
      var w := if n < k then n else k;
      RowsFormTrajectory(m, dt, acc, State(rs[0], vs[0]), Updates(n, k), run.rs[..w], run.vs[..w]);
    }
  }

  /** When the velocity buffer is the shorter one, the position row just past
      it holds the update that raised while being stored. */
  lemma IntegratedOverrun(name: string, rs: seq<Vec>, vs: seq<Vec>, dt: real, acc: Vec --> Vec)
    requires CanRun(name, rs, vs, dt, acc)
    requires ParseMethod(name).Some? && 1 <= |vs| < |rs|
    ensures var run, m, k := Integrated(name, rs, vs, dt, acc), ParseMethod(name).value, |vs|;
      StepDefined(m, State(run.rs[k - 1], run.vs[k - 1]), dt, acc) &&
      run.rs[k] == Step(m, State(run.rs[k - 1], run.vs[k - 1]), dt, acc).r
  {
    IntegratedRows(name, rs, vs, dt, acc);
    RowNext(ParseMethod(name).value, dt, acc, State(rs[0], vs[0]), Updates(|rs|, |vs|), |vs| - 1);
  }

  /** Buffers whose rows 1..n-1 hold the orbit of row 0, for a velocity
      buffer at least as long as the position buffer, are what a run that
      completes every pass leaves. */
  lemma IntegratedCompleteRows(name: string, rs0: seq<Vec>, vs0: seq<Vec>, dt: real, acc: Vec --> Vec,
                               rs: seq<Vec>, vs: seq<Vec>)
    requires CanRun(name, rs0, vs0, dt, acc)
    requires ParseMethod(name).Some? && 2 <= |rs0| <= |vs0|
    requires |rs| == |rs0| && |vs| == |vs0| && rs[0] == rs0[0] && vs[0] == vs0[0]
    requires forall j :: 1 <= j < |rs| ==>
      j <= Updates(|rs0|, |vs0|) && State(rs[j], vs[j]) == Row(ParseMethod(name).value, dt, acc, State(rs0[0], vs0[0]), Updates(|rs0|, |vs0|), j)
    requires forall j :: |rs| <= j < |vs| ==> vs[j] == vs0[j]
    ensures Run(Pass, rs, vs) == Integrated(name, rs0, vs0, dt, acc)
  {
    var run := Integrated(name, rs0, vs0, dt, acc);
    assert rs == run.rs;
    assert vs == run.vs;
  }

  /** Buffers whose rows 1..k-1 hold the orbit, whose position row k holds
      the next update and whose later position rows are untouched, for a
      velocity buffer of k < n rows, are what a run that raises at pass k
      leaves. */
  lemma IntegratedOverrunRows(name: string, rs0: seq<Vec>, vs0: seq<Vec>, dt: real, acc: Vec --> Vec,
                              rs: seq<Vec>, vs: seq<Vec>)
    requires CanRun(name, rs0, vs0, dt, acc)
    requires ParseMethod(name).Some? && 1 <= |vs0| < |rs0|
    requires |rs| == |rs0| && |vs| == |vs0| && rs[0] == rs0[0] && vs[0] == vs0[0]
    requires forall j :: 1 <= j < |vs| ==>
      j <= Updates(|rs0|, |vs0|) && State(rs[j], vs[j]) == Row(ParseMethod(name).value, dt, acc, State(rs0[0], vs0[0]), Updates(|rs0|, |vs0|), j)
    requires rs[|vs|] == Row(ParseMethod(name).value, dt, acc, State(rs0[0], vs0[0]), Updates(|rs0|, |vs0|), |vs|).r
    requires forall j :: |vs| < j < |rs| ==> rs[j] == rs0[j]
    ensures Run(Fail(IndexOutOfRange), rs, vs) == Integrated(name, rs0, vs0, dt, acc)
  {
    var run := Integrated(name, rs0, vs0, dt, acc);
    assert rs == run.rs;
    assert vs == run.vs;
  }

  /** Consecutive rows of an orbit form a trajectory. */
  lemma RowsFormTrajectory(m: Method, dt: real, acc: Vec --> Vec, s0: State, u: nat, rs: seq<Vec>, vs: seq<Vec>)
    requires Defined(m, dt, acc, s0, u)
    requires |rs| == |vs| <= u + 1
    requires forall j :: 0 <= j < |rs| ==> State(rs[j], vs[j]) == Row(m, dt, acc, s0, u, j)
    ensures IsTrajectory(m, dt, acc, rs, vs)
  {
    forall j | 1 <= j < |rs|
      ensures UpdatedAt(m, dt, acc, rs, vs, j)
    {
      RowNext(m, dt, acc, s0, u, j - 1);
    }
  }

  /** The rows `Integrated` rewrites, row by row. */
  lemma IntegratedRows(name: string, rs: seq<Vec>, vs: seq<Vec>, dt: real, acc: Vec --> Vec)
    requires CanRun(name, rs, vs, dt, acc)
    requires ParseMethod(name).Some? && |rs| >= 2 && |vs| >= 1
    ensures var run, m := Integrated(name, rs, vs, dt, acc), ParseMethod(name).value;
      var s0, u := State(rs[0], vs[0]), Updates(|rs|, |vs|);
      |run.rs| == |rs| && |run.vs| == |vs| &&
      (forall j :: 0 <= j < |rs| && j < |vs| ==> j <= u && State(run.rs[j], run.vs[j]) == Row(m, dt, acc, s0, u, j)) &&
      (|vs| < |rs| ==> |vs| <= u && run.rs[|vs|] == Row(m, dt, acc, s0, u, |vs|).r)
  {
  }

  /** `run_integration`: overwrites rows 1.. in place, each from the row
      before it.  The name check is inside the loop, so an unknown name fails
      only when the loop body runs, and before anything is written.  A
      velocity buffer shorter than the position buffer raises an IndexError
      when the loop reaches its end, after that position row was stored. */
  method RunIntegration(name: string, r: array<Vec>, v: array<Vec>, dt: real, acc: Vec --> Vec) returns (res: Outcome)
    requires r != v
    requires CanRun(name, r[..], v[..], dt, acc)
    modifies r, v
    ensures Run(res, r[..], v[..]) == Integrated(name, old(r[..]), old(v[..]), dt, acc)
  {
    var lowered := Lower(name);
    ghost var kind := MethodOf(lowered);
    ghost var n, k := r.Length, v.Length;
    ghost var u := Updates(n, k);
    ghost var s0 := if n > 0 && k > 0 then State(r[0], v[0]) else State(Zero, Zero);
    assert kind.Some? && n > 0 && k > 0 ==> Defined(kind.value, dt, acc, s0, u);
    res := Pass;
    var i := 1;
    while i < r.Length
      invariant 1 <= i <= n || i == 1
      invariant i == 1 || i <= k
      invariant kind.None? ==> i == 1
      invariant res == Pass
      invariant forall j :: 0 <= j < n && (i <= j || j == 0) ==> r[j] == old(r[j])
      invariant forall j :: 0 <= j < k && (i <= j || j == 0) ==> v[j] == old(v[j])
      invariant kind.Some? && i <= n && i <= k ==>
        forall j :: 1 <= j < i ==> j <= u && State(r[j], v[j]) == Row(kind.value, dt, acc, s0, u, j)
    {
      if kind.Some? && i <= k {
        RowNext(kind.value, dt, acc, s0, u, i - 1);
        assert State(r[i - 1], v[i - 1]) == Row(kind.value, dt, acc, s0, u, i - 1);
      }
      res := UpdateRow(lowered, r, v, i, dt, acc);
      if res.Fail? {
        break;
      }
      i := i + 1;
    }
    ghost var rs0, vs0 := old(r[..]), old(v[..]);
    if kind.Some? && n >= 2 && k >= 1 {
      if res.Fail? {
        IntegratedOverrunRows(name, rs0, vs0, dt, acc, r[..], v[..]);
      } else {
        IntegratedCompleteRows(name, rs0, vs0, dt, acc, r[..], v[..]);
      }
    } else {
      IntegratedUnchanged(name, rs0, vs0, dt, acc);
      IntegratedOutcome(name, rs0, vs0, dt, acc);
      assert r[..] == rs0 && v[..] == vs0;
    }
  }

  /** `initialize_arrays` followed by `run_integration`, as the driver script
      runs them: with a recognised name, in any letter case, the buffers have
      one row per time sample, row 0 is the initial state and row j is the
      j-th update of it; with an unknown name the loop raises on its first
      pass and the buffers stay as initialised. */
  method InitializeAndRun(name: string, r0: Vec, v0: Vec, t: seq<real>, dt: real, acc: Vec --> Vec)
    returns (res: Outcome, r: array<Vec>, v: array<Vec>)
    requires ParseMethod(name).Some? && |t| > 0 ==>
      Defined(ParseMethod(name).value, dt, acc, State(r0, v0), |t| - 1)
    ensures fresh(r) && fresh(v) && r != v
    ensures r.Length == |t| && v.Length == |t|
    ensures res.Fail? <==> |t| == 0 || (|t| >= 2 && ParseMethod(name).None?)
    ensures |t| == 0 ==> res == Fail(IndexOutOfRange)
    ensures |t| >= 2 && ParseMethod(name).None? ==> res == Fail(UnknownMethod(Lower(name)))
    ensures |t| > 0 ==> r[0] == r0 && v[0] == v0
    ensures ParseMethod(name).Some? ==> IsTrajectory(ParseMethod(name).value, dt, acc, r[..], v[..])
    ensures ParseMethod(name).Some? ==> forall j :: 0 <= j < |t| ==>
      Defined(ParseMethod(name).value, dt, acc, State(r0, v0), j) &&
      State(r[j], v[j]) == Iterate(ParseMethod(name).value, dt, acc, State(r0, v0), j)
    ensures ParseMethod(name).None? ==> forall j :: 1 <= j < |t| ==> r[j] == Zero && v[j] == Zero
  {
    res, r, v := InitializeArrays(r0, v0, t);
    if res.Fail? {
      return;
    }
    ghost var rs, vs := r[..], v[..];
    assert rs[0] == r0 && vs[0] == v0;
    res := RunIntegration(name, r, v, dt, acc);
    IntegratedOutcome(name, rs, vs, dt, acc);
    IntegratedShape(name, rs, vs, dt, acc);
    if ParseMethod(name).Some? {
      IntegratedTrajectory(name, rs, vs, dt, acc);
      assert r[..|t|] == r[..] && v[..|t|] == v[..];
      forall j | 0 <= j < |t|
        ensures Defined(ParseMethod(name).value, dt, acc, State(r0, v0), j)
        ensures State(r[j], v[j]) == Iterate(ParseMethod(name).value, dt, acc, State(r0, v0), j)
      {
        TrajectoryIsIterate(ParseMethod(name).value, dt, acc, r[..], v[..], j);
      }
    } else {
      IntegratedUnchanged(name, rs, vs, dt, acc);
      assert forall j :: 1 <= j < |t| ==> r[j] == rs[j] && v[j] == vs[j];
    }
  }
}
