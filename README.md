# Orbit engine of the two-body simulator

This project models the numerical core of a small two-body orbit simulator.
A planet moves around a fixed central mass under an inverse-square
acceleration. Its position and velocity buffers are filled in place, one row
per time sample, by an explicit Euler or a classical fourth-order Runge-Kutta
step. Afterwards the farthest row (the aphelion) is located with a
first-maximum search, plus a fallback for a run that starts at its farthest
point.

The project also models the configuration helpers the driver script uses:
- colour resolution;
- the initial state in SI units;
- the time grid.

The modules, leaves first:

- `Results`: the error values (`MissingKey`, `UnknownMethod`, `EmptyArgmax`, `IndexOutOfRange`, `ZeroStep`), plus `Option`, `Result` and `Outcome`.
- `Vectors`: 2-D real vectors.
  - The norm is a parameter `norm: Vec -> real`.
  - Facts about the norm assume `IsEuclideanNorm`: the norm is non-negative and its square is the dot product.
- `Gravity`: `create_acceleration_fn`. The closure is a partial function `Vec --> Vec`, defined where the norm is positive.
- `Steppers`: `euler_step` and `rk4_step`, and the `Step` of a chosen scheme.
- `Integration`:
  - the name dispatch of `run_integration`;
  - the recurrence the buffers follow (`Iterate`, `IsTrajectory`);
  - the imperative `initialize_arrays` (`InitializeArrays`) and `run_integration` (`RunIntegration`), over `array<Vec>` buffers.

  `RunIntegration` is proved against a closed-form ghost function `Integrated`, and lemmas state what `Integrated` means.
- `Aphelion`: `compute_aphelion`.
- `Config`: `get_planet_colors`, `get_initial_conditions` and `get_time_settings`, over a configuration given as a value.

Several behaviours of the code differ from what a reader would expect of
such an engine; the model follows the code:

- **Unknown method name.** One might expect it to be rejected before any stepping. In the code the name check is inside the loop (utils.py:146-155). So with fewer than two rows an unknown name raises nothing, and no name is ever resolved. `Integration.IntegratedOutcome` states this.
- **Number of samples.** It is not floor(duration / step): `np.arange` (utils.py:54) produces ceil(duration / step) samples. `Config.Arange`, `Config.ArangeCovers` and `Config.GetTimeSettings` state the ceiling.
- **Method selection.** The name is not resolved once into a closed variant. The code lower-cases it once and compares strings on every pass. `Integration.UpdateRow` does that comparison on every pass.
- **Buffers of unequal length.** The code reads `v[i-1]`, stores `r[i]` and only then fails to store `v[i]`. The model keeps that order: a shorter velocity buffer raises an IndexError after the position row was written. The driver's buffers always have equal length.

## Model

| member | source | states |
|---|---|---|
| `Vectors.NormPositiveIffNonZero` | utils.py:63 | under a Euclidean norm, the norm is positive exactly at non-zero vectors |
| `Vectors.NormScale` | utils.py:63 | scaling a vector by c scales a Euclidean norm by abs(c) |
| `Gravity.Acceleration` | utils.py:62-64 | the acceleration is a multiple of the position vector (collinear with r) |
| `Gravity.Attraction` | utils.py:64 | the factor that scales r, multiplied by norm³, gives -G·M |
| `Gravity.AttractionNegative` | utils.py:64 | with G, M and the norm positive, the scaling factor -(G·M/norm³) is strictly negative |
| `Gravity.AccelerationPointsToOrigin` | utils.py:62-64 | with positive G and M, the acceleration has a strictly negative dot product with r: it points at the origin |
| `Gravity.AccelerationInverseSquare` | utils.py:62-64 | the magnitude of the acceleration is G·M/norm(r)²: the inverse-square law |
| `Gravity.CreateAccelerationFn` | utils.py:61-65 | the returned closure is defined at every point of positive norm, gives that point's acceleration there, and reads no state |
| `Gravity.AccelerationFnDomain` | utils.py:61-65 | under a Euclidean norm the closure is defined at every point except the origin |
| `Steppers.EulerStep` | utils.py:109-114 | a zero time step returns the old state unchanged |
| `Steppers.EulerStepLocal` | utils.py:109-114 | the Euler step depends on the acceleration only at the old position |
| `Steppers.Rk4Step` | utils.py:117-135 | a zero time step returns the old state unchanged |
| `Steppers.Rk4ConstantAcceleration` | utils.py:117-135 | under a constant acceleration a, RK4 is defined everywhere and returns the exact motion r+v·dt+a·dt²/2, v+a·dt |
| `Steppers.Rk4ZeroForceIsEuler` | utils.py:109-135 | without force, RK4 and Euler give the same step: the position moves by v·dt and the velocity stays |
| `Steppers.EulerPositionError` | utils.py:109-135 | under a constant acceleration, Euler's position falls short of RK4's by exactly a·dt²/2, and the two velocities agree |
| `Steppers.Step` | utils.py:146-152 | whichever scheme is chosen, a zero time step leaves the row unchanged; the chosen scheme's stepper computes the step |
| `Integration.LowerChar` | utils.py:144 | lower-casing a character leaves no upper-case letter, maps A-Z onto a-z and fixes every other character |
| `Integration.Lower` | utils.py:144 | lower-casing keeps the length and lower-cases each character |
| `Integration.LowerIdempotent` | utils.py:144 | lower-casing twice equals lower-casing once |
| `Integration.MethodOf` | utils.py:148-155 | the dispatch selects Euler exactly for "euler" and RK4 exactly for "rk4", and a selected scheme's name is the compared string |
| `Integration.ParseMethod` | utils.py:144-155 | a name selects a scheme exactly when it lower-cases to "euler" or "rk4", and then to that scheme's name |
| `Integration.ParseMethodCharacterized` | utils.py:144-155 | a name selects a scheme if and only if it lower-cases to that scheme's name |
| `Integration.ParseMethodCaseInsensitive` | utils.py:144-155 | two names that lower-case alike select the same scheme, or both select none |
| `Integration.ParseMethodRoundTrip` | utils.py:146-152 | each scheme's own name selects that scheme |
| `Integration.ParseMethodExamples` | utils.py:144-155 | "RK4" selects RK4, "Euler" selects Euler, "leapfrog" selects nothing |
| `Integration.IterateLast` | utils.py:146-152 | in an orbit defined for one more update, the last state is the update of the one before |
| `Integration.IterateExtend` | utils.py:146-152 | an orbit can be extended by one update wherever the acceleration is defined |
| `Integration.DefinedPrefix` | utils.py:146-152 | an orbit defined for some number of updates is defined for any fewer |
| `Integration.TrajectoryIsIterate` | utils.py:146-152 | in buffers where each row is the update of the one before, row j is the j-th iterate of row 0 |
| `Integration.TrajectoryUnique` | utils.py:146-152 | two such buffers of the same length with the same row 0 are equal (the run is deterministic) |
| `Integration.InitializeArrays` | utils.py:71-78 | two distinct fresh buffers of len(t) rows: row 0 holds the initial state, every other row is zero; with no samples, storing row 0 raises an IndexError |
| `Integration.Updates` | utils.py:146-152 | the number of position rows the loop writes: n-1 when the velocity buffer has at least n rows, exactly k when it has 0 < k < n rows (the k-th update raises while storing), never more than k |
| `Integration.UpdateRow` | utils.py:146-155 | one pass of the loop: an unknown lower-cased name raises a ValueError naming it; otherwise row i becomes the step of row i-1, with an IndexError when a velocity row is missing; no other row changes |
| `Integration.IntegratedOutcome` | utils.py:138-155 | the run fails exactly when it has at least two rows and either the name is unknown (ValueError with the lower-cased name) or the velocity buffer is shorter (IndexError) |
| `Integration.IntegratedShape` | utils.py:138-155 | the run keeps both buffers' lengths and their row 0 |
| `Integration.IntegratedUnchanged` | utils.py:144-155 | an unknown name, a run of at most one row or an empty velocity buffer leaves both buffers as they were |
| `Integration.IntegratedFrame` | utils.py:146-152 | position rows past the last update, and velocity rows past the position buffer, keep their contents |
| `Integration.IntegratedTrajectory` | utils.py:146-152 | with a known name, the rows both buffers have form a trajectory: each is the update of the row before |
| `Integration.IntegratedOverrun` | utils.py:146-152 | with a shorter velocity buffer of k rows, position row k holds the update of row k-1 that raised while being stored |
| `Integration.RunIntegration` | utils.py:138-155 | the outcome and the final contents of both buffers are exactly `Integrated` of their initial contents |
| `Integration.InitializeAndRun` | main.py:31-43 | with a known name, in any letter case, every row j is the j-th iterate of the initial state, and only an empty grid fails; an unknown name fails once there are two rows and leaves rows 1.. at zero |
| `Aphelion.Distances` | utils.py:88 | one distance per position row, each the norm of that row |
| `Aphelion.FirstArgMaxUnique` | utils.py:91 | a window has at most one first maximum |
| `Aphelion.ArgMaxFrom` | utils.py:91 | the result is the first index of the maximum of the window d[lo..] |
| `Aphelion.ArgMaxOfSlice` | utils.py:97 | argmax of the slice d[lo:] plus lo is the first maximum of d from lo on |
| `Aphelion.Cutoff` | utils.py:96 | the cutoff is max(1, n/20): at least one and at least n/20, equal to one of them, and it leaves at least one row when there are two or more |
| `Aphelion.AphelionIndex` | utils.py:88-97 | the chosen index is never 0 and lies in the run: the first maximum when that is after row 0, otherwise the first maximum from the cutoff on |
| `Aphelion.ComputeAphelion` | utils.py:84-102 | fewer than two rows raise; otherwise the result is the chosen index, its distance and its velocity row, or an IndexError when the velocity buffer has no such row |
| `Aphelion.AphelionRaw` | utils.py:88-102 | when the first maximum k is after row 0, it is reported as is: its distance is the largest and every earlier one is strictly smaller |
| `Aphelion.AphelionFallback` | utils.py:93-102 | when row 0 is the farthest, the report is the first maximum of the rows from the cutoff on, at an index not below the cutoff |
| `Aphelion.AphelionDistanceNonNegative` | utils.py:88-99 | under a Euclidean norm the reported distance is non-negative |
| `Aphelion.AphelionFallbackExample` | utils.py:84-102 | for distances 10, 1, 5, 2 the fallback skips row 0 and reports row 2 at distance 5 |
| `Config.GlobalColors` | utils.py:17 | the configured "colors" map, or the empty map when there is none |
| `Config.PlanetColors` | utils.py:18 | the planet's own "colors" map, or the empty map when the planet or its colours are absent |
| `Config.GetPlanetColors` | utils.py:16-19 | a missing "planets" key raises; otherwise every global and every planet key is present, the planet's value wins, and other keys keep the global value |
| `Config.PlanetWithoutColorsGetsGlobal` | utils.py:16-19 | an unknown planet, or one without "colors", gets exactly the global colours |
| `Config.PlanetColorsIdempotent` | utils.py:16-19 | resolving again with the resolved map as the global colours gives the same map |
| `Config.GetInitialConditions` | utils.py:25-34 | the position lies on the x axis and the velocity on the y axis, at right angles to each other; a missing "planets" key or planet raises a KeyError naming it |
| `Config.InitialConditionsRoundTrip` | utils.py:28-32 | dividing back by 1e9 and -1e3 recovers the configured distance and speed |
| `Config.InitialConditionsMissingField` | utils.py:26-32 | with the planet present, a missing position raises first, then a missing velocity; with both present, the call succeeds |
| `Config.TimeStep` | utils.py:45-46 | the step is 3600 without settings, the configured "time_step" with them, and a KeyError when the settings lack "time_step" |
| `Config.SimulationDays` | utils.py:48-51 | the planet's period wins over the configured default, which wins over 365 |
| `Config.Ceil` | utils.py:54 | the result is the least integer not below its argument |
| `Config.Arange` | utils.py:54 | a zero step raises; otherwise sample j is j·step |
| `Config.ArangeCovers` | utils.py:54 | with a positive step, every sample lies in [0, stop), and the number of samples times the step reaches stop |
| `Config.GetTimeSettings` | utils.py:39-56 | a zero step raises, and a missing "time_step" passes its KeyError on. Otherwise the configured step comes back, sample j is j·step, and for a positive step every sample lies in [0, days·86400) with samples·step reaching that duration. A negative step with a non-negative duration gives no samples |
| `Config.DefaultTimeGrid` | utils.py:45-54 | with no settings and no period configured, the grid has 8760 samples one hour apart |

## Left out

- `load_config` (utils.py:8-10): reading and parsing the JSON file is I/O. The model takes the parsed configuration as a `Configuration` value, and assumes every present key holds a value of the expected type.
- `plot_orbit_3d` and the plotting in main.py: presentation only.
- main.py binds concrete values: the configured planet and method, G = 6.6743e-11 and M = 1.989e30. `InitializeAndRun` takes the name, the initial state, the grid and the acceleration as parameters instead. The driver also calls `compute_aphelion` on the result, which `Aphelion.ComputeAphelion` models separately.
- Floating point: all quantities are exact reals. Rounding, overflow, NaN and infinity are not modelled. So neither is any claim about accuracy: the order of the schemes' errors, circular-orbit closure, and the Earth scenario's aphelion within 1%.
- `np.linalg.norm` is the parameter `norm`. Facts that need its meaning assume `IsEuclideanNorm`, since the model has no square root.
- Gravity.CreateAccelerationFn: the domain is stated in one direction only, "defined wherever the norm is positive". That the closure is undefined at the origin is not stated, because Dafny cannot prove anything about a lambda's domain beyond its `requires`.
- Gravity.AccelerationFnDomain: the same one direction, under a Euclidean norm.
- Integration.RunIntegration: it requires that the acceleration be defined at every point the steps evaluate (`CanRun`). At the origin numpy returns inf with a warning and the run goes on with NaN rows; the model does not follow a run through that point.
- Integration.InitializeAndRun: the same requirement, that the orbit from the initial state stays where the acceleration is defined for len(t) - 1 updates.
- Integration.RunIntegration: it requires the two buffers to be distinct arrays. Passing the same array twice is possible in Python but is not modelled.
- Integration.Lower: lower-cases ASCII letters only. Python's `str.lower` also maps non-ASCII letters.
- Aphelion.Cutoff: `int(len(r) * 0.05)` is modelled as the integer quotient `len(r) / 20`. This relies on 0.05 as a double being slightly above 1/20, so the rounded product does not fall below a whole n/20.
- Config.Arange: numpy computes the length of the grid in floating point and may return an integer grid. The model uses the exact ceiling of stop / step and real samples.
- `np.argmax` over NaN distances, and numpy's negative indices, do not arise in the model.
