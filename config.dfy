/** The configuration helpers of the orbit engine: colour resolution, the
    initial state in SI units, and the time grid.  A configuration is the
    parsed JSON document; a key that may be absent is an `Option`. */
module Config {
  import opened Vectors
  import opened Results

  type ColorMap = map<string, string>

  /** One entry of the "planets" object. */
  datatype PlanetConfig = PlanetConfig(
    colors: Option<ColorMap>,
    positionAtPerihelion: Option<real>,   // million km
    velocityAtPerihelion: Option<real>,   // km/s
    orbitalPeriodDays: Option<real>)

  /** The "numerical_method_settings" object. */
  datatype MethodSettings = MethodSettings(timeStep: Option<real>)

  /** The top-level configuration object. */
  datatype Configuration = Configuration(
    colors: Option<ColorMap>,
    planets: Option<map<string, PlanetConfig>>,
    numericalMethodSettings: Option<MethodSettings>,
    defaultSimulationDays: Option<real>)

  // ---------------------------------------------------------------------
  // get_planet_colors
  // ---------------------------------------------------------------------

  /** `cfg.get("colors", {})`. */
  function GlobalColors(cfg: Configuration): (colors: ColorMap)
    ensures cfg.colors.Some? ==> colors == cfg.colors.value
    ensures cfg.colors.None? ==> colors == map[]
  {
    cfg.colors.GetOr(map[])
  }

  /** `planets.get(planet_name, {}).get("colors", {})`. */
  function PlanetColors(planets: map<string, PlanetConfig>, name: string): (colors: ColorMap)
    ensures name in planets && planets[name].colors.Some? ==> colors == planets[name].colors.value
    ensures name !in planets || planets[name].colors.None? ==> colors == map[]
  {
    if name in planets then planets[name].colors.GetOr(map[]) else map[]
  }

  /** `get_planet_colors`: the global colours overridden key by key by the
      planet's own.  Looking up "planets" raises a KeyError when it is
      missing. */
  function GetPlanetColors(cfg: Configuration, name: string): (res: Result<ColorMap>)
    ensures cfg.planets.None? <==> res.Err?
    ensures res.Err? ==> res.error == MissingKey("planets")
    ensures res.Ok? ==>
      var global, own := GlobalColors(cfg), PlanetColors(cfg.planets.value, name);
      (forall key :: key in res.value <==> key in global || key in own) &&
      (forall key :: key in own ==> res.value[key] == own[key]) &&
      (forall key :: key in global && key !in own ==> res.value[key] == global[key])
  {
    match cfg.planets
    case None => Err(MissingKey("planets"))
    case Some(planets) => Ok(GlobalColors(cfg) + PlanetColors(planets, name))
  }

  /** A planet without an entry, or whose entry has no "colors", gets exactly
      the global colours. */
  lemma PlanetWithoutColorsGetsGlobal(cfg: Configuration, name: string)
    requires cfg.planets.Some?
    requires name !in cfg.planets.value || cfg.planets.value[name].colors.None?
    ensures GetPlanetColors(cfg, name) == Ok(GlobalColors(cfg))
  {
    assert PlanetColors(cfg.planets.value, name) == map[];
    assert GlobalColors(cfg) + map[] == GlobalColors(cfg);
  }

  /** Resolving the colours twice, with the result installed as the global
      map, changes nothing: the planet's overrides are already in place. */
  lemma PlanetColorsIdempotent(cfg: Configuration, name: string)
    requires cfg.planets.Some?
    ensures var resolved := GetPlanetColors(cfg, name).value;
      GetPlanetColors(cfg.(colors := Some(resolved)), name) == Ok(resolved)
  {
    var resolved := GetPlanetColors(cfg, name).value;
    var own := PlanetColors(cfg.planets.value, name);
    assert resolved + own == resolved;
  }

  // ---------------------------------------------------------------------
  // get_initial_conditions
  // ---------------------------------------------------------------------

  /** Metres in a million kilometres, and metres per second in a kilometre
      per second. */
  const MetresPerMillionKm: real := 1000000000.0
  const MetresPerKm: real := 1000.0

  /** `get_initial_conditions`: the perihelion distance on the x axis and the
      perihelion speed along -y, converted to SI units.  KeyErrors follow the
      order of the lookups. */
  function GetInitialConditions(cfg: Configuration, name: string): (res: Result<(Vec, Vec)>)
    ensures res.Ok? ==> res.value.0.y == 0.0 && res.value.1.x == 0.0
    ensures res.Ok? ==> res.value.0.Dot(res.value.1) == 0.0
    ensures cfg.planets.None? ==> res == Err(MissingKey("planets"))
    ensures cfg.planets.Some? && name !in cfg.planets.value ==> res == Err(MissingKey(name))
  {
    match cfg.planets
    case None => Err(MissingKey("planets"))
    case Some(planets) =>
      if name !in planets then Err(MissingKey(name))
      else
        var planet := planets[name];
        match planet.positionAtPerihelion
        case None => Err(MissingKey("position_at_perihelion"))
        case Some(distance) =>
          match planet.velocityAtPerihelion
          case None => Err(MissingKey("velocity_at_perihelion"))
          case Some(speed) =>
            Ok((Vec(distance * MetresPerMillionKm, 0.0), Vec(0.0, -(speed * MetresPerKm))))
  }

  /** The conversion loses nothing: dividing back gives the configured
      distance in million km and speed in km/s. */
  lemma InitialConditionsRoundTrip(cfg: Configuration, name: string)
    requires GetInitialConditions(cfg, name).Ok?
    ensures var planet, state := cfg.planets.value[name], GetInitialConditions(cfg, name).value;
      planet.positionAtPerihelion == Some(state.0.x / MetresPerMillionKm) &&
      planet.velocityAtPerihelion == Some(-state.1.y / MetresPerKm)
  {
  }

  /** With the planet present, the remaining KeyErrors name the missing field,
      position first. */
  lemma InitialConditionsMissingField(cfg: Configuration, name: string)
    requires cfg.planets.Some? && name in cfg.planets.value
    ensures var planet := cfg.planets.value[name];
      (planet.positionAtPerihelion.None? ==>
        GetInitialConditions(cfg, name) == Err(MissingKey("position_at_perihelion"))) &&
      (planet.positionAtPerihelion.Some? && planet.velocityAtPerihelion.None? ==>
        GetInitialConditions(cfg, name) == Err(MissingKey("velocity_at_perihelion"))) &&
      (planet.positionAtPerihelion.Some? && planet.velocityAtPerihelion.Some? ==>
        GetInitialConditions(cfg, name).Ok?)
  {
  }

  // ---------------------------------------------------------------------
  // get_time_settings
  // ---------------------------------------------------------------------

  const DefaultTimeStep: real := 3600.0
  const DefaultSimulationDays: real := 365.0
  const SecondsPerDay: real := 86400.0

  /** The time step: from "numerical_method_settings" when that object is
      present (a KeyError if it lacks "time_step"), one hour otherwise. */
  function TimeStep(cfg: Configuration): (res: Result<real>)
    ensures cfg.numericalMethodSettings.None? ==> res == Ok(DefaultTimeStep)
    ensures res.Err? <==> cfg.numericalMethodSettings.Some? && cfg.numericalMethodSettings.value.timeStep.None?
    ensures res.Err? ==> res.error == MissingKey("time_step")
    ensures cfg.numericalMethodSettings.Some? && cfg.numericalMethodSettings.value.timeStep.Some? ==>
      res == Ok(cfg.numericalMethodSettings.value.timeStep.value)
  {
    match cfg.numericalMethodSettings
    case None => Ok(DefaultTimeStep)
    case Some(settings) =>
      match settings.timeStep
      case None => Err(MissingKey("time_step"))
      case Some(step) => Ok(step)
  }

  /** The simulated duration in days: the planet's orbital period, else the
      configured default, else 365. */
  function SimulationDays(cfg: Configuration, planet: PlanetConfig): (days: real)
    ensures planet.orbitalPeriodDays.Some? ==> days == planet.orbitalPeriodDays.value
    ensures planet.orbitalPeriodDays.None? && cfg.defaultSimulationDays.Some? ==>
      days == cfg.defaultSimulationDays.value
    ensures planet.orbitalPeriodDays.None? && cfg.defaultSimulationDays.None? ==>
      days == DefaultSimulationDays
  {
    planet.orbitalPeriodDays.GetOr(cfg.defaultSimulationDays.GetOr(DefaultSimulationDays))
  }

  /** The least integer not below `c`. */
  function Ceil(c: real): (n: int)
    ensures n as real >= c
    ensures (n - 1) as real < c
  {
    -((-c).Floor)
  }

  /** `np.arange(0, stop, step)` over exact reals: the multiples j·step for
      j below ceil(stop / step), and none when that is not positive.  A zero
      step raises. */
  function Arange(stop: real, step: real): (res: Result<seq<real>>)
    ensures res.Err? <==> step == 0.0
    ensures res.Err? ==> res.error == ZeroStep
    ensures res.Ok? ==> forall j :: 0 <= j < |res.value| ==> res.value[j] == j as real * step
  {
    if step == 0.0 then Err(ZeroStep)
    else
      var count := Ceil(stop / step);
      Ok(seq(if count > 0 then count else 0, j => j as real * step))
  }

  /** With a positive step the grid is exactly the multiples of the step in
      [0, stop): every sample lies in that interval and the next multiple
      does not. */
  lemma ArangeCovers(stop: real, step: real)
    requires step > 0.0
    ensures var t := Arange(stop, step).value;
      (forall j :: 0 <= j < |t| ==> 0.0 <= t[j] < stop) &&
      |t| as real * step >= stop
  {
    var t := Arange(stop, step).value;
    var c := stop / step;
    var count := Ceil(c);
    QuotientTimesDivisor(stop, step);
    assert |t| == if count > 0 then count else 0;
    assert |t| as real >= c;
    MulMonotone(c, |t| as real, step);
    forall j | 0 <= j < |t|
      ensures 0.0 <= t[j] < stop
    {
      var x := j as real;
      assert x < c;
      assert t[j] == x * step;
      SampleInRange(x, c, step, stop);
    }
  }

  lemma SampleInRange(x: real, c: real, step: real, stop: real)
    requires 0.0 <= x < c && step > 0.0 && c * step == stop
    ensures 0.0 <= x * step < stop
  {
    MulMonotone(0.0, x, step);
    MulStrictlyMonotone(x, c, step);
  }

  lemma QuotientTimesDivisor(p: real, q: real)
    requires q != 0.0
    ensures p / q * q == p
  {
  }

  lemma MulMonotone(a: real, b: real, k: real)
    requires a <= b && k > 0.0
    ensures a * k <= b * k
  {
  }

  lemma MulStrictlyMonotone(a: real, b: real, k: real)
    requires a < b && k > 0.0
    ensures a * k < b * k
  {
  }

  /** What `get_time_settings` returns: the step and the sample times. */
  datatype TimeSettings = TimeSettings(timeStep: real, t: seq<real>)

  /** `get_time_settings`: the configured step and the grid of its multiples
      in [0, duration), the duration being the simulated days in seconds.  A
      negative step with a non-negative duration gives no samples; a zero
      step raises. */
  function GetTimeSettings(cfg: Configuration, planet: PlanetConfig): (res: Result<TimeSettings>)
    ensures TimeStep(cfg).Err? ==> res == Err(TimeStep(cfg).error)
    ensures TimeStep(cfg).Ok? ==>
      var step, tMax := TimeStep(cfg).value, SimulationDays(cfg, planet) * SecondsPerDay;
      (step == 0.0 <==> res == Err(ZeroStep)) &&
      (step != 0.0 ==> res.Ok? && res.value.timeStep == step &&
                       (forall j :: 0 <= j < |res.value.t| ==> res.value.t[j] == j as real * step)) &&
      (step > 0.0 ==>
        (forall j :: 0 <= j < |res.value.t| ==> 0.0 <= res.value.t[j] < tMax) &&
        |res.value.t| as real * step >= tMax) &&
      (step < 0.0 && tMax >= 0.0 ==> res.value.t == [])
  {
    match TimeStep(cfg)
    case Err(e) => Err(e)
    case Ok(step) =>
      var tMax := SimulationDays(cfg, planet) * 24.0 * 3600.0;
      ArangeGrid(tMax, step);
      match Arange(tMax, step)
      case Err(e) => Err(e)
      case Ok(t) => Ok(TimeSettings(step, t))
  }

  /** `ArangeCovers` for a positive step; a negative step and a non-negative
      stop give an empty grid. */
  lemma ArangeGrid(stop: real, step: real)
    ensures step > 0.0 ==>
      var t := Arange(stop, step).value;
      (forall j :: 0 <= j < |t| ==> 0.0 <= t[j] < stop) && |t| as real * step >= stop
    ensures step < 0.0 && stop >= 0.0 ==> Arange(stop, step).value == []
  {
    if step > 0.0 {
      ArangeCovers(stop, step);
    } else if step < 0.0 && stop >= 0.0 {
      QuotientNonPositive(stop, step);
    }
  }

  lemma QuotientNonPositive(p: real, q: real)
    requires p >= 0.0 && q < 0.0
    ensures p / q <= 0.0
  {
    QuotientTimesDivisor(p, q);
    PositiveTimesNegative(p / q, q);
  }

  lemma PositiveTimesNegative(a: real, b: real)
    requires b < 0.0
    ensures a > 0.0 ==> a * b < 0.0
  {
    if a > 0.0 {
      MulStrictlyMonotone(0.0, a, -b);
    }
  }

  /** With no settings and no period anywhere, the grid is one year at hourly
      steps: 8760 samples. */
  lemma DefaultTimeGrid(cfg: Configuration, planet: PlanetConfig)
    requires cfg.numericalMethodSettings.None? && cfg.defaultSimulationDays.None?
    requires planet.orbitalPeriodDays.None?
    ensures GetTimeSettings(cfg, planet).Ok?
    ensures GetTimeSettings(cfg, planet).value.timeStep == 3600.0
    ensures |GetTimeSettings(cfg, planet).value.t| == 8760
  {
    assert 365.0 * 24.0 * 3600.0 / 3600.0 == 8760.0;
  }
}
