/** Bare-cost correlations for the boiler, the pump and the steam turbine,
    the installed-cost adjustment, the out-of-range warnings, and the
    William power-law scaling rule. */
module Equipment {
  import opened Numeric
  import opened Results
  import CapitalFactors

  /** Why a cost could not be computed as a real number. */
  datatype CostError =
    | ComplexPower    // a negative base raised to a fractional exponent is complex in Python
    | DivisionByZero  // a zero reference capacity, or zero raised to a negative exponent

  /** The non-fatal warnings printed when a size is outside a correlation's
      documented validity range. */
  datatype Warning =
    | BoilerProductionOutOfBounds
    | BoilerPressureOutOfBounds
    | PumpCaudalOutOfBounds
    | TurbinePowerOutOfBounds

  /** A cost in whole currency units together with the warnings raised while
      computing it. */
  datatype Quote = Quote(cost: int, warnings: set<Warning>)

  /** Boiler bare cost for a vapor production (kg/h) and a pressure (bar).
      The linear formula applies below 20000 kg/h, and between 20000 and
      200000 kg/h when the pressure is in [15, 40); the power law applies
      everywhere else. */
  function BoilerCorrelation(production: real, pressure: real, pow: PowerFn): (c: int)
    ensures production < 20000.0 || (production < 200000.0 && 15.0 <= pressure < 40.0)
            ==> c == Trunc(106000.0 + 8.7 * production)
    ensures production >= 200000.0 || (production >= 20000.0 && (pressure < 15.0 || pressure >= 40.0))
            ==> c == Trunc(110000.0 + 4.5 * pow(production, 0.9))
  {
    var linear := 106000.0 + 8.7 * production;
    var powerLaw := 110000.0 + 4.5 * pow(production, 0.9);
    var correlation :=
      if production < 20000.0 then linear
      else if production < 200000.0 then
        (if pressure < 15.0 then powerLaw
         else if pressure < 40.0 then linear
         else powerLaw)
      else powerLaw;
    Trunc(correlation)
  }

  /** Centrifugal pump bare cost for a caudal (L/s). A negative caudal has no
      real power, and truncating the complex result fails. */
  function PumpCorrelation(caudal: real, pow: PowerFn): (r: Result<int, CostError>)
    ensures r.Err? <==> caudal < 0.0
    ensures r.Err? ==> r.error == ComplexPower
    ensures r.Ok? ==> r.value == Trunc(6900.0 + 206.0 * pow(caudal, 0.9))
    ensures r.Ok? && pow(caudal, 0.9) >= 0.0 ==> r.value >= 6900
  {
    if caudal < 0.0 then Err(ComplexPower)
    else Ok(Trunc(6900.0 + 206.0 * pow(caudal, 0.9)))
  }

  /** Steam turbine bare cost for a shaft power (kW). The constant term is
      negative, so small powers give a negative cost, truncated toward zero. */
  function TurbineCorrelation(power: real, pow: PowerFn): (r: Result<int, CostError>)
    ensures r.Err? <==> power < 0.0
    ensures r.Err? ==> r.error == ComplexPower
    ensures r.Ok? ==> r.value == Trunc(-12000.0 + 1630.0 * pow(power, 0.75))
    ensures r.Ok? && pow(power, 0.75) >= 0.0 ==> r.value >= -12000
  {
    if power < 0.0 then Err(ComplexPower)
    else Ok(Trunc(-12000.0 + 1630.0 * pow(power, 0.75)))
  }

  /** The installed cost: the bare cost times the installation multiplier,
      truncated again; a bare quote is returned unchanged. */
  function InstalledCost(bare: int, fm: real, installed: bool): (r: int)
    ensures !installed ==> r == bare
    ensures installed ==> r == Trunc(bare as real * (1.8 * fm + 1.4))
  {
    if installed then Scaled(bare, CapitalFactors.InstallationMultiplier(fm))
    else bare
  }

  /** A whole cost multiplied by `m` and truncated again, as `C *= ...`
      followed by `int(C)`. */
  function Scaled(cost: int, m: real): int
  {
    Trunc(cost as real * m)
  }

  /** Scaling by a non-negative multiplier preserves the order of costs. */
  lemma ScaledMonotone(a: int, b: int, m: real)
    requires a <= b && m >= 0.0
    ensures Scaled(a, m) <= Scaled(b, m)
  {
    var x, y := a as real, b as real;
    TruncScaledMonotone(x, y, m);
    assert Scaled(a, m) == Trunc(x * m);
    assert Scaled(b, m) == Trunc(y * m);
  }

  /** Installing never lowers a non-negative bare cost when the material
      factor is non-negative: the multiplier is then at least 1.4. */
  lemma InstalledNotBelowBare(bare: int, fm: real, installed: bool)
    requires bare >= 0 && fm >= 0.0
    ensures InstalledCost(bare, fm, installed) >= bare
  {
    if installed {
      var m := 1.8 * fm + 1.4;
      assert bare as real * m >= bare as real * 1.4;
      TruncOfInt(bare);
    }
  }

  /** With a non-negative material factor, a larger bare cost never gives a
      smaller installed cost. */
  lemma InstalledMonotone(a: int, b: int, fm: real, installed: bool)
    requires a <= b && fm >= 0.0
    ensures InstalledCost(a, fm, installed) <= InstalledCost(b, fm, installed)
  {
    if installed {
      ScaledMonotone(a, b, CapitalFactors.InstallationMultiplier(fm));
    }
  }

  /** Installed boiler cost with its warnings. The bounds are strict: a
      production of exactly 5000 or 800000 kg/h, or a pressure of exactly 10
      or 70 bar, raises no warning. */
  function Boiler(production: real, pressure: real, fm: real, installed: bool, pow: PowerFn): (q: Quote)
    ensures q.cost == InstalledCost(BoilerCorrelation(production, pressure, pow), fm, installed)
    ensures BoilerProductionOutOfBounds in q.warnings <==> production < 5000.0 || production > 800000.0
    ensures BoilerPressureOutOfBounds in q.warnings <==> pressure < 10.0 || pressure > 70.0
    ensures q.warnings <= {BoilerProductionOutOfBounds, BoilerPressureOutOfBounds}
  {
    var warnings :=
      (if production < 5000.0 || production > 800000.0 then {BoilerProductionOutOfBounds} else {})
      + (if pressure < 10.0 || pressure > 70.0 then {BoilerPressureOutOfBounds} else {});
    Quote(InstalledCost(BoilerCorrelation(production, pressure, pow), fm, installed), warnings)
  }

  /** Installed pump cost with its warning; fails as the correlation does. */
  function Pump(caudal: real, fm: real, installed: bool, pow: PowerFn): (r: Result<Quote, CostError>)
    ensures r.Err? <==> caudal < 0.0
    ensures r.Ok? ==> r.value.cost == InstalledCost(PumpCorrelation(caudal, pow).value, fm, installed)
    ensures r.Ok? ==> (r.value.warnings == {PumpCaudalOutOfBounds} <==> caudal < 0.2 || caudal > 126.0)
    ensures r.Ok? ==> r.value.warnings <= {PumpCaudalOutOfBounds}
  {
    match PumpCorrelation(caudal, pow)
    case Err(e) => Err(e)
    case Ok(bare) =>
      var warnings := if caudal < 0.2 || caudal > 126.0 then {PumpCaudalOutOfBounds} else {};
      Ok(Quote(InstalledCost(bare, fm, installed), warnings))
  }

  /** Installed steam turbine cost with its warning; fails as the correlation does. */
  function SteamTurbine(power: real, fm: real, installed: bool, pow: PowerFn): (r: Result<Quote, CostError>)
    ensures r.Err? <==> power < 0.0
    ensures r.Ok? ==> r.value.cost == InstalledCost(TurbineCorrelation(power, pow).value, fm, installed)
    ensures r.Ok? ==> (r.value.warnings == {TurbinePowerOutOfBounds} <==> power < 100.0 || power > 20000.0)
    ensures r.Ok? ==> r.value.warnings <= {TurbinePowerOutOfBounds}
  {
    match TurbineCorrelation(power, pow)
    case Err(e) => Err(e)
    case Ok(bare) =>
      var warnings := if power < 100.0 || power > 20000.0 then {TurbinePowerOutOfBounds} else {};
      Ok(Quote(InstalledCost(bare, fm, installed), warnings))
  }

  /** The boiler of the plant (10000 kg/h at 70 bar, carbon steel) takes the
      linear branch, costs 193000 bare and 3.2 times that installed, and
      raises no warning: 70 bar is on the boundary of the validity range. */
  lemma PlantBoilerCost(pow: PowerFn)
    ensures BoilerCorrelation(10000.0, 70.0, pow) == 193000
    ensures Boiler(10000.0, 70.0, 1.0, true, pow) == Quote(617600, {})
    ensures Boiler(10000.0, 70.0, 1.0, false, pow) == Quote(193000, {})
  {
    TruncOfInt(193000);
    TruncOfInt(617600);
  }

  /** The plant's capital cost: the boiler (10000 kg/h at 70 bar), the
      steam turbine (1500 kW) and the pump (2.84 L/s), all installed in
      carbon steel, plus the condenser scaled from 400000 at 15000 to 10000
      by the 0.8 power law. When the power terms are non-negative the total
      is at least 601280: the boiler's 617600, the turbine's floor of
      -38400 and the pump's floor of 22080. */
  function PlantCapex(pow: PowerFn): (capex: real)
    ensures pow(1500.0, 0.75) >= 0.0 && pow(2.84, 0.9) >= 0.0 && pow(10000.0 / 15000.0, 0.8) >= 0.0
            ==> capex >= 601280.0
  {
    PlantCapexBounds(pow);
    Boiler(10000.0, 70.0, 1.0, true, pow).cost as real
      + SteamTurbine(1500.0, 1.0, true, pow).value.cost as real
      + 400000.0 * pow(10000.0 / 15000.0, 0.8)
      + Pump(2.84, 1.0, true, pow).value.cost as real
  }

  lemma PlantCapexBounds(pow: PowerFn)
    ensures Boiler(10000.0, 70.0, 1.0, true, pow).cost == 617600
    ensures SteamTurbine(1500.0, 1.0, true, pow).Ok? && Pump(2.84, 1.0, true, pow).Ok?
    ensures pow(1500.0, 0.75) >= 0.0 ==> SteamTurbine(1500.0, 1.0, true, pow).value.cost >= -38400
    ensures pow(2.84, 0.9) >= 0.0 ==> Pump(2.84, 1.0, true, pow).value.cost >= 22080
  {
    PlantBoilerCost(pow);
    TruncOfInt(-38400);
    TruncOfInt(22080);
    if pow(1500.0, 0.75) >= 0.0 {
      InstalledMonotone(-12000, TurbineCorrelation(1500.0, pow).value, 1.0, true);
    }
    if pow(2.84, 0.9) >= 0.0 {
      InstalledMonotone(6900, PumpCorrelation(2.84, pow).value, 1.0, true);
    }
  }

  /** A small turbine shows that `int` truncates toward zero: a correlation
      value strictly between -1 and 0 gives a bare cost of 0, where floor
      would give -1. */
  lemma TurbineTruncatesTowardZero(power: real, pow: PowerFn)
    requires power >= 0.0
    requires -1.0 < -12000.0 + 1630.0 * pow(power, 0.75) < 0.0
    ensures TurbineCorrelation(power, pow) == Ok(0)
    ensures (-12000.0 + 1630.0 * pow(power, 0.75)).Floor == -1
  {
  }

  /** William's rule `cost_ref * (cap / cap_ref) ** n`: the cost at a new
      capacity scaled from a reference cost. */
  function WilliamCorrelation(costRef: real, cap: real, capRef: real, n: real, pow: PowerFn)
    : (r: Result<real, CostError>)
    ensures capRef == 0.0 ==> r == Err(DivisionByZero)
    ensures capRef != 0.0 && cap / capRef < 0.0 ==> r == Err(ComplexPower)
    ensures capRef != 0.0 && cap == 0.0 && n < 0.0 ==> r == Err(DivisionByZero)
    ensures capRef != 0.0 && cap / capRef >= 0.0 && !(cap == 0.0 && n < 0.0)
            ==> r == Ok(costRef * pow(cap / capRef, n))
  {
    if capRef == 0.0 then Err(DivisionByZero)
    else if cap / capRef < 0.0 then Err(ComplexPower)
    // the ratio is zero exactly when `cap` is
    else if cap == 0.0 && n < 0.0 then Err(DivisionByZero)
    else Ok(costRef * pow(cap / capRef, n))
  }
}
