/** The fixed table of installation-overhead factors, keyed by factor name
    and process phase, and the installed-cost multiplier built from it. */
module CapitalFactors {

  /** Row names of the table: piping-and-equipment erection, piping,
      instrumentation, electrical, civil, steel structures, lagging,
      offsites, design and engineering, contingency. */
  datatype Factor = Fer | Fp | Fi | Fel | Fc | Fs | Fl | OS | DE | X

  /** Column names of the table. */
  datatype Phase = Fluids | FluidsSolids | Solids

  /** The factor table; every factor is a fraction of the bare cost. */
  function FactorOf(f: Factor, phase: Phase): (r: real)
    ensures 0.0 < r < 1.0
  {
    var row := match f
      case Fer => [0.3, 0.5, 0.6]
      case Fp  => [0.8, 0.6, 0.2]
      case Fi  => [0.3, 0.3, 0.2]
      case Fel => [0.2, 0.2, 0.15]
      case Fc  => [0.3, 0.3, 0.2]
      case Fs  => [0.2, 0.2, 0.1]
      case Fl  => [0.1, 0.1, 0.05]
      case OS  => [0.3, 0.4, 0.4]
      case DE  => [0.35, 0.25, 0.2]
      case X   => [0.1, 0.1, 0.1];
    match phase
    case Fluids => row[0]
    case FluidsSolids => row[1]
    case Solids => row[2]
  }

  /** The multiplier applied to a bare cost with material factor `fm`, read
      from the "Fluids" column: piping scales with the material factor, the
      other installation factors are added on. */
  function InstallationMultiplier(fm: real): (m: real)
    ensures m == 1.8 * fm + 1.4
  {
    (1.0 + FactorOf(Fp, Fluids)) * fm
      + (FactorOf(Fer, Fluids) + FactorOf(Fel, Fluids) + FactorOf(Fi, Fluids)
         + FactorOf(Fc, Fluids) + FactorOf(Fs, Fluids) + FactorOf(Fl, Fluids))
  }
}
