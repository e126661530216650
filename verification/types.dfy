/** The planner's configuration state (app/page.tsx:34-88): global defaults,
    presets and per-scenario configurations. */
module Types {
  import opened Wrappers

  /** The six tunable funnel inputs, one per key of a scenario's `useGlobal` record. */
  datatype Field = Spend | Cpm | Ctr | Cvr | AvgGift | Fpp

  /** A complete set of funnel inputs: the global defaults, or a scenario's
      effective values once overrides are resolved. `fpp` is the funds raised
      per participant. */
  datatype Inputs = Inputs(spend: real, cpm: real, ctr: real, cvr: real, avgGift: real, fpp: real) {

    function Get(f: Field): real {
      match f
      case Spend => spend
      case Cpm => cpm
      case Ctr => ctr
      case Cvr => cvr
      case AvgGift => avgGift
      case Fpp => fpp
    }
  }

  /** A scenario's `useGlobal` record: `true` means the field inherits the global value. */
  datatype Flags = Flags(spend: bool, cpm: bool, ctr: bool, cvr: bool, avgGift: bool, fpp: bool) {

    function Get(f: Field): bool {
      match f
      case Spend => spend
      case Cpm => cpm
      case Ctr => ctr
      case Cvr => cvr
      case AvgGift => avgGift
      case Fpp => fpp
    }

    /** `{ ...useGlobal, [f]: b }`. */
    function Set(f: Field, b: bool): (r: Flags)
      ensures r.Get(f) == b
      ensures forall g :: g != f ==> r.Get(g) == Get(g)
    {
      match f
      case Spend => this.(spend := b)
      case Cpm => this.(cpm := b)
      case Ctr => this.(ctr := b)
      case Cvr => this.(cvr := b)
      case AvgGift => this.(avgGift := b)
      case Fpp => this.(fpp := b)
    }
  }

  const AllGlobal := Flags(true, true, true, true, true, true)

  /** A scenario's optional local values (`spend?`, `cpm?`, ...), kept even while inherited. */
  datatype Locals = Locals(spend: Option<real>, cpm: Option<real>, ctr: Option<real>,
                           cvr: Option<real>, avgGift: Option<real>, fpp: Option<real>) {

    function Get(f: Field): Option<real> {
      match f
      case Spend => spend
      case Cpm => cpm
      case Ctr => ctr
      case Cvr => cvr
      case AvgGift => avgGift
      case Fpp => fpp
    }
  }

  const NoLocals := Locals(None, None, None, None, None, None)

  datatype Mode = Derived | Locked

  /** Which input a locked CPA is solved for. */
  datatype SolveFor = SolveCvr | SolveCtr | SolveCpm

  /** The named presets (app/page.tsx:60-64). */
  datatype PresetKey = Conservative | Midpoint | Meta

  datatype Preset = Preset(name: string, cpm: real, ctr: real, cvr: real)

  /** The preset table; every preset has a positive cpm and rates strictly
      between 0 and 1, so each derives a CPA. */
  function PresetOf(k: PresetKey): (p: Preset)
    ensures p.cpm > 0.0 && 0.0 < p.ctr < 1.0 && 0.0 < p.cvr < 1.0
    ensures |p.name| > 0
  {
    match k
    case Conservative => Preset("Conservative", 15.0, 0.008, 0.012)
    case Midpoint => Preset("Midpoint", 12.5, 0.01, 0.02)
    case Meta => Preset("Meta Bench", 12.0, 0.015, 0.025)
  }

  /** A scenario's preset choice: `"inherit"` or one of the named presets. */
  /** The presets carry distinct labels. */
  lemma PresetLabelsDistinct(k1: PresetKey, k2: PresetKey)
    requires PresetOf(k1).name == PresetOf(k2).name
    ensures k1 == k2
  {
    assert PresetOf(Conservative).name[0] == 'C';
    assert PresetOf(Midpoint).name[1] == 'i';
    assert PresetOf(Meta).name[1] == 'e';
  }

  datatype ScenarioPreset = Inherit | Named(key: PresetKey)

  datatype ScenarioConfig = ScenarioConfig(
    name: string,
    color: string,
    useGlobal: Flags,
    local: Locals,
    mode: Mode,
    manualCPA: Option<real>,
    solveFor: Option<SolveFor>,
    preset: Option<ScenarioPreset>)

  /** The whole mutable state of the page: the global preset key, the global
      defaults and the ordered scenario list. */
  datatype PlannerState = PlannerState(presetKey: PresetKey, globals: Inputs, scenarios: seq<ScenarioConfig>)
}
