/** The configuration updates of app/page.tsx:77-102, lifted out of React's
    state setters as pure transformations of the planner state. */
module Config {
  import opened Wrappers
  import opened Types

  /** `applyPreset` (app/page.tsx:77-82): records the preset key and overwrites
      the global cpm, ctr and cvr with the preset's values; nothing else changes. */
  function ApplyPreset(p: PlannerState, key: PresetKey): (q: PlannerState)
    ensures q.presetKey == key
    ensures q.globals.cpm == PresetOf(key).cpm
    ensures q.globals.ctr == PresetOf(key).ctr
    ensures q.globals.cvr == PresetOf(key).cvr
    ensures q.globals.spend == p.globals.spend
    ensures q.globals.avgGift == p.globals.avgGift
    ensures q.globals.fpp == p.globals.fpp
    ensures q.scenarios == p.scenarios
  {
    var preset := PresetOf(key);
    p.(presetKey := key, globals := p.globals.(cpm := preset.cpm, ctr := preset.ctr, cvr := preset.cvr))
  }

  /** A `Partial<ScenarioConfig>`: `Some(v)` means the key is present in the patch. */
  datatype Patch = Patch(
    name: Option<string>,
    color: Option<string>,
    useGlobal: Option<Flags>,
    spend: Option<real>,
    cpm: Option<real>,
    ctr: Option<real>,
    cvr: Option<real>,
    avgGift: Option<real>,
    fpp: Option<real>,
    mode: Option<Mode>,
    manualCPA: Option<real>,
    solveFor: Option<SolveFor>,
    preset: Option<ScenarioPreset>)

  {
    /** The patch's entry for one of the six input fields. */
    function Get(f: Field): Option<real> {
      match f
      case Spend => spend
      case Cpm => cpm
      case Ctr => ctr
      case Cvr => cvr
      case AvgGift => avgGift
      case Fpp => fpp
    }
  }

  const EmptyPatch := Patch(None, None, None, None, None, None, None, None, None, None, None, None, None)

  /** The local values after the spread: a field the patch sets takes the
      patch's value, any other keeps the scenario's. */
  function PatchLocals(l: Locals, p: Patch): (r: Locals)
    ensures forall f :: p.Get(f).Some? ==> r.Get(f) == p.Get(f)
    ensures forall f :: p.Get(f).None? ==> r.Get(f) == l.Get(f)
  {
    Locals(
      if p.spend.Some? then p.spend else l.spend,
      if p.cpm.Some? then p.cpm else l.cpm,
      if p.ctr.Some? then p.ctr else l.ctr,
      if p.cvr.Some? then p.cvr else l.cvr,
      if p.avgGift.Some? then p.avgGift else l.avgGift,
      if p.fpp.Some? then p.fpp else l.fpp)
  }

  /** The spread `{ ...s, ...patch }`: every key present in the patch wins,
      every absent key keeps the scenario's value, and the empty patch changes
      nothing. */
  function ApplyPatch(s: ScenarioConfig, p: Patch): (r: ScenarioConfig)
    ensures r.local == PatchLocals(s.local, p)
    ensures (p.name.Some? ==> r.name == p.name.value) && (p.name.None? ==> r.name == s.name)
    ensures (p.color.Some? ==> r.color == p.color.value) && (p.color.None? ==> r.color == s.color)
    ensures (p.useGlobal.Some? ==> r.useGlobal == p.useGlobal.value) && (p.useGlobal.None? ==> r.useGlobal == s.useGlobal)
    ensures (p.mode.Some? ==> r.mode == p.mode.value) && (p.mode.None? ==> r.mode == s.mode)
    ensures (p.manualCPA.Some? ==> r.manualCPA == p.manualCPA) && (p.manualCPA.None? ==> r.manualCPA == s.manualCPA)
    ensures (p.solveFor.Some? ==> r.solveFor == p.solveFor) && (p.solveFor.None? ==> r.solveFor == s.solveFor)
    ensures (p.preset.Some? ==> r.preset == p.preset) && (p.preset.None? ==> r.preset == s.preset)
    ensures p == EmptyPatch ==> r == s
  {
    ScenarioConfig(
      p.name.GetOr(s.name),
      p.color.GetOr(s.color),
      p.useGlobal.GetOr(s.useGlobal),
      PatchLocals(s.local, p),
      p.mode.GetOr(s.mode),
      if p.manualCPA.Some? then p.manualCPA else s.manualCPA,
      if p.solveFor.Some? then p.solveFor else s.solveFor,
      if p.preset.Some? then p.preset else s.preset)
  }

  /** `updateScenario` (app/page.tsx:90-91): patches the scenario at index `i`;
      an index outside the list matches no element and changes nothing. */
  function UpdateScenario(ss: seq<ScenarioConfig>, i: int, p: Patch): (r: seq<ScenarioConfig>)
    ensures |r| == |ss|
    ensures forall j :: 0 <= j < |ss| && j != i ==> r[j] == ss[j]
    ensures 0 <= i < |ss| ==> r[i] == ApplyPatch(ss[i], p)
  {
    seq(|ss|, j requires 0 <= j < |ss| => if j == i then ApplyPatch(ss[j], p) else ss[j])
  }

  /** `updateUseGlobal` (app/page.tsx:92-93): sets one inherit flag of scenario `i`.
      The scenario's local values, its other flags and every other scenario are kept. */
  function UpdateUseGlobal(ss: seq<ScenarioConfig>, i: int, f: Field, val: bool): (r: seq<ScenarioConfig>)
    ensures |r| == |ss|
    ensures forall j :: 0 <= j < |ss| && j != i ==> r[j] == ss[j]
    ensures 0 <= i < |ss| ==> r[i].useGlobal.Get(f) == val
    ensures 0 <= i < |ss| ==> forall g :: g != f ==> r[i].useGlobal.Get(g) == ss[i].useGlobal.Get(g)
    ensures 0 <= i < |ss| ==> r[i] == ss[i].(useGlobal := r[i].useGlobal)
  {
    seq(|ss|, j requires 0 <= j < |ss| =>
      if j == i then ss[j].(useGlobal := ss[j].useGlobal.Set(f, val)) else ss[j])
  }

  /** `applyScenarioPreset` (app/page.tsx:95-102). It reads `scenarios[i].useGlobal`
      before patching, so an index outside the list raises a TypeError: `None`.
      "inherit" turns the cpm, ctr and cvr flags on and keeps the local values;
      a named preset writes its rates as local values and turns those flags off. */
  function ApplyScenarioPreset(ss: seq<ScenarioConfig>, i: int, key: ScenarioPreset): (r: Option<seq<ScenarioConfig>>)
    ensures r.None? <==> !(0 <= i < |ss|)
    ensures r.Some? ==> |r.value| == |ss|
    ensures r.Some? ==> forall j :: 0 <= j < |ss| && j != i ==> r.value[j] == ss[j]
    ensures r.Some? && key == Inherit ==>
      r.value[i] == ss[i].(preset := Some(Inherit),
                           useGlobal := ss[i].useGlobal.(cpm := true, ctr := true, cvr := true))
    ensures r.Some? && key.Named? ==>
      r.value[i] == ss[i].(preset := Some(key),
                           local := ss[i].local.(cpm := Some(PresetOf(key.key).cpm),
                                                 ctr := Some(PresetOf(key.key).ctr),
                                                 cvr := Some(PresetOf(key.key).cvr)),
                           useGlobal := ss[i].useGlobal.(cpm := false, ctr := false, cvr := false))
  {
    if !(0 <= i < |ss|) then None
    else
      var flags := ss[i].useGlobal;
      match key
      case Inherit =>
        Some(UpdateScenario(ss, i, EmptyPatch.(preset := Some(Inherit),
                                               useGlobal := Some(flags.(cpm := true, ctr := true, cvr := true)))))
      case Named(k) =>
        var p := PresetOf(k);
        Some(UpdateScenario(ss, i, EmptyPatch.(preset := Some(key), cpm := Some(p.cpm), ctr := Some(p.ctr),
                                               cvr := Some(p.cvr),
                                               useGlobal := Some(flags.(cpm := false, ctr := false, cvr := false)))))
  }
}
