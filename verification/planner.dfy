/** The page as a whole: its initial state (app/page.tsx:69-88), the
    recomputation of resolved scenarios and display rows from the state, and
    properties that tie the configuration updates, the resolver and the
    projector together. */
module Planner {
  import opened Wrappers
  import opened Types
  import opened Config
  import opened Resolver
  import opened Projector

  const Green := "#C1D32F"
  const Blue := "#008ACE"
  const Dark := "#005781"

  function InitialScenario(name: string, color: string, manual: real): ScenarioConfig {
    ScenarioConfig(name, color, AllGlobal, NoLocals, Derived, Some(manual), Some(SolveCvr), Some(Inherit))
  }

  /** The state the page starts in. */
  const Initial := PlannerState(
    Midpoint,
    Inputs(5000.0, 12.5, 0.01, 0.02, 62.5, 2000.0),
    [InitialScenario("Scenario A", Green, 800.0),
     InitialScenario("Scenario B", Blue, 400.0),
     InitialScenario("Scenario C", Dark, 50.0)])

  /** The initial state: the Midpoint preset's rates are the global rates, and
      every scenario inherits all six inputs in derived mode, so each resolves
      to exactly the globals. */
  lemma InitialState()
    ensures Initial.presetKey == Midpoint
    ensures Initial.globals == Inputs(5000.0, 12.5, 0.01, 0.02, 62.5, 2000.0)
    ensures var p := PresetOf(Initial.presetKey);
      Initial.globals.cpm == p.cpm && Initial.globals.ctr == p.ctr && Initial.globals.cvr == p.cvr
    ensures |Initial.scenarios| == 3
    ensures forall i :: 0 <= i < |Initial.scenarios| ==>
      var s := Initial.scenarios[i];
      && s.useGlobal == AllGlobal && s.local == NoLocals && s.mode == Derived
      && s.solveFor == Some(SolveCvr) && s.preset == Some(Inherit)
      && ResolveInputs(Initial.globals, s) == Initial.globals
    ensures Initial.scenarios[0].name == "Scenario A" && Initial.scenarios[0].color == Green
      && Initial.scenarios[0].manualCPA == Some(800.0)
    ensures Initial.scenarios[1].name == "Scenario B" && Initial.scenarios[1].color == Blue
      && Initial.scenarios[1].manualCPA == Some(400.0)
    ensures Initial.scenarios[2].name == "Scenario C" && Initial.scenarios[2].color == Dark
      && Initial.scenarios[2].manualCPA == Some(50.0)
  {
  }

  /** `effective` and `rows` (app/page.tsx:113-182): one resolved scenario and
      one display row per configured scenario, in the same order. */
  function Recompute(p: PlannerState): (out: (seq<Resolved>, seq<Row>))
    ensures |out.0| == |p.scenarios| && |out.1| == |p.scenarios|
    ensures forall i :: 0 <= i < |p.scenarios| ==>
      out.0[i] == Resolve(p.globals, p.scenarios[i]) && out.1[i] == Project(out.0[i])
    ensures forall i :: 0 <= i < |p.scenarios| ==>
      out.1[i].scenario == p.scenarios[i].name && out.1[i].color == p.scenarios[i].color
  {
    var effective := seq(|p.scenarios|, i requires 0 <= i < |p.scenarios| => Resolve(p.globals, p.scenarios[i]));
    (effective, seq(|effective|, i requires 0 <= i < |effective| => Project(effective[i])))
  }

  /** A scenario fully inheriting the initial globals, in derived mode. */
  lemma DerivedExample()
    ensures Recompute(Initial).0[0].cpa == Some(62.5)
    ensures Recompute(Initial).1[0] ==
      Row("Scenario A", Green, 5000.0, 400000, 4000, 80, 2560, 160000, Some(3200.0), Some(62.5))
  {
    var x := Initial.globals;
    assert Funnel(x) == Stages(400000.0, 4000.0, 80.0, 32.0, 2560.0, 160000.0);
  }

  /** The same scenario locked at a CPA of 800, solving for cvr. */
  lemma LockedCvrExample()
    ensures var s := Initial.scenarios[0].(mode := Locked);
      Resolve(Initial.globals, s) ==
        Resolved("Scenario A", Green, Initial.globals.(cvr := 0.0015625), Some(800.0),
                 Some(Solved(SolveCvr, Some(0.0015625), false)))
  {
  }

  /** Solving for cpm at ctr 0.01, cvr 0.02 and a CPA of 50 gives a cpm of 10. */
  lemma LockedCpmExample()
    ensures var s := Initial.scenarios[2].(mode := Locked, solveFor := Some(SolveCpm));
      Resolve(Initial.globals, s).inputs.cpm == 10.0 && !Resolve(Initial.globals, s).solved.value.outOfBounds
  {
  }

  /** Inheriting a field hides its local value without erasing it: with the
      flag on the field resolves to the global value, and turning the flag off
      again brings the earlier local value back. */
  lemma OverrideSurvivesInheritance(g: Inputs, ss: seq<ScenarioConfig>, i: int, f: Field)
    requires 0 <= i < |ss| && ss[i].local.Get(f).Some?
    ensures ResolveInputs(g, UpdateUseGlobal(ss, i, f, true)[i]).Get(f) == g.Get(f)
    ensures ResolveInputs(g, UpdateUseGlobal(UpdateUseGlobal(ss, i, f, true), i, f, false)[i]).Get(f)
            == ss[i].local.Get(f).value
  {
    var on := UpdateUseGlobal(ss, i, f, true);
    var off := UpdateUseGlobal(on, i, f, false);
    assert on[i].local == ss[i].local;
    assert off[i].local == ss[i].local;
  }

  /** After a named scenario preset, the scenario's cpm, ctr and cvr resolve
      to the preset's values whatever the globals are. */
  lemma NamedPresetPinsRates(g: Inputs, ss: seq<ScenarioConfig>, i: int, k: PresetKey)
    requires 0 <= i < |ss|
    ensures var t := ApplyScenarioPreset(ss, i, Named(k)).value[i];
      && ResolveInputs(g, t).cpm == PresetOf(k).cpm
      && ResolveInputs(g, t).ctr == PresetOf(k).ctr
      && ResolveInputs(g, t).cvr == PresetOf(k).cvr
      && ResolveInputs(g, t).spend == ResolveInputs(g, ss[i]).spend
      && ResolveInputs(g, t).avgGift == ResolveInputs(g, ss[i]).avgGift
      && ResolveInputs(g, t).fpp == ResolveInputs(g, ss[i]).fpp
  {
    var t := ApplyScenarioPreset(ss, i, Named(k)).value[i];
    assert t.useGlobal.Get(Cpm) == false && t.local.Get(Cpm) == Some(PresetOf(k).cpm);
    assert t.useGlobal.Get(Ctr) == false && t.local.Get(Ctr) == Some(PresetOf(k).ctr);
    assert t.useGlobal.Get(Cvr) == false && t.local.Get(Cvr) == Some(PresetOf(k).cvr);
  }

  /** Going back to "inherit" after a named preset makes the rates follow the
      globals again, while the preset's rates stay stored as local values. */
  lemma InheritAfterNamedPreset(g: Inputs, ss: seq<ScenarioConfig>, i: int, k: PresetKey)
    requires 0 <= i < |ss|
    ensures var t := ApplyScenarioPreset(ApplyScenarioPreset(ss, i, Named(k)).value, i, Inherit).value[i];
      && ResolveInputs(g, t).cpm == g.cpm
      && ResolveInputs(g, t).ctr == g.ctr
      && ResolveInputs(g, t).cvr == g.cvr
      && t.local.cpm == Some(PresetOf(k).cpm)
      && t.local.ctr == Some(PresetOf(k).ctr)
      && t.local.cvr == Some(PresetOf(k).cvr)
  {
    var t := ApplyScenarioPreset(ApplyScenarioPreset(ss, i, Named(k)).value, i, Inherit).value[i];
    assert t.useGlobal.Get(Cpm) && t.useGlobal.Get(Ctr) && t.useGlobal.Get(Cvr);
  }

  /** A global preset reaches every scenario that inherits cpm, ctr and cvr. */
  lemma GlobalPresetReachesInheritors(p: PlannerState, k: PresetKey, i: int)
    requires 0 <= i < |p.scenarios|
    requires var u := p.scenarios[i].useGlobal; u.cpm && u.ctr && u.cvr
    ensures var q := ApplyPreset(p, k);
      && ResolveInputs(q.globals, q.scenarios[i]).cpm == PresetOf(k).cpm
      && ResolveInputs(q.globals, q.scenarios[i]).ctr == PresetOf(k).ctr
      && ResolveInputs(q.globals, q.scenarios[i]).cvr == PresetOf(k).cvr
  {
    var s := p.scenarios[i];
    assert s.useGlobal.Get(Cpm) && s.useGlobal.Get(Ctr) && s.useGlobal.Get(Cvr);
  }

  /** A locked scenario whose solve lands in bounds shows its locked CPA in
      the funnel: spend per participant equals the target, whenever spend is
      positive. */
  lemma LockedTargetIsShown(g: Inputs, s: ScenarioConfig, m: real)
    requires s.mode == Locked && s.manualCPA == Some(m) && m > 0.0
    requires Solvable(ResolveInputs(g, s), s.solveFor.GetOr(SolveCvr), m)
    requires ResolveInputs(g, s).spend > 0.0
    ensures Project(Resolve(g, s)).cpaShown == Some(m)
  {
    LockedSolveIsConsistent(g, s, m);
    CpaShownIsDerivedCpa(Resolve(g, s));
  }
}
