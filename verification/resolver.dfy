/** The scenario resolver, the `effective` computation of app/page.tsx:104-160:
    merges global defaults with scenario overrides, then either derives the
    cost per acquisition (CPA) or, with the CPA locked, solves backwards for
    one funnel input. */
module Resolver {
  import opened Wrappers
  import opened Numeric
  import opened Types

  /** `eps` (app/page.tsx:124), the guard against dividing by a vanishing rate or target. */
  const Eps: real := 0.000000000001

  /** The outcome of a backward solve. `value` is the raw solved number, `None`
      where the source computes `NaN`. */
  datatype Solved = Solved(key: SolveFor, value: Option<real>, outOfBounds: bool)

  /** A resolved scenario (the source's `Eff`). */
  datatype Resolved = Resolved(name: string, color: string, inputs: Inputs, cpa: Option<real>, solved: Option<Solved>)

  /** `s.useGlobal.f ? g.f : s.f ?? g.f` */
  function ResolveField(useGlobal: bool, local: Option<real>, global: real): real {
    if useGlobal then global else local.GetOr(global)
  }

  /** The six effective inputs (app/page.tsx:115-120). An inherited field takes
      the global value whatever the local one is; an overridden field takes the
      local value, falling back to the global one when none was entered. */
  function ResolveInputs(g: Inputs, s: ScenarioConfig): (r: Inputs)
    ensures forall f :: s.useGlobal.Get(f) ==> r.Get(f) == g.Get(f)
    ensures forall f :: !s.useGlobal.Get(f) && s.local.Get(f).Some? ==> r.Get(f) == s.local.Get(f).value
    ensures forall f :: !s.useGlobal.Get(f) && s.local.Get(f).None? ==> r.Get(f) == g.Get(f)
  {
    var u := s.useGlobal;
    var l := s.local;
    Inputs(ResolveField(u.spend, l.spend, g.spend),
           ResolveField(u.cpm, l.cpm, g.cpm),
           ResolveField(u.ctr, l.ctr, g.ctr),
           ResolveField(u.cvr, l.cvr, g.cvr),
           ResolveField(u.avgGift, l.avgGift, g.avgGift),
           ResolveField(u.fpp, l.fpp, g.fpp))
  }

  /** Derived CPA (app/page.tsx:126-128): defined exactly when cpm, ctr and cvr
      are all positive, and then it is the positive cost that, spread over
      `1000 * ctr * cvr` acquisitions per thousand impressions, gives back cpm. */
  function DerivedCpa(cpm: real, ctr: real, cvr: real): (r: Option<real>)
    ensures r.Some? <==> cpm > 0.0 && ctr > 0.0 && cvr > 0.0
    ensures r.Some? ==> r.value > 0.0 && r.value * (1000.0 * ctr * cvr) == cpm
  {
    if cpm > 0.0 && ctr > 0.0 && cvr > 0.0 then Some(cpm / (1000.0 * ctr * cvr)) else None
  }

  /** `s.manualCPA && s.manualCPA > 0 ? s.manualCPA : null` (app/page.tsx:130). */
  function ManualTarget(manualCPA: Option<real>): (r: Option<real>)
    ensures r.Some? <==> manualCPA.Some? && manualCPA.value > 0.0
    ensures r.Some? ==> r == manualCPA
  {
    if manualCPA.Some? && manualCPA.value > 0.0 then manualCPA else None
  }

  /** The raw backward solve for a rate (app/page.tsx:134, 141): the rate that,
      with the other rate and the locked CPA, reproduces cpm; `NaN` unless the
      other rate and the target both exceed `Eps`. */
  function SolveRate(cpm: real, other: real, manual: real): (v: Option<real>)
    ensures v.Some? <==> other > Eps && manual > Eps
    ensures v.Some? ==> v.value * (1000.0 * other * manual) == cpm
  {
    if other > Eps && manual > Eps then Some(cpm / (1000.0 * other * manual)) else None
  }

  /** What a solved rate becomes (app/page.tsx:135-137, 142-144): the rate used
      downstream, always in [0, 1] and 0 for `NaN`, and the `outOfBounds` flag,
      set exactly when the raw value is `NaN` or outside [0, 1]. */
  function Settle(v: Option<real>): (r: (real, bool))
    ensures 0.0 <= r.0 <= 1.0
    ensures v.None? ==> r.0 == 0.0
    ensures r.1 <==> v.None? || v.value < 0.0 || v.value > 1.0
    ensures !r.1 ==> r.0 == v.value
    ensures v.Some? && v.value < 0.0 ==> r.0 == 0.0
    ensures v.Some? && v.value > 1.0 ==> r.0 == 1.0
  {
    match v
    case None => (0.0, true)
    case Some(x) => (Clamp01(x), !(x >= 0.0 && x <= 1.0))
  }

  /** The locked branch with a positive target (app/page.tsx:133-153): solves
      for exactly one input and leaves the other five as resolved. A solved
      rate replaces the resolved rate by its settled value; a solved cpm is
      used as it is, unclamped, and is out of bounds exactly when negative. */
  function SolveLocked(b: Inputs, target: SolveFor, manual: real): (r: (Inputs, Solved))
    ensures r.1.key == target
    ensures target == SolveCvr ==>
      && r.1.value == SolveRate(b.cpm, b.ctr, manual)
      && r.0 == b.(cvr := r.0.cvr)
      && (r.0.cvr, r.1.outOfBounds) == Settle(r.1.value)
    ensures target == SolveCtr ==>
      && r.1.value == SolveRate(b.cpm, b.cvr, manual)
      && r.0 == b.(ctr := r.0.ctr)
      && (r.0.ctr, r.1.outOfBounds) == Settle(r.1.value)
    ensures target == SolveCpm ==>
      && r.1.value == Some(r.0.cpm)
      && r.0 == b.(cpm := r.0.cpm)
      && r.0.cpm == 1000.0 * b.ctr * b.cvr * manual
      && (r.1.outOfBounds <==> r.0.cpm < 0.0)
  {
    match target
    case SolveCvr =>
      var v := SolveRate(b.cpm, b.ctr, manual);
      var (rate, outOfBounds) := Settle(v);
      (b.(cvr := rate), Solved(SolveCvr, v, outOfBounds))
    case SolveCtr =>
      var v := SolveRate(b.cpm, b.cvr, manual);
      var (rate, outOfBounds) := Settle(v);
      (b.(ctr := rate), Solved(SolveCtr, v, outOfBounds))
    case SolveCpm =>
      var v := 1000.0 * b.ctr * b.cvr * manual;
      (b.(cpm := v), Solved(SolveCpm, Some(v), !(v >= 0.0)))
  }

  /** One scenario of `effective` (app/page.tsx:114-158). */
  function Resolve(g: Inputs, s: ScenarioConfig): (r: Resolved)
    ensures r.name == s.name && r.color == s.color
    ensures var b := ResolveInputs(g, s);
      r.inputs.spend == b.spend && r.inputs.avgGift == b.avgGift && r.inputs.fpp == b.fpp
    // derived mode: nothing is solved, the CPA is derived from the resolved inputs
    ensures s.mode == Derived ==>
      && r.solved.None?
      && r.inputs == ResolveInputs(g, s)
      && r.cpa == DerivedCpa(r.inputs.cpm, r.inputs.ctr, r.inputs.cvr)
    // locked mode: the CPA is the manual target verbatim, present iff positive
    ensures s.mode == Locked ==> (r.cpa.Some? <==> s.manualCPA.Some? && s.manualCPA.value > 0.0)
    ensures s.mode == Locked && r.cpa.Some? ==> r.cpa == s.manualCPA
    ensures r.solved.Some? <==> s.mode == Locked && r.cpa.Some?
    ensures r.solved.None? ==> r.inputs == ResolveInputs(g, s)
    // the solved field defaults to cvr
    ensures r.solved.Some? ==>
      (r.inputs, r.solved.value) == SolveLocked(ResolveInputs(g, s), s.solveFor.GetOr(SolveCvr), r.cpa.value)
  {
    var b := ResolveInputs(g, s);
    match s.mode
    case Derived =>
      Resolved(s.name, s.color, b, DerivedCpa(b.cpm, b.ctr, b.cvr), None)
    case Locked =>
      match ManualTarget(s.manualCPA)
      case None => Resolved(s.name, s.color, b, None, None)
      case Some(manual) =>
        var (inputs, solved) := SolveLocked(b, s.solveFor.GetOr(SolveCvr), manual);
        Resolved(s.name, s.color, inputs, Some(manual), Some(solved))
  }

  /** Locking the CPA `m` that a cvr of `c0` derives, and solving for cvr,
      gives `c0` back, in bounds: solving inverts deriving. */
  lemma LockedCvrInvertsDerived(g: Inputs, s: ScenarioConfig, c0: real, m: real)
    requires s.mode == Locked && s.solveFor.GetOr(SolveCvr) == SolveCvr && s.manualCPA == Some(m)
    requires var b := ResolveInputs(g, s);
      0.0 < c0 <= 1.0 && m > Eps && b.ctr > Eps && m * (1000.0 * b.ctr * c0) == b.cpm
    ensures var b := ResolveInputs(g, s); DerivedCpa(b.cpm, b.ctr, c0) == Some(m)
    ensures Resolve(g, s).inputs == ResolveInputs(g, s).(cvr := c0)
    ensures Resolve(g, s).solved == Some(Solved(SolveCvr, Some(c0), false))
    ensures Resolve(g, s).cpa == Some(m)
  {
    var b := ResolveInputs(g, s);
    var k := 1000.0 * b.ctr * c0;
    Positive3(1000.0, b.ctr, c0);
    Positive2(m, k);
    var d := DerivedCpa(b.cpm, b.ctr, c0).value;
    Cancel(d, m, k);
    var km := 1000.0 * b.ctr * m;
    Positive3(1000.0, b.ctr, m);
    var v := SolveRate(b.cpm, b.ctr, m).value;
    assert c0 * km == m * k;
    Cancel(v, c0, km);
  }

  /** The ctr counterpart of `LockedCvrInvertsDerived`. */
  lemma LockedCtrInvertsDerived(g: Inputs, s: ScenarioConfig, c0: real, m: real)
    requires s.mode == Locked && s.solveFor == Some(SolveCtr) && s.manualCPA == Some(m)
    requires var b := ResolveInputs(g, s);
      0.0 < c0 <= 1.0 && m > Eps && b.cvr > Eps && m * (1000.0 * c0 * b.cvr) == b.cpm
    ensures var b := ResolveInputs(g, s); DerivedCpa(b.cpm, c0, b.cvr) == Some(m)
    ensures Resolve(g, s).inputs == ResolveInputs(g, s).(ctr := c0)
    ensures Resolve(g, s).solved == Some(Solved(SolveCtr, Some(c0), false))
    ensures Resolve(g, s).cpa == Some(m)
  {
    var b := ResolveInputs(g, s);
    var k := 1000.0 * c0 * b.cvr;
    Positive3(1000.0, c0, b.cvr);
    Positive2(m, k);
    var d := DerivedCpa(b.cpm, c0, b.cvr).value;
    Cancel(d, m, k);
    var km := 1000.0 * b.cvr * m;
    Positive3(1000.0, b.cvr, m);
    var v := SolveRate(b.cpm, b.cvr, m).value;
    assert c0 * km == m * k;
    Cancel(v, c0, km);
  }

  /** Locking the CPA `m` that a cpm of `m0` derives, and solving for cpm,
      gives `m0` back, in bounds. */
  lemma LockedCpmInvertsDerived(g: Inputs, s: ScenarioConfig, m0: real, m: real)
    requires s.mode == Locked && s.solveFor == Some(SolveCpm) && s.manualCPA == Some(m)
    requires var b := ResolveInputs(g, s);
      m > 0.0 && b.ctr > 0.0 && b.cvr > 0.0 && m * (1000.0 * b.ctr * b.cvr) == m0
    ensures var b := ResolveInputs(g, s); DerivedCpa(m0, b.ctr, b.cvr) == Some(m)
    ensures Resolve(g, s).inputs == ResolveInputs(g, s).(cpm := m0)
    ensures Resolve(g, s).solved == Some(Solved(SolveCpm, Some(m0), false))
    ensures Resolve(g, s).cpa == Some(m)
  {
    var b := ResolveInputs(g, s);
    var k := 1000.0 * b.ctr * b.cvr;
    Positive3(1000.0, b.ctr, b.cvr);
    Positive2(m, k);
    Cancel(DerivedCpa(m0, b.ctr, b.cvr).value, m, k);
    assert 1000.0 * b.ctr * b.cvr * m == m * k;
  }

  /** Positive cpm, ctr and cvr: the rates a CPA can be derived from. */
  predicate RatesPositive(x: Inputs) {
    x.cpm > 0.0 && x.ctr > 0.0 && x.cvr > 0.0
  }

  /** When a locked solve for `target` at the CPA `m` lands in bounds with
      positive rates, stated on the resolved inputs alone: a solved rate must
      come out in (0, 1], a solved cpm needs positive ctr and cvr. */
  predicate Solvable(b: Inputs, target: SolveFor, m: real) {
    match target
    case SolveCvr => m > Eps && b.ctr > Eps && 0.0 < b.cpm <= 1000.0 * b.ctr * m
    case SolveCtr => m > Eps && b.cvr > Eps && 0.0 < b.cpm <= 1000.0 * b.cvr * m
    case SolveCpm => b.ctr > 0.0 && b.cvr > 0.0
  }

  /** A solve lands in bounds with positive rates exactly when it is
      `Solvable`, and then it is consistent with its target: the CPA derived
      from the solved inputs is the locked CPA. */
  lemma SolveLockedInBounds(b: Inputs, target: SolveFor, m: real)
    requires m > 0.0
    ensures !SolveLocked(b, target, m).1.outOfBounds && RatesPositive(SolveLocked(b, target, m).0)
            <==> Solvable(b, target, m)
    ensures var x := SolveLocked(b, target, m).0;
      !SolveLocked(b, target, m).1.outOfBounds && RatesPositive(x) ==>
        DerivedCpa(x.cpm, x.ctr, x.cvr) == Some(m)
  {
    match target
    case SolveCvr => SolveCvrInBounds(b, m);
    case SolveCtr => SolveCtrInBounds(b, m);
    case SolveCpm => SolveCpmInBounds(b, m);
  }

  /** A settled rate solve, on plain numbers: it is in bounds and positive, with
      positive cpm and other rate, exactly when the other rate and the target
      clear `Eps` and cpm lies in (0, 1000 * other * m]; the rate then
      reproduces cpm. */
  lemma SettledRate(cpm: real, other: real, m: real)
    requires m > 0.0
    ensures var r := Settle(SolveRate(cpm, other, m));
      !r.1 && cpm > 0.0 && other > 0.0 && r.0 > 0.0
      <==> m > Eps && other > Eps && 0.0 < cpm <= 1000.0 * other * m
    ensures var r := Settle(SolveRate(cpm, other, m));
      !r.1 && r.0 > 0.0 ==> m * (1000.0 * other * r.0) == cpm
  {
    var v := SolveRate(cpm, other, m);
    if m > Eps && other > Eps {
      var km := 1000.0 * other * m;
      Positive3(1000.0, other, m);
      RateBounds(v.value, km, cpm);
      assert m * (1000.0 * other * v.value) == v.value * km;
    }
  }

  /** `SolveLockedInBounds` for a solved cvr. */
  lemma SolveCvrInBounds(b: Inputs, m: real)
    requires m > 0.0
    ensures !SolveLocked(b, SolveCvr, m).1.outOfBounds && RatesPositive(SolveLocked(b, SolveCvr, m).0)
            <==> Solvable(b, SolveCvr, m)
    ensures var x := SolveLocked(b, SolveCvr, m).0;
      !SolveLocked(b, SolveCvr, m).1.outOfBounds && RatesPositive(x) ==> DerivedCpa(x.cpm, x.ctr, x.cvr) == Some(m)
  {
    var x := SolveLocked(b, SolveCvr, m).0;
    SettledRate(b.cpm, b.ctr, m);
    if !SolveLocked(b, SolveCvr, m).1.outOfBounds && RatesPositive(x) {
      var k := 1000.0 * x.ctr * x.cvr;
      Positive3(1000.0, x.ctr, x.cvr);
      Cancel(DerivedCpa(x.cpm, x.ctr, x.cvr).value, m, k);
    }
  }

  /** `SolveLockedInBounds` for a solved ctr. */
  lemma SolveCtrInBounds(b: Inputs, m: real)
    requires m > 0.0
    ensures !SolveLocked(b, SolveCtr, m).1.outOfBounds && RatesPositive(SolveLocked(b, SolveCtr, m).0)
            <==> Solvable(b, SolveCtr, m)
    ensures var x := SolveLocked(b, SolveCtr, m).0;
      !SolveLocked(b, SolveCtr, m).1.outOfBounds && RatesPositive(x) ==> DerivedCpa(x.cpm, x.ctr, x.cvr) == Some(m)
  {
    var x := SolveLocked(b, SolveCtr, m).0;
    SettledRate(b.cpm, b.cvr, m);
    if !SolveLocked(b, SolveCtr, m).1.outOfBounds && RatesPositive(x) {
      var k := 1000.0 * x.ctr * x.cvr;
      Positive3(1000.0, x.ctr, x.cvr);
      assert m * (1000.0 * x.cvr * x.ctr) == x.cpm;
      assert 1000.0 * x.cvr * x.ctr == k;
      Cancel(DerivedCpa(x.cpm, x.ctr, x.cvr).value, m, k);
    }
  }

  /** `SolveLockedInBounds` for a solved cpm. */
  lemma SolveCpmInBounds(b: Inputs, m: real)
    requires m > 0.0
    ensures !SolveLocked(b, SolveCpm, m).1.outOfBounds && RatesPositive(SolveLocked(b, SolveCpm, m).0)
            <==> Solvable(b, SolveCpm, m)
    ensures var x := SolveLocked(b, SolveCpm, m).0;
      !SolveLocked(b, SolveCpm, m).1.outOfBounds && RatesPositive(x) ==> DerivedCpa(x.cpm, x.ctr, x.cvr) == Some(m)
  {
    var x := SolveLocked(b, SolveCpm, m).0;
    if b.ctr > 0.0 && b.cvr > 0.0 {
      var k := 1000.0 * b.ctr * b.cvr;
      Positive3(1000.0, b.ctr, b.cvr);
      Positive2(k, m);
      assert x.cpm == k * m;
      Cancel(DerivedCpa(x.cpm, x.ctr, x.cvr).value, m, k);
    }
  }

  /** A locked scenario with a positive CPA is solved, reports that CPA, lands
      in bounds with positive rates exactly when it is `Solvable`, and is then
      consistent: deriving the CPA from its resolved inputs gives the locked
      CPA back. */
  lemma LockedSolveIsConsistent(g: Inputs, s: ScenarioConfig, m: real)
    requires s.mode == Locked && s.manualCPA == Some(m) && m > 0.0
    ensures Resolve(g, s).solved.Some? && Resolve(g, s).cpa == Some(m)
    ensures !Resolve(g, s).solved.value.outOfBounds && RatesPositive(Resolve(g, s).inputs)
            <==> Solvable(ResolveInputs(g, s), s.solveFor.GetOr(SolveCvr), m)
    ensures var x := Resolve(g, s).inputs;
      !Resolve(g, s).solved.value.outOfBounds && RatesPositive(x) ==>
        DerivedCpa(x.cpm, x.ctr, x.cvr) == Some(m)
  {
    SolveLockedInBounds(ResolveInputs(g, s), s.solveFor.GetOr(SolveCvr), m);
  }

  /** Cancels a common positive factor. */
  lemma Cancel(x: real, y: real, k: real)
    requires k > 0.0
    requires x * k == y * k
    ensures x == y
  {
  }

  lemma Positive2(a: real, b: real)
    requires a > 0.0 && b > 0.0
    ensures a * b > 0.0
  {
  }

  lemma Positive3(a: real, b: real, c: real)
    requires a > 0.0 && b > 0.0 && c > 0.0
    ensures a * b * c > 0.0
  {
    Positive2(a, b);
    Positive2(a * b, c);
  }

  /** A rate `v` with `v * k == c` for a positive `k` is positive exactly
      when `c` is, and at most 1 exactly when `c` is at most `k`. */
  lemma RateBounds(v: real, k: real, c: real)
    requires k > 0.0 && v * k == c
    ensures v > 0.0 <==> c > 0.0
    ensures v <= 1.0 <==> c <= k
  {
    assert c - k == (v - 1.0) * k;
  }
}
