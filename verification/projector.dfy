/** The funnel projector, the `rows` computation of app/page.tsx:162-182:
    impressions, clicks, participants, donors and funds from a resolved scenario. */
module Projector {
  import opened Wrappers
  import opened Numeric
  import opened Types
  import opened Resolver

  /** The unrounded funnel stages of one scenario. */
  datatype Stages = Stages(impressions: real, clicks: real, participants: real,
                           donorsPerParticipant: real, donors: real, funds: real)

  /** A display row; counts are floored, funds rounded. */
  datatype Row = Row(scenario: string, color: string, spend: real,
                     impressions: int, clicks: int, participants: int, donors: int, funds: int,
                     roas: Option<real>, cpaShown: Option<real>)

  /** `Math.max(avgGift, 0.01)`: the average gift the donor ratio divides by,
      never less than 0.01. */
  function GiftDivisor(avgGift: real): (d: real)
    ensures d >= 0.01 && d >= avgGift
    ensures d == avgGift || d == 0.01
  {
    Max(avgGift, 0.01)
  }

  /** The forward chain (app/page.tsx:164-169). Without a positive cpm there
      are no impressions and every later stage is zero; otherwise each stage is
      the previous one times its rate, negative rates counting as zero. */
  function Funnel(x: Inputs): (st: Stages)
    ensures x.cpm <= 0.0 ==>
      st.impressions == 0.0 && st.clicks == 0.0 && st.participants == 0.0 && st.donors == 0.0 && st.funds == 0.0
    ensures x.cpm > 0.0 ==> st.impressions * x.cpm == 1000.0 * x.spend
    ensures st.donorsPerParticipant * GiftDivisor(x.avgGift) == x.fpp
  {
    var impressions := if x.cpm > 0.0 then (x.spend / x.cpm) * 1000.0 else 0.0;
    var clicks := impressions * Max(x.ctr, 0.0);
    var participants := clicks * Max(x.cvr, 0.0);
    var donorsPerParticipant := x.fpp / GiftDivisor(x.avgGift);
    Stages(impressions, clicks, participants, donorsPerParticipant,
           participants * donorsPerParticipant, participants * x.fpp)
  }

  /** One display row (app/page.tsx:163-180). ROAS, a percentage, is absent
      exactly when spend is not positive; the shown CPA is absent exactly when
      the unrounded participant count is not positive. */
  function Project(e: Resolved): (r: Row)
    ensures r.scenario == e.name && r.color == e.color && r.spend == e.inputs.spend
    ensures var st := Funnel(e.inputs);
      && r.impressions as real <= st.impressions < r.impressions as real + 1.0
      && r.clicks as real <= st.clicks < r.clicks as real + 1.0
      && r.participants as real <= st.participants < r.participants as real + 1.0
      && r.donors as real <= st.donors < r.donors as real + 1.0
      && r.funds as real - 0.5 <= st.funds < r.funds as real + 0.5
    ensures e.inputs.cpm <= 0.0 ==>
      r.impressions == 0 && r.clicks == 0 && r.participants == 0 && r.donors == 0 && r.funds == 0
    ensures r.roas.None? <==> e.inputs.spend <= 0.0
    ensures r.roas.Some? ==> r.roas.value * e.inputs.spend == 100.0 * Funnel(e.inputs).funds
    ensures r.cpaShown.None? <==> Funnel(e.inputs).participants <= 0.0
    ensures r.cpaShown.Some? ==> r.cpaShown.value * Funnel(e.inputs).participants == e.inputs.spend
  {
    var x := e.inputs;
    var st := Funnel(x);
    Row(e.name, e.color, x.spend,
        Floor(st.impressions), Floor(st.clicks), Floor(st.participants), Floor(st.donors),
        Round(st.funds),
        if x.spend > 0.0 then Some((st.funds / x.spend) * 100.0) else None,
        if st.participants > 0.0 then Some(x.spend / st.participants) else None)
  }

  /** With non-negative spend and funds per participant, no stage is negative. */
  lemma FunnelNonNegative(x: Inputs)
    requires x.spend >= 0.0 && x.fpp >= 0.0
    ensures var st := Funnel(x);
      && st.impressions >= 0.0 && st.clicks >= 0.0 && st.participants >= 0.0
      && st.donorsPerParticipant >= 0.0 && st.donors >= 0.0 && st.funds >= 0.0
  {
    var st := Funnel(x);
    if x.cpm > 0.0 {
      assert st.impressions * x.cpm == 1000.0 * x.spend;
    }
    assert st.clicks == st.impressions * Max(x.ctr, 0.0);
    assert st.participants == st.clicks * Max(x.cvr, 0.0);
    assert st.donorsPerParticipant * GiftDivisor(x.avgGift) == x.fpp;
  }

  /** One funnel step keeps a non-negative stage non-negative and, with a
      rate of at most 1, no larger. */
  lemma Step(prev: real, rate: real, next: real)
    requires prev >= 0.0 && next == prev * Max(rate, 0.0)
    ensures 0.0 <= next
    ensures rate <= 1.0 ==> next <= prev
  {
    var m := Max(rate, 0.0);
    ScaleMonotone(0.0, prev, m);
    if rate <= 1.0 {
      var k := 1.0 - m;
      ScaleMonotone(0.0, prev, k);
      assert prev - next == prev * k;
    }
  }

  /** Each stage narrows the previous one when its rate is at most 1. */
  lemma FunnelNarrows(x: Inputs)
    requires x.spend >= 0.0
    ensures x.ctr <= 1.0 ==> Funnel(x).clicks <= Funnel(x).impressions
    ensures x.cvr <= 1.0 ==> Funnel(x).participants <= Funnel(x).clicks
  {
    var st := Funnel(x);
    FunnelNonNegative(x.(fpp := 0.0));
    assert st.impressions >= 0.0 by {
      assert Funnel(x.(fpp := 0.0)).impressions == st.impressions;
    }
    Step(st.impressions, x.ctr, st.clicks);
    Step(st.clicks, x.cvr, st.participants);
  }

  /** The floored counts keep the narrowing of `FunnelNarrows`. */
  lemma RowNarrows(e: Resolved)
    requires e.inputs.spend >= 0.0
    ensures e.inputs.ctr <= 1.0 ==> Project(e).clicks <= Project(e).impressions
    ensures e.inputs.cvr <= 1.0 ==> Project(e).participants <= Project(e).clicks
  {
    var st := Funnel(e.inputs);
    FunnelNarrows(e.inputs);
    if e.inputs.ctr <= 1.0 {
      FloorMonotone(st.clicks, st.impressions);
    }
    if e.inputs.cvr <= 1.0 {
      FloorMonotone(st.participants, st.clicks);
    }
  }

  /** A stage scaled by a fixed non-negative factor keeps the order of its input. */
  lemma ScaledStage(a1: real, a2: real, m: real, n1: real, n2: real)
    requires a1 <= a2 && m >= 0.0 && n1 == a1 * m && n2 == a2 * m
    ensures n1 <= n2
  {
    ScaleMonotone(a1, a2, m);
  }

  /** Impressions grow with spend at a fixed positive cpm. */
  lemma ImpressionsMonotone(s1: real, s2: real, cpm: real)
    requires s1 <= s2 && cpm > 0.0
    ensures (s1 / cpm) * 1000.0 <= (s2 / cpm) * 1000.0
  {
    var q1, q2 := s1 / cpm, s2 / cpm;
    assert q1 * cpm == s1 && q2 * cpm == s2;
    assert q1 <= q2 by {
      assert (q2 - q1) * cpm == s2 - s1;
      if q1 > q2 {
        Resolver.Positive2(q1 - q2, cpm);
        assert false;
      }
    }
    ScaleMonotone(q1, q2, 1000.0);
  }

  /** Raising spend, all else fixed, never lowers an unrounded stage, provided
      funds per participant is not negative. */
  lemma FunnelMonotoneInSpend(x: Inputs, spend2: real)
    requires x.spend <= spend2 && x.fpp >= 0.0
    ensures var a, b := Funnel(x), Funnel(x.(spend := spend2));
      && a.impressions <= b.impressions && a.clicks <= b.clicks && a.participants <= b.participants
      && a.donors <= b.donors && a.funds <= b.funds
  {
    var a, b := Funnel(x), Funnel(x.(spend := spend2));
    if x.cpm > 0.0 {
      ImpressionsMonotone(x.spend, spend2, x.cpm);
      ScaledStage(a.impressions, b.impressions, Max(x.ctr, 0.0), a.clicks, b.clicks);
      ScaledStage(a.clicks, b.clicks, Max(x.cvr, 0.0), a.participants, b.participants);
      FunnelNonNegative(x.(spend := 0.0));
      ScaledStage(a.participants, b.participants, a.donorsPerParticipant, a.donors, b.donors);
      ScaledStage(a.participants, b.participants, x.fpp, a.funds, b.funds);
    }
  }

  /** Raising spend, all else fixed, never lowers a floored count or the rounded funds. */
  lemma RowMonotoneInSpend(e: Resolved, spend2: real)
    requires e.inputs.spend <= spend2 && e.inputs.fpp >= 0.0
    ensures var r1, r2 := Project(e), Project(e.(inputs := e.inputs.(spend := spend2)));
      && r1.impressions <= r2.impressions && r1.clicks <= r2.clicks && r1.participants <= r2.participants
      && r1.donors <= r2.donors && r1.funds <= r2.funds
  {
    var a, b := Funnel(e.inputs), Funnel(e.inputs.(spend := spend2));
    FunnelMonotoneInSpend(e.inputs, spend2);
    FloorMonotone(a.impressions, b.impressions);
    FloorMonotone(a.clicks, b.clicks);
    FloorMonotone(a.participants, b.participants);
    FloorMonotone(a.donors, b.donors);
    RoundMonotone(a.funds, b.funds);
  }

  /** With positive spend, the CPA shown in the funnel (spend per participant)
      is the CPA derived from cpm, ctr and cvr whenever that is defined. */
  lemma CpaShownIsDerivedCpa(e: Resolved)
    requires e.inputs.spend > 0.0
    requires DerivedCpa(e.inputs.cpm, e.inputs.ctr, e.inputs.cvr).Some?
    ensures Project(e).cpaShown == DerivedCpa(e.inputs.cpm, e.inputs.ctr, e.inputs.cvr)
  {
    var x := e.inputs;
    var st := Funnel(x);
    var d := DerivedCpa(x.cpm, x.ctr, x.cvr).value;
    assert st.clicks == st.impressions * x.ctr;
    assert st.participants == st.clicks * x.cvr;
    SpendPerParticipant(x.spend, x.cpm, x.ctr, x.cvr, st.impressions, st.clicks, st.participants, d);
    var c := Project(e).cpaShown.value;
    Resolver.Cancel(c, d, st.participants);
  }

  /** The arithmetic behind `CpaShownIsDerivedCpa`: along a funnel with
      positive rates, the derived CPA times the participants is the spend. */
  lemma SpendPerParticipant(spend: real, cpm: real, ctr: real, cvr: real,
                            imp: real, clicks: real, parts: real, d: real)
    requires spend > 0.0 && cpm > 0.0 && ctr > 0.0 && cvr > 0.0
    requires imp * cpm == 1000.0 * spend
    requires clicks == imp * ctr && parts == clicks * cvr
    requires d * (1000.0 * ctr * cvr) == cpm
    ensures parts > 0.0 && d * parts == spend
  {
    assert imp > 0.0;
    assert clicks > 0.0;
    var k := 1000.0 * ctr * cvr;
    assert parts * 1000.0 == imp * k;
    var dp := d * parts;
    assert dp * 1000.0 == d * (imp * k);
    assert d * (imp * k) == imp * (d * k);
    assert dp * 1000.0 == 1000.0 * spend;
  }

  /** Without a positive cpm but with positive spend, ROAS is a defined 0%,
      not absent: absence depends on spend alone. */
  lemma NoImpressionsMeansZeroRoas(e: Resolved)
    requires e.inputs.cpm <= 0.0 && e.inputs.spend > 0.0
    ensures Project(e).roas == Some(0.0)
  {
    var r := Project(e);
    assert Funnel(e.inputs).funds == 0.0;
    assert r.roas.value * e.inputs.spend == 0.0;
  }
}
