/** The gradual ramp of live exposure: earned step by step from a floor, capped by the operator,
    and cut back to the floor on the first breach. */
module Scaling {
  import opened RealMath
  import P = PaperAutonomy

  datatype Monitor = Monitor(drawdownPct: real, underperformanceBps: real, failedOrdersPct: real)

  /** The stay limits of the promotion engine. */
  predicate RollbackRequired(l: P.Limits, m: Monitor) {
    || m.failedOrdersPct > l.maxFailedOrdersPct || m.drawdownPct > l.maxDrawdownPct
    || m.underperformanceBps > l.maxUnderperformanceBps
  }

  /** Every figure of the period keeps its stay limit. */
  predicate WithinLimits(l: P.Limits, m: Monitor) {
    && m.drawdownPct <= l.maxDrawdownPct && m.underperformanceBps <= l.maxUnderperformanceBps
    && m.failedOrdersPct <= l.maxFailedOrdersPct
  }

  lemma BreachIsALimitBroken(l: P.Limits, m: Monitor)
    ensures RollbackRequired(l, m) <==> !WithinLimits(l, m)
  {
  }

  datatype Config = Config(maxFraction: real, floor: real, step: real, hold: int, limits: P.Limits) {
    /** A hold of zero or less grants a step every period. */
    function Hold(): (h: nat)
      ensures h >= 1
    {
      if hold >= 1 then hold else 1
    }

    /** The exposure after p clean periods below the ceiling. */
    function Exposure(p: nat): real {
      if floor >= maxFraction then floor else Min(maxFraction, Ramp(p / Hold()))
    }

    /** The exposure after n granted steps, without the ceiling. */
    function Ramp(n: nat): real {
      floor + n as real * step
    }

    /** Period p finds the exposure at the ceiling. */
    predicate AtCeiling(p: nat)
      requires p >= 1
    {
      Exposure(p - 1) >= maxFraction
    }
  }

  datatype Action = Hold | Advance | Capped | Cut

  datatype Boundary = StillRamping | CappedOut | CutBack

  datatype Tier = Tier(period: nat, fraction: real, action: Action)

  datatype Program = Program(boundary: Boundary, action: Action, fraction: real, tiers: seq<Tier>)

  /** Nothing ends the program in the first n periods. */
  ghost predicate Clean(c: Config, monitor: int -> Monitor, n: nat) {
    forall p :: 1 <= p <= n ==> WithinLimits(c.limits, monitor(p)) && !c.AtCeiling(p)
  }

  /** The tiers of clean periods: a step on every hold-th, and the exposure it leads to. */
  ghost predicate IsRamp(c: Config, tiers: seq<Tier>) {
    forall k :: 0 <= k < |tiers| ==>
      tiers[k] == Tier(k + 1, c.Exposure(k + 1), if (k + 1) % c.Hold() == 0 then Advance else Hold)
  }

  /** The program runs clean periods until the first one that breaches or finds the ceiling, with
      a breach judged first, or until the bound. */
  ghost predicate IsProgram(c: Config, monitor: int -> Monitor, maxPeriods: int, r: Program) {
    var bound := if maxPeriods <= 0 then 1 else maxPeriods;
    match r.boundary
    case CutBack =>
      var n := |r.tiers| - 1;
      && 0 <= n < bound && Clean(c, monitor, n) && !WithinLimits(c.limits, monitor(n + 1))
      && IsRamp(c, r.tiers[..n]) && r.tiers[n] == Tier(n + 1, c.floor, Cut)
      && r.action == Cut && r.fraction == c.floor
    case CappedOut =>
      var n := |r.tiers| - 1;
      && 0 <= n < bound && Clean(c, monitor, n) && WithinLimits(c.limits, monitor(n + 1)) && c.AtCeiling(n + 1)
      && IsRamp(c, r.tiers[..n]) && r.tiers[n] == Tier(n + 1, c.Exposure(n), Capped)
      && r.action == Capped && r.fraction == c.Exposure(n)
    case StillRamping =>
      && |r.tiers| == bound && Clean(c, monitor, bound) && IsRamp(c, r.tiers)
      && r.action == r.tiers[bound - 1].action && r.fraction == c.Exposure(bound)
  }

  lemma NextStep(p: nat, h: nat)
    requires h >= 1
    ensures (p + 1) % h == 0 <==> p % h + 1 == h
    ensures p % h + 1 == h ==> (p + 1) / h == p / h + 1
    ensures p % h + 1 != h ==> (p + 1) / h == p / h && (p + 1) % h == p % h + 1
  {
    var q, r := p / h, p % h;
    assert p == h * q + r;
    if r + 1 == h {
      assert p + 1 == h * (q + 1);
      DivModUnique(p + 1, h, q + 1, 0);
    } else {
      DivModUnique(p + 1, h, q, r + 1);
    }
  }

  lemma DivModUnique(n: nat, h: nat, q: nat, r: nat)
    requires r < h && n == h * q + r
    ensures n / h == q && n % h == r
  {
    var d := n / h - q;
    assert n == h * (n / h) + n % h;
    assert h * d == r - n % h;
  }

  /** One clean period below the ceiling. */
  lemma Climb(c: Config, p: nat)
    requires !c.AtCeiling(p + 1)
    ensures (p + 1) % c.Hold() == 0 ==> c.Exposure(p + 1) == Min(c.Exposure(p) + c.step, c.maxFraction)
    ensures (p + 1) % c.Hold() != 0 ==> c.Exposure(p + 1) == c.Exposure(p)
  {
    var h := c.Hold();
    NextStep(p, h);
    RampStep(c, p / h);
  }

  lemma RampStep(c: Config, n: nat)
    ensures c.Ramp(n + 1) == c.Ramp(n) + c.step
  {
  }

  method Run(c: Config, monitor: int -> Monitor, maxPeriods: int) returns (r: Program)
    ensures IsProgram(c, monitor, maxPeriods, r)
  {
    hide Config.Exposure, RollbackRequired, WithinLimits, Config.Hold, IsProgram;
    var bound := if maxPeriods <= 0 then 1 else maxPeriods;
    var fraction, streak := c.floor, 0;
    var tiers: seq<Tier> := [];
    var last := Hold;
    StartAtFloor(c);
    for period := 1 to bound + 1
      invariant Clean(c, monitor, period - 1)
      invariant |tiers| == period - 1 && IsRamp(c, tiers)
      invariant fraction == c.Exposure(period - 1) && streak == (period - 1) % c.Hold()
      invariant period > 1 ==> last == tiers[period - 2].action
    {
      BreachIsALimitBroken(c.limits, monitor(period));
      if RollbackRequired(c.limits, monitor(period)) {
        r := Program(CutBack, Cut, c.floor, tiers + [Tier(period, c.floor, Cut)]);
        Ended(c, monitor, maxPeriods, tiers, r);
        return;
      }
      streak := streak + 1;
      if fraction >= c.maxFraction {
        r := Program(CappedOut, Capped, fraction, tiers + [Tier(period, fraction, Capped)]);
        Ended(c, monitor, maxPeriods, tiers, r);
        return;
      }
      Climb(c, period - 1);
      Streak(c, period - 1, streak);
      if streak >= c.hold {
        fraction := Min(fraction + c.step, c.maxFraction);
        streak := 0;
        last := Advance;
      } else {
        last := Hold;
      }
      tiers := tiers + [Tier(period, fraction, last)];
    }
    r := Program(StillRamping, last, fraction, tiers);
    Unended(c, monitor, maxPeriods, r);
  }

  lemma Unended(c: Config, monitor: int -> Monitor, maxPeriods: int, r: Program)
    requires var bound := if maxPeriods <= 0 then 1 else maxPeriods;
             && r.boundary == StillRamping && |r.tiers| == bound && Clean(c, monitor, bound) && IsRamp(c, r.tiers)
             && r.action == r.tiers[bound - 1].action && r.fraction == c.Exposure(bound)
    ensures IsProgram(c, monitor, maxPeriods, r)
  {
  }

  /** A program that ends early has a last tier of its own. */
  lemma Ended(c: Config, monitor: int -> Monitor, maxPeriods: int, tiers: seq<Tier>, r: Program)
    requires |tiers| < (if maxPeriods <= 0 then 1 else maxPeriods)
    requires Clean(c, monitor, |tiers|) && IsRamp(c, tiers)
    requires var p := |tiers| + 1;
             || (!WithinLimits(c.limits, monitor(p))
                 && r == Program(CutBack, Cut, c.floor, tiers + [Tier(p, c.floor, Cut)]))
             || (WithinLimits(c.limits, monitor(p)) && c.AtCeiling(p)
                 && r == Program(CappedOut, Capped, c.Exposure(p - 1), tiers + [Tier(p, c.Exposure(p - 1), Capped)]))
    ensures IsProgram(c, monitor, maxPeriods, r)
  {
    hide IsRamp, Clean, WithinLimits, Config.AtCeiling;
    assert r.tiers[..|tiers|] == tiers;
  }

  lemma StartAtFloor(c: Config)
    ensures c.Exposure(0) == c.floor
    ensures 0 % c.Hold() == 0
  {
    DivModUnique(0, c.Hold(), 0, 0);
  }

  lemma Streak(c: Config, p: nat, streak: int)
    requires streak == p % c.Hold() + 1
    ensures streak >= c.hold <==> (p + 1) % c.Hold() == 0
    ensures streak < c.hold ==> streak == (p + 1) % c.Hold()
  {
    NextStep(p, c.Hold());
  }

  // ----- the ramp in closed form -----

  /** The number of steps that reach the ceiling. */
  function StepsToCeiling(c: Config): (n: int)
    requires c.step > 0.0
  {
    -((c.floor - c.maxFraction) / c.step).Floor
  }

  lemma ReachesExactly(c: Config, n: nat)
    requires c.step > 0.0
    ensures c.Ramp(n) >= c.maxFraction <==> n >= StepsToCeiling(c)
  {
    var x := (c.floor - c.maxFraction) / c.step;
    assert x * c.step == c.floor - c.maxFraction;
    if n as real + x >= 0.0 {
      ProductNonneg(n as real + x, c.step, (n as real + x) * c.step);
    } else {
      ProductPositive(-(n as real + x), c.step, -(n as real + x) * c.step);
    }
    SplitProduct(n as real, x, c.step);
    FloorBound(x, 0 - n);
  }

  lemma SplitProduct(a: real, b: real, k: real)
    ensures (a + b) * k == a * k + b * k
  {
  }

  lemma FloorBound(x: real, n: int)
    ensures x >= n as real <==> x.Floor >= n
  {
  }

  /** The ceiling is found exactly from period hold * ceil((max - floor) / step) + 1 on; never
      when the steps do not grow; and at once when the floor already is at it. */
  lemma CeilingPeriodExactly(c: Config, p: nat)
    requires p >= 1
    ensures c.floor >= c.maxFraction ==> c.AtCeiling(p)
    ensures c.floor < c.maxFraction && c.step > 0.0 ==>
              StepsToCeiling(c) >= 1 && (c.AtCeiling(p) <==> p >= c.Hold() * StepsToCeiling(c) + 1)
    ensures c.floor < c.maxFraction && c.step <= 0.0 ==> !c.AtCeiling(p)
  {
    var h := c.Hold();
    var n := (p - 1) / h;
    if c.floor < c.maxFraction {
      if c.step > 0.0 {
        ReachesExactly(c, n);
        ReachesExactly(c, 0);
        DivAtLeast(p - 1, h, StepsToCeiling(c));
      } else {
        ProductNonneg(n as real, -c.step, n as real * -c.step);
      }
    }
  }

  lemma DivAtLeast(n: nat, h: nat, q: nat)
    requires h >= 1
    ensures n / h >= q <==> n >= h * q
  {
    var d := n / h;
    assert n == h * d + n % h;
    if d >= q {
      assert h * d >= h * q;
    } else {
      assert h * (d + 1) <= h * q;
    }
  }

  /** No tier and no result ever exceeds the ceiling, whatever the monitors report, exactly when
      the floor does not. */
  lemma NeverAboveCeilingExactly(c: Config)
    ensures (forall monitor: int -> Monitor, bound: int, r: Program :: IsProgram(c, monitor, bound, r) ==>
              r.fraction <= c.maxFraction && forall k :: 0 <= k < |r.tiers| ==> r.tiers[k].fraction <= c.maxFraction)
            <==> c.floor <= c.maxFraction
  {
    if c.floor <= c.maxFraction {
      forall monitor: int -> Monitor, bound: int, r: Program | IsProgram(c, monitor, bound, r)
        ensures r.fraction <= c.maxFraction
        ensures forall k :: 0 <= k < |r.tiers| ==> r.tiers[k].fraction <= c.maxFraction
      {
        ProgramBelow(c, monitor, bound, r);
      }
    } else {
      var quiet: int -> Monitor := (p: int) =>
        Monitor(c.limits.maxDrawdownPct, c.limits.maxUnderperformanceBps, c.limits.maxFailedOrdersPct);
      var r := Program(CappedOut, Capped, c.floor, [Tier(1, c.floor, Capped)]);
      assert r.tiers[..0] == [];
      assert IsProgram(c, quiet, 1, r);
    }
  }

  lemma ProgramBelow(c: Config, monitor: int -> Monitor, bound: int, r: Program)
    requires IsProgram(c, monitor, bound, r) && c.floor <= c.maxFraction
    ensures r.fraction <= c.maxFraction
    ensures forall k :: 0 <= k < |r.tiers| ==> r.tiers[k].fraction <= c.maxFraction
  {
    hide Config.Ramp, Clean, WithinLimits, Config.AtCeiling;
    if r.boundary != StillRamping {
      var n := |r.tiers| - 1;
      forall k | 0 <= k < n ensures r.tiers[k].fraction <= c.maxFraction {
        assert r.tiers[..n][k] == r.tiers[k];
      }
    }
  }

  /** The end of a program is determined by the first breach and the first period at the ceiling:
      a breach not later than that cuts to the floor, and otherwise the ceiling ends it. */
  lemma EndExactly(c: Config, monitor: int -> Monitor, maxPeriods: int, r: Program)
    requires IsProgram(c, monitor, maxPeriods, r)
    ensures var bound := if maxPeriods <= 0 then 1 else maxPeriods;
            && (r.boundary == CutBack <==>
                exists p :: 1 <= p <= bound && !WithinLimits(c.limits, monitor(p)) && Clean(c, monitor, p - 1))
            && (r.boundary == CappedOut <==>
                exists p :: 1 <= p <= bound && c.AtCeiling(p) && WithinLimits(c.limits, monitor(p))
                            && Clean(c, monitor, p - 1))
  {
    hide Config.AtCeiling, WithinLimits, IsRamp;
    var n := |r.tiers| - 1;
    if r.boundary == CutBack {
      assert !WithinLimits(c.limits, monitor(n + 1)) && Clean(c, monitor, n + 1 - 1);
    } else if r.boundary == CappedOut {
      assert c.AtCeiling(n + 1) && Clean(c, monitor, n + 1 - 1);
    }
  }
}
