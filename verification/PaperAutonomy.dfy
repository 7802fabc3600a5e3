/** One autonomous paper campaign: days are run until a stay limit is breached or the window is
    complete, and the evidence then faces the canary gate. */
module PaperAutonomy {
  import opened RealMath
  import opened Wrappers
  import Baselines

  datatype Outcome = Outcome(day: int, returnPct: real, expectedPct: real, failedOrders: int, totalOrders: int)

  datatype Limits = Limits(
    validationSamplesMin: int, validationSharpeMin: real, paperDaysMin: int, paperSharpeMin: real, canaryDaysMin: int,
    maxDrawdownPct: real, maxUnderperformanceBps: real, maxFailedOrdersPct: real)

  datatype Evidence = Evidence(
    validationSamples: Option<int>, validationSharpe: Option<real>, paperDays: Option<int>, paperSharpe: Option<real>,
    canaryDays: Option<int>)

  datatype Environment = Research | Validation | Paper | Canary | Production

  // ----- the promotion gates -----

  predicate EnoughDays(value: Option<int>, floor: int) {
    value.Some? && value.value >= floor
  }

  predicate EnoughSharpe(value: Option<real>, floor: real) {
    value.Some? && value.value >= floor
  }

  /** The cumulative gate into an environment. */
  predicate Allowed(c: Limits, target: Environment, e: Evidence) {
    && (target in {Paper, Canary, Production} ==>
         && EnoughDays(e.validationSamples, c.validationSamplesMin)
         && EnoughSharpe(e.validationSharpe, c.validationSharpeMin))
    && (target in {Canary, Production} ==>
         EnoughDays(e.paperDays, c.paperDaysMin) && EnoughSharpe(e.paperSharpe, c.paperSharpeMin))
    && (target == Production ==> EnoughDays(e.canaryDays, c.canaryDaysMin))
  }

  function Demoted(e: Evidence): Evidence {
    Evidence(e.validationSamples, e.validationSharpe, None, None, None)
  }

  function Accumulated(e: Evidence, days: nat, sharpe: real): Evidence {
    Evidence(e.validationSamples, e.validationSharpe,
             Some((if e.paperDays.Some? then e.paperDays.value else 0) + days), Some(sharpe), e.canaryDays)
  }

  /** No gate can be leapfrogged: each adds its own demand to the one before. A demotion closes every
      gate above paper under every configuration while leaving the gates up to paper as they were. */
  lemma GatesAreCumulative(c: Limits, e: Evidence, target: Environment)
    ensures Allowed(c, Research, e) && Allowed(c, Validation, e)
    ensures Allowed(c, Paper, e) <==>
            && e.validationSamples.Some? && c.validationSamplesMin <= e.validationSamples.value
            && e.validationSharpe.Some? && c.validationSharpeMin <= e.validationSharpe.value
    ensures Allowed(c, Canary, e) <==>
            && Allowed(c, Paper, e)
            && e.paperDays.Some? && c.paperDaysMin <= e.paperDays.value
            && e.paperSharpe.Some? && c.paperSharpeMin <= e.paperSharpe.value
    ensures Allowed(c, Production, e) <==>
            Allowed(c, Canary, e) && e.canaryDays.Some? && c.canaryDaysMin <= e.canaryDays.value
    ensures Allowed(c, target, Demoted(e)) <==> target !in {Canary, Production} && Allowed(c, target, e)
  {
  }

  // ----- the campaign so far -----

  function Returns(os: seq<Outcome>): (r: seq<real>)
    ensures |r| == |os| && forall i :: 0 <= i < |os| ==> r[i] == os[i].returnPct
  {
    seq(|os|, i requires 0 <= i < |os| => os[i].returnPct)
  }

  function Expected(os: seq<Outcome>): (r: seq<real>)
    ensures |r| == |os| && forall i :: 0 <= i < |os| ==> r[i] == os[i].expectedPct
  {
    seq(|os|, i requires 0 <= i < |os| => os[i].expectedPct)
  }

  /** Equity at the start and after every day. */
  function Path(os: seq<Outcome>): (e: seq<real>)
    ensures |e| == |os| + 1
  {
    if |os| == 0 then [1.0]
    else
      var e := Path(os[..|os| - 1]);
      e + [Grown(e[|os| - 1], os[|os| - 1].returnPct)]
  }

  function Grown(equity: real, returnPct: real): real {
    equity * (1.0 + returnPct / 100.0)
  }

  function Failed(os: seq<Outcome>): int {
    if |os| == 0 then 0 else Failed(os[..|os| - 1]) + os[|os| - 1].failedOrders
  }

  function Orders(os: seq<Outcome>): int {
    if |os| == 0 then 0 else Orders(os[..|os| - 1]) + os[|os| - 1].totalOrders
  }

  function FailedPct(failed: int, orders: int): real {
    if orders > 0 then failed as real / orders as real * 100.0 else 0.0
  }

  function Shortfall(actual: real, expected: real): real {
    Max(0.0, expected * 100.0 - actual * 100.0)
  }

  /** The fall from the running peak after k days, in percent. */
  function FallPct(e: seq<real>, k: nat): real
    requires k < |e|
  {
    Baselines.DrawdownAt(e, k) * 100.0
  }

  function DropPct(peak: real, value: real): real
    requires peak > 0.0
  {
    (peak - value) / peak * 100.0
  }

  ghost predicate IsDeepestOf(e: seq<real>, pct: real) {
    && (exists k :: 0 <= k < |e| && pct == FallPct(e, k))
    && forall k :: 0 <= k < |e| ==> FallPct(e, k) <= pct
  }

  /** The deepest fall from a running peak so far, in percent. */
  ghost predicate IsDeepest(os: seq<Outcome>, pct: real) {
    IsDeepestOf(Path(os), pct)
  }

  predicate Breach(c: Limits, deepest: real, actual: real, expected: real, failed: int, orders: int) {
    || FailedPct(failed, orders) > c.maxFailedOrdersPct
    || deepest > c.maxDrawdownPct
    || Shortfall(actual, expected) > c.maxUnderperformanceBps
  }

  ghost predicate FallsBelow(e: seq<real>, pct: real) {
    exists k :: 0 <= k < |e| && FallPct(e, k) > pct
  }

  /** The days so far breach a stay limit: too many failed orders, some fall from a peak that is
      too deep, or too large a shortfall against the expectation. */
  ghost predicate Breached(c: Limits, os: seq<Outcome>) {
    || FailedPct(Failed(os), Orders(os)) > c.maxFailedOrdersPct
    || FallsBelow(Path(os), c.maxDrawdownPct)
    || Shortfall(Sum(Returns(os)), Sum(Expected(os))) > c.maxUnderperformanceBps
  }

  /** A campaign stops after these days. */
  ghost predicate Over(c: Limits, target: int, os: seq<Outcome>) {
    (|os| > 0 && Breached(c, os)) || |os| >= target
  }

  ghost predicate Retired(c: Limits, os: seq<Outcome>) {
    |os| > 0 && Breached(c, os)
  }

  /** These are exactly the days a campaign runs: it stops after them and not before. */
  ghost predicate IsWholeCampaign(c: Limits, target: int, os: seq<Outcome>) {
    Over(c, target, os) && forall k :: 0 <= k < |os| ==> !Over(c, target, os[..k])
  }

  // ----- the Sharpe ratio -----

  /** Annualised over 252 trading days; 0 without two differing returns. */
  function Sharpe(v: seq<real>, sqrt: real -> real): real {
    if |v| < 2 || SampleVariance(v) <= 0.0 || sqrt(SampleVariance(v)) <= 0.0 then 0.0
    else Mean(v) / sqrt(SampleVariance(v)) * sqrt(252.0)
  }

  /** The ratio is zero exactly when nothing was earned on average or the returns do not differ,
      and otherwise it has the sign of the average return. */
  lemma SharpeSign(v: seq<real>, sqrt: real -> real)
    requires IsSqrt(sqrt) && |v| >= 2
    ensures (forall i :: 0 <= i < |v| ==> v[i] == Mean(v)) ==> Sharpe(v, sqrt) == 0.0
    ensures !(forall i :: 0 <= i < |v| ==> v[i] == Mean(v)) ==>
              (Sharpe(v, sqrt) > 0.0 <==> Mean(v) > 0.0) && (Sharpe(v, sqrt) < 0.0 <==> Mean(v) < 0.0)
  {
    hide Dot, Mean;
    var d := Shift(v, Mean(v));
    DotZero(d);
    assert (forall i :: 0 <= i < |v| ==> v[i] == Mean(v)) <==> !(exists i :: 0 <= i < |d| && d[i] != 0.0);
    var n := (|v| - 1) as real;
    assert SampleVariance(v) * n == Dot(d, d);
    if Dot(d, d) > 0.0 {
      SignOfRatio(Mean(v), SampleVariance(v), sqrt(SampleVariance(v)), sqrt(252.0));
    }
  }

  /** Its square is that of the average return over the sample variance, times the 252 days of a year. */
  lemma SharpeExactly(v: seq<real>, m: real, d: seq<real>, sqrt: real -> real)
    requires IsSqrt(sqrt) && |v| == |d| >= 2 && m * |v| as real == Sum(v)
    requires (forall i :: 0 <= i < |v| ==> d[i] == v[i] - m) && Dot(d, d) > 0.0
    ensures var s := Sharpe(v, sqrt); s * s * Dot(d, d) == 252.0 * m * m * (|v| - 1) as real
  {
    hide Dot, Sum, SampleVariance, Sharpe;
    DivUnique(Sum(v), |v| as real, m);
    assert d == Shift(v, m);
    var n, x := (|v| - 1) as real, SampleVariance(v);
    VarianceTimes(v);
    Baselines.SameSign(x, n, x * n);
    RootPositive(sqrt(x), x);
    SharpeOf(v, sqrt);
    RatioSquared(m, x, sqrt(x), sqrt(252.0), n);
  }

  lemma VarianceTimes(v: seq<real>)
    requires |v| >= 2
    ensures SampleVariance(v) * (|v| - 1) as real == Dot(Shift(v, Mean(v)), Shift(v, Mean(v)))
  {
    hide Dot, Mean;
  }

  lemma SharpeOf(v: seq<real>, sqrt: real -> real)
    requires |v| >= 2 && SampleVariance(v) > 0.0 && sqrt(SampleVariance(v)) > 0.0
    ensures Sharpe(v, sqrt) == Mean(v) / sqrt(SampleVariance(v)) * sqrt(252.0)
  {
    hide SampleVariance, Mean;
  }

  lemma RatioSquared(m: real, x: real, root: real, year: real, n: real)
    requires root > 0.0 && root * root == x && year * year == 252.0
    ensures var s := m / root * year; s * s * (x * n) == 252.0 * m * m * n
  {
    var q := m / root;
    assert q * root == m;
    var s := q * year;
    assert s * s == q * q * 252.0;
    assert q * q * x == m * m;
    assert s * s * (x * n) == 252.0 * (q * q * x) * n;
  }

  lemma SignOfRatio(m: real, x: real, root: real, year: real)
    requires root >= 0.0 && root * root == x && x > 0.0 && year >= 0.0 && year * year == 252.0
    ensures root > 0.0
    ensures var s := m / root * year; (s > 0.0 <==> m > 0.0) && (s < 0.0 <==> m < 0.0)
  {
    RootPositive(root, x);
    RootPositive(year, 252.0);
    var q := m / root;
    assert q * root == m;
    var s := q * year;
    if q > 0.0 {
      ProductPositive(q, root, m);
      ProductPositive(q, year, s);
    } else if q < 0.0 {
      ProductPositive(-q, root, -m);
      ProductPositive(-q, year, -s);
    }
  }

  // ----- the runner -----

  datatype Verdict = Advanced | Hold | RetiredEarly

  datatype Day = Day(day: int, returnPct: real, drawdownPct: real, retired: bool)

  datatype Campaign = Campaign(daysRun: nat, verdict: Verdict, sharpe: real, drawdownPct: real, evidence: Evidence,
                               periods: seq<Day>)

  /** The first n days the day function produces. */
  function Days(dayFn: int -> Outcome, n: nat): (os: seq<Outcome>)
    ensures |os| == n && forall i :: 0 <= i < n ==> os[i] == dayFn(i + 1)
  {
    seq(n, i => dayFn(i + 1))
  }

  /** What a finished campaign reports about the days it ran. */
  ghost predicate Reports(c: Limits, initial: Evidence, os: seq<Outcome>, sqrt: real -> real, r: Campaign) {
    && r.daysRun == |os| && r.sharpe == Sharpe(Returns(os), sqrt) && IsDeepest(os, r.drawdownPct)
    && (r.verdict == RetiredEarly <==> Retired(c, os))
    && r.evidence == (if Retired(c, os) then Demoted(initial) else Accumulated(initial, |os|, r.sharpe))
    && (r.verdict == Advanced <==> !Retired(c, os) && Allowed(c, Canary, r.evidence))
    && |r.periods| == |os|
    && forall k :: 0 <= k < |os| ==>
         r.periods[k] == Day(k + 1, os[k].returnPct, FallPct(Path(os), k + 1),
                             Retired(c, os) && k == |os| - 1)
  }

  /** The running totals agree with the days so far. */
  ghost predicate Tallied(os: seq<Outcome>, equity: real, peak: real, deepest: real, gains: seq<real>,
                          expected: seq<real>, failed: int, orders: int) {
    && equity == Path(os)[|os|] && peak == Baselines.PeakAt(Path(os), |os|) && peak > 0.0
    && IsDeepest(os, deepest) && gains == Returns(os) && expected == Expected(os)
    && failed == Failed(os) && orders == Orders(os)
  }

  lemma PathStep(os: seq<Outcome>, o: Outcome)
    ensures Path(os + [o]) == Path(os) + [Grown(Path(os)[|os|], o.returnPct)]
  {
    assert (os + [o])[..|os|] == os;
  }

  lemma {:induction false} PeakPrefix(e: seq<real>, v: real, k: nat)
    requires k < |e|
    ensures Baselines.PeakAt(e + [v], k) == Baselines.PeakAt(e, k)
  {
    if k > 0 {
      PeakPrefix(e, v, k - 1);
    }
  }

  lemma FallPrefix(e: seq<real>, v: real, k: nat)
    requires k < |e|
    ensures FallPct(e + [v], k) == FallPct(e, k)
  {
    PeakPrefix(e, v, k);
  }

  lemma TallyStep(os: seq<Outcome>, o: Outcome, equity: real, peak: real, deepest: real, gains: seq<real>,
                  expected: seq<real>, failed: int, orders: int)
    requires Tallied(os, equity, peak, deepest, gains, expected, failed, orders)
    ensures var e := Grown(equity, o.returnPct);
            var p := if e > peak then e else peak;
            var d := DropPct(p, e);
            && Tallied(os + [o], e, p, Max(deepest, d), gains + [o.returnPct], expected + [o.expectedPct],
                       failed + o.failedOrders, orders + o.totalOrders)
            && d == FallPct(Path(os + [o]), |os| + 1)
  {
    hide IsDeepestOf, Grown, FallPct, DropPct, Baselines.PeakAt, Sum;
    var path := Path(os);
    PathStep(os, o);
    CurveStep(path, peak, deepest, Grown(equity, o.returnPct));
    ListStep(os, o);
  }

  lemma ListStep(os: seq<Outcome>, o: Outcome)
    ensures Returns(os + [o]) == Returns(os) + [o.returnPct]
    ensures Expected(os + [o]) == Expected(os) + [o.expectedPct]
    ensures Failed(os + [o]) == Failed(os) + o.failedOrders
    ensures Orders(os + [o]) == Orders(os) + o.totalOrders
  {
    assert (os + [o])[..|os|] == os;
  }

  lemma CurveStep(path: seq<real>, peak: real, deepest: real, e: real)
    requires |path| > 0 && peak == Baselines.PeakAt(path, |path| - 1) && peak > 0.0 && IsDeepestOf(path, deepest)
    ensures var p := if e > peak then e else peak;
            var d := DropPct(p, e);
            && p == Baselines.PeakAt(path + [e], |path|) && d == FallPct(path + [e], |path|)
            && IsDeepestOf(path + [e], Max(deepest, d))
  {
    hide FallPct, DropPct, Baselines.PeakAt;
    var path' := path + [e];
    PeakPrefix(path, e, |path| - 1);
    PeakStep(path', |path|, peak);
    KeptDeepest(path, e, deepest, FallPct(path', |path|));
  }

  lemma KeptDeepest(path: seq<real>, e: real, deepest: real, d: real)
    requires IsDeepestOf(path, deepest) && d == FallPct(path + [e], |path|)
    ensures IsDeepestOf(path + [e], Max(deepest, d))
  {
    hide FallPct;
    var path' := path + [e];
    forall k | 0 <= k < |path| ensures FallPct(path', k) == FallPct(path, k) {
      FallPrefix(path, e, k);
    }
    assert d == FallPct(path', |path|);
    if d <= deepest {
      var k :| 0 <= k < |path| && deepest == FallPct(path, k);
      assert deepest == FallPct(path', k);
    }
  }

  lemma PeakStep(e: seq<real>, k: nat, peak: real)
    requires 0 < k < |e| && Baselines.PeakAt(e, k - 1) == peak > 0.0
    ensures var p := if e[k] > peak then e[k] else peak;
            p > 0.0 && Baselines.PeakAt(e, k) == p && FallPct(e, k) == DropPct(p, e[k])
  {
  }

  lemma TallyBreach(c: Limits, os: seq<Outcome>, equity: real, peak: real, deepest: real, gains: seq<real>,
                    expected: seq<real>, failed: int, orders: int)
    requires Tallied(os, equity, peak, deepest, gains, expected, failed, orders)
    ensures Breach(c, deepest, Sum(gains), Sum(expected), failed, orders) <==> Breached(c, os)
  {
  }

  /** The evidence after a campaign: a retired one leaves only the validation results, any other adds
      its days and sets its ratio; it advances exactly when that evidence meets the demands of canary. */
  predicate EarnsEvidence(c: Limits, initial: Evidence, r: Campaign) {
    var e, base := r.evidence, if initial.paperDays.Some? then initial.paperDays.value else 0;
    && e.validationSamples == initial.validationSamples && e.validationSharpe == initial.validationSharpe
    && (r.verdict == RetiredEarly ==> e.paperDays == None && e.paperSharpe == None && e.canaryDays == None)
    && (r.verdict != RetiredEarly ==>
         e.paperDays == Some(base + r.daysRun) && e.paperSharpe == Some(r.sharpe) && e.canaryDays == initial.canaryDays)
    && (r.verdict == Advanced <==>
         && r.verdict != RetiredEarly && base + r.daysRun >= c.paperDaysMin && r.sharpe >= c.paperSharpeMin
         && initial.validationSamples.Some? && initial.validationSamples.value >= c.validationSamplesMin
         && initial.validationSharpe.Some? && initial.validationSharpe.value >= c.validationSharpeMin)
  }

  method RunCampaign(c: Limits, target: int, initial: Evidence, dayFn: int -> Outcome, sqrt: real -> real)
    returns (r: Campaign)
    ensures IsWholeCampaign(c, target, Days(dayFn, r.daysRun))
    ensures Reports(c, initial, Days(dayFn, r.daysRun), sqrt, r)
    ensures EarnsEvidence(c, initial, r)
  {
    hide Tallied, Breached, Sharpe, IsDeepest, Path, FallPct, DropPct, Grown, Breach, Sum;
    var equity, peak, deepest := 1.0, 1.0, 0.0;
    var gains: seq<real>, expected: seq<real> := [], [];
    var failed, orders := 0, 0;
    var periods: seq<Day> := [];
    var day := 0;
    TallyStart();
    while day < target
      invariant 0 <= day && (day == 0 || day <= target)
      invariant Tallied(Days(dayFn, day), equity, peak, deepest, gains, expected, failed, orders)
      invariant forall k :: 0 < k <= day ==> !Breached(c, Days(dayFn, k))
      invariant |periods| == day
      invariant forall k :: 0 <= k < day ==>
                  periods[k] == Day(k + 1, dayFn(k + 1).returnPct,
                                    FallPct(Path(Days(dayFn, day)), k + 1), false)
    {
      ghost var before := Days(dayFn, day);
      day := day + 1;
      var o := dayFn(day);
      ghost var os := Days(dayFn, day);
      assert os == before + [o];
      TallyStep(before, o, equity, peak, deepest, gains, expected, failed, orders);
      PeriodsKept(before, o);
      gains, expected := gains + [o.returnPct], expected + [o.expectedPct];
      failed, orders := failed + o.failedOrders, orders + o.totalOrders;
      equity := Grown(equity, o.returnPct);
      peak := if equity > peak then equity else peak;
      PeakPositive(os, equity, peak, gains, expected, failed, orders);
      var drawdown := DropPct(peak, equity);
      deepest := Max(deepest, drawdown);
      TallyBreach(c, os, equity, peak, deepest, gains, expected, failed, orders);
      if Breach(c, deepest, Sum(gains), Sum(expected), failed, orders) {
        periods := periods + [Day(day, o.returnPct, drawdown, true)];
        r := Campaign(day, RetiredEarly, Sharpe(gains, sqrt), deepest, Demoted(initial), periods);
        TallyFields(os, equity, peak, deepest, gains, expected, failed, orders);
        FirstBreach(c, target, dayFn, day);
        return;
      }
      periods := periods + [Day(day, o.returnPct, drawdown, false)];
    }
    var sharpe := Sharpe(gains, sqrt);
    var evidence := Accumulated(initial, day, sharpe);
    r := Campaign(day, if Allowed(c, Canary, evidence) then Advanced else Hold, sharpe, deepest, evidence, periods);
    TallyFields(Days(dayFn, day), equity, peak, deepest, gains, expected, failed, orders);
    FirstBreach(c, target, dayFn, day);
  }

  lemma TallyStart()
    ensures Tallied([], 1.0, 1.0, 0.0, [], [], 0, 0)
  {
    assert Path([]) == [1.0];
    assert FallPct([1.0], 0) == 0.0;
  }

  lemma PeakPositive(os: seq<Outcome>, equity: real, peak: real, gains: seq<real>, expected: seq<real>,
                     failed: int, orders: int)
    requires exists deepest :: Tallied(os, equity, peak, deepest, gains, expected, failed, orders)
    ensures peak > 0.0
  {
  }

  lemma TallyFields(os: seq<Outcome>, equity: real, peak: real, deepest: real, gains: seq<real>,
                    expected: seq<real>, failed: int, orders: int)
    requires Tallied(os, equity, peak, deepest, gains, expected, failed, orders)
    ensures gains == Returns(os) && IsDeepest(os, deepest)
  {
  }

  lemma PeriodsKept(os: seq<Outcome>, o: Outcome)
    ensures forall k :: 0 <= k <= |os| ==>
              FallPct(Path(os + [o]), k) == FallPct(Path(os), k)
  {
    PathStep(os, o);
    hide FallPct, Grown;
    forall k | 0 <= k <= |os|
      ensures FallPct(Path(os + [o]), k) == FallPct(Path(os), k)
    {
      FallPrefix(Path(os), Grown(Path(os)[|os|], o.returnPct), k);
    }
  }

  lemma FirstBreach(c: Limits, target: int, dayFn: int -> Outcome, n: nat)
    requires n == 0 || n <= target
    requires forall k :: 0 < k < n ==> !Breached(c, Days(dayFn, k))
    requires n >= target || (n > 0 && Breached(c, Days(dayFn, n)))
    ensures IsWholeCampaign(c, target, Days(dayFn, n))
  {
    hide Breached;
    var os := Days(dayFn, n);
    forall k | 0 <= k < n ensures !Over(c, target, os[..k]) {
      assert os[..k] == Days(dayFn, k);
    }
  }
}
