/** Performance by market regime: a volatility classifier, and the bucketing of one
    simulated equity curve by the regime of each bar. */
module Regimes {
  import opened Wrappers
  import opened RealMath
  import opened Grouping
  import opened Ordering
  import opened Backtesting
  import Baselines

  const HIGH_VOL := "high_vol"
  const LOW_VOL := "low_vol"
  const DEFAULT_WARMUP_TAG := "warmup"

  datatype RegimeError = BadPrice | LabelCountMismatch

  // ----- the classifier -----

  /** The settings the classifier's constructor accepts. */
  datatype Classifier = Classifier(window: nat, threshold: real, warmup: string) {
    predicate WellFormed() {
      window >= 2 && threshold > 0.0 && warmup != [] && warmup != HIGH_VOL && warmup != LOW_VOL
    }

    /** The bar-over-bar returns of the `window` bars ending at bar i. */
    function TrailingReturns(prices: seq<real>, i: nat): (r: seq<real>)
      requires window <= i < |prices| && forall k :: 0 <= k < |prices| ==> prices[k] > 0.0
      ensures |r| == window
    {
      seq(window, j requires 0 <= j < window => prices[i - window + j + 1] / prices[i - window + j] - 1.0)
    }

    /** A bar is turbulent when the sample variance of its trailing returns exceeds the
        squared threshold. */
    function LabelAt(prices: seq<real>, i: nat): string
      requires WellFormed() && i < |prices| && forall k :: 0 <= k < |prices| ==> prices[k] > 0.0
    {
      if i < window then warmup
      else if SampleVariance(TrailingReturns(prices, i)) > threshold * threshold then HIGH_VOL
      else LOW_VOL
    }
  }

  predicate Flat(prices: seq<real>) {
    forall i :: 0 <= i < |prices| ==> prices[i] == prices[0]
  }

  ghost predicate IsLabelling(c: Classifier, prices: seq<real>, labels: seq<string>)
    requires c.WellFormed() && forall k :: 0 <= k < |prices| ==> prices[k] > 0.0
  {
    && |labels| == |prices|
    && forall i :: 0 <= i < |labels| ==> labels[i] == if Flat(prices) then c.warmup else c.LabelAt(prices, i)
  }

  /** `VolatilityRegimeClassifier.labels`. */
  method Labels(c: Classifier, prices: seq<real>, sqrt: real -> real) returns (r: Result<seq<string>, RegimeError>)
    requires c.WellFormed() && IsSqrt(sqrt)
    ensures r.Err? <==> |prices| >= 2 && exists i :: 0 <= i < |prices| && prices[i] <= 0.0
    ensures r.Err? ==> r.error == BadPrice
    ensures r.Ok? && |prices| < 2 ==> r.value == seq(|prices|, _ => c.warmup)
    ensures r.Ok? && |prices| >= 2 ==> IsLabelling(c, prices, r.value)
  {
    if |prices| < 2 {
      return Ok(seq(|prices|, _ => c.warmup));
    }
    if exists i :: 0 <= i < |prices| && prices[i] <= 0.0 {
      return Err(BadPrice);
    }
    FlatMeansOneValue(prices);
    if |set p | p in prices| <= 1 {
      return Ok(seq(|prices|, _ => c.warmup));
    }
    var labels: seq<string> := [];
    for i := 0 to |prices|
      invariant |labels| == i
      invariant forall k :: 0 <= k < i ==> labels[k] == c.LabelAt(prices, k)
    {
      hide Classifier.LabelAt;
      var tag := LabelBar(c, prices, i, sqrt);
      labels := labels + [tag];
    }
    return Ok(labels);
  }

  /** One label: compare the volatility of the trailing window with the threshold. */
  method LabelBar(c: Classifier, prices: seq<real>, i: nat, sqrt: real -> real) returns (tag: string)
    requires c.WellFormed() && IsSqrt(sqrt) && i < |prices| && forall k :: 0 <= k < |prices| ==> prices[k] > 0.0
    ensures tag == c.LabelAt(prices, i)
  {
    if i < c.window {
      return c.warmup;
    }
    var trailing := c.TrailingReturns(prices, i);
    var deviations := Shift(trailing, Mean(trailing));
    var total := Dot(deviations, deviations);
    var variance := total / (|trailing| - 1) as real;
    DotZero(deviations);
    QuotientNonneg(total, (|trailing| - 1) as real);
    var vol := sqrt(variance);
    SqrtAbove(vol, variance, c.threshold);
    return if vol > c.threshold then HIGH_VOL else LOW_VOL;
  }

  lemma QuotientNonneg(x: real, y: real)
    requires x >= 0.0 && y > 0.0
    ensures x / y >= 0.0
  {
  }

  /** The trailing returns lead from each price of the window to the next, up to the bar's own. */
  lemma ReturnsReadBack(c: Classifier, prices: seq<real>, i: nat, j: nat)
    requires c.window <= i < |prices| && j < c.window && forall k :: 0 <= k < |prices| ==> prices[k] > 0.0
    ensures var r := c.TrailingReturns(prices, i);
            && prices[i - j - 1] * (1.0 + r[c.window - 1 - j]) == prices[i - j]
  {
    var p, n := prices[i - j - 1], prices[i - j];
    var q := n / p;
    assert q * p == n;
    assert p * (1.0 + (q - 1.0)) == q * p;
  }

  lemma FlatMeansOneValue(prices: seq<real>)
    requires |prices| > 0
    ensures |set p | p in prices| <= 1 <==> Flat(prices)
  {
    var values := set p | p in prices;
    if Flat(prices) {
      assert values == {prices[0]};
    } else {
      var i :| 0 <= i < |prices| && prices[i] != prices[0];
      SubsetSize({prices[0], prices[i]}, values);
    }
  }

  lemma SubsetSize<T>(a: set<T>, b: set<T>)
    requires a <= b
    ensures |a| <= |b|
  {
    assert b == a + (b - a);
  }

  /** Nothing moves on a flat stretch, so its trailing variance is zero. */
  lemma FlatWindowIsCalm(c: Classifier, prices: seq<real>, i: nat)
    requires c.WellFormed() && c.window <= i < |prices| && forall k :: 0 <= k < |prices| ==> prices[k] > 0.0
    requires forall k :: 0 <= k <= i ==> prices[k] == prices[0]
    ensures c.LabelAt(prices, i) == LOW_VOL
  {
    var r := c.TrailingReturns(prices, i);
    forall j | 0 <= j < |r| ensures r[j] == 0.0 {
      assert prices[i - c.window + j + 1] == prices[i - c.window + j];
      DivUnique(prices[i - c.window + j + 1], prices[i - c.window + j], 1.0);
    }
    MeanBounds(r, 0.0, 0.0);
    var d := Shift(r, Mean(r));
    DotZero(d);
    assert Dot(d, d) == 0.0;
    ProductPositive(c.threshold, c.threshold, c.threshold * c.threshold);
  }

  lemma LabelsAgree(c: Classifier, p: seq<real>, q: seq<real>, n: nat, i: nat)
    requires c.WellFormed() && n <= |p| && n <= |q| && p[..n] == q[..n] && i < n
    requires (forall k :: 0 <= k < |p| ==> p[k] > 0.0) && (forall k :: 0 <= k < |q| ==> q[k] > 0.0)
    ensures c.LabelAt(p, i) == c.LabelAt(q, i)
  {
    assert forall k :: 0 <= k < n ==> p[k] == p[..n][k] == q[k];
    if i >= c.window {
      assert c.TrailingReturns(p, i) == c.TrailingReturns(q, i);
    }
  }

  /** The labels of two series that share their first n bars agree on those bars exactly when
      no label past the warm-up is involved, or both series are flat to the end, or neither is. */
  lemma CausalExactly(c: Classifier, p: seq<real>, q: seq<real>, lp: seq<string>, lq: seq<string>, n: nat)
    requires c.WellFormed() && n <= |p| && n <= |q| && p[..n] == q[..n]
    requires (forall k :: 0 <= k < |p| ==> p[k] > 0.0) && (forall k :: 0 <= k < |q| ==> q[k] > 0.0)
    requires IsLabelling(c, p, lp) && IsLabelling(c, q, lq)
    ensures lp[..n] == lq[..n] <==> n <= c.window || (Flat(p) <==> Flat(q))
  {
    forall i | 0 <= i < n ensures c.LabelAt(p, i) == c.LabelAt(q, i) {
      LabelsAgree(c, p, q, n, i);
    }
    if n > c.window && (Flat(p) <==> !Flat(q)) {
      if Flat(p) {
        OneFlat(c, p, q, lp, lq, n);
      } else {
        OneFlat(c, q, p, lq, lp, n);
      }
    }
  }

  lemma OneFlat(c: Classifier, p: seq<real>, q: seq<real>, lp: seq<string>, lq: seq<string>, n: nat)
    requires c.WellFormed() && c.window < n <= |p| && n <= |q| && p[..n] == q[..n]
    requires (forall k :: 0 <= k < |p| ==> p[k] > 0.0) && (forall k :: 0 <= k < |q| ==> q[k] > 0.0)
    requires IsLabelling(c, p, lp) && IsLabelling(c, q, lq) && Flat(p) && !Flat(q)
    ensures lp[..n] != lq[..n]
  {
    assert forall k :: 0 <= k < n ==> p[k] == p[..n][k] == q[k];
    FlatWindowIsCalm(c, q, c.window);
    assert lp[..n][c.window] != lq[..n][c.window];
  }

  const TWO_BARS := Classifier(2, 1.0, DEFAULT_WARMUP_TAG)
  const STILL: seq<real> := [1.0, 1.0, 1.0, 1.0]
  const MOVED: seq<real> := [1.0, 1.0, 1.0, 2.0]

  /** One bar later than the window, the same three prices are labelled by what comes after them:
      warm-up when the series stays flat, low volatility when it moves at the end. */
  method LabelLooksAhead(sqrt: real -> real) returns (flat: seq<string>, moving: seq<string>)
    requires IsSqrt(sqrt)
    ensures IsLabelling(TWO_BARS, STILL, flat) && IsLabelling(TWO_BARS, MOVED, moving)
    ensures STILL[..3] == MOVED[..3] && flat[2] == DEFAULT_WARMUP_TAG && moving[2] == LOW_VOL
  {
    hide Classifier.LabelAt;
    var f := Labels(TWO_BARS, STILL, sqrt);
    var m := Labels(TWO_BARS, MOVED, sqrt);
    assert Flat(STILL) && MOVED[3] != MOVED[0];
    FlatWindowIsCalm(TWO_BARS, MOVED, 2);
    return f.value, m.value;
  }

  // ----- per-bar deltas -----

  datatype BarDelta = BarDelta(equityDeltaPct: real, marketReturnPct: real, exposed: bool)

  /** The change of the simulated equity curve over one bar, in percent of the starting
      equity, with the market's own return and whether a position was held. */
  function DeltaAt(curve: seq<real>, start: real, prices: seq<real>, targets: seq<real>, i: nat): BarDelta
    requires |curve| == |prices| == |targets| && i < |curve| && start > 0.0
    requires forall k :: 0 <= k < |prices| ==> prices[k] > 0.0
  {
    var previous := if i == 0 then start else curve[i - 1];
    BarDelta((curve[i] - previous) / start * 100.0,
             if i == 0 then 0.0 else (prices[i] / prices[i - 1] - 1.0) * 100.0,
             targets[i] != 0.0)
  }

  /** `_bar_deltas`. */
  method BarDeltas(curve: seq<real>, start: real, prices: seq<real>, targets: seq<real>) returns (deltas: seq<BarDelta>)
    requires |curve| == |prices| == |targets| && start > 0.0
    requires forall i :: 0 <= i < |prices| ==> prices[i] > 0.0
    ensures |deltas| == |curve|
    ensures forall i :: 0 <= i < |deltas| ==> deltas[i] == DeltaAt(curve, start, prices, targets, i)
  {
    hide DeltaAt;
    deltas := [];
    for i := 0 to |curve|
      invariant |deltas| == i
      invariant forall k :: 0 <= k < i ==> deltas[k] == DeltaAt(curve, start, prices, targets, k)
    {
      deltas := deltas + [DeltaAt(curve, start, prices, targets, i)];
    }
  }

  /** From its deltas and its start the run can be read back: each bar's price from the market move, its
      equity from the change in percent of the start, and whether a position was targeted. */
  lemma DeltasReadBack(curve: seq<real>, start: real, prices: seq<real>, targets: seq<real>, i: nat)
    requires |curve| == |prices| == |targets| && i < |curve| && start > 0.0
    requires forall k :: 0 <= k < |prices| ==> prices[k] > 0.0
    ensures var d := DeltaAt(curve, start, prices, targets, i);
            && (i == 0 ==> d.marketReturnPct == 0.0 && start + start * d.equityDeltaPct / 100.0 == curve[0])
            && (i > 0 ==>
                 && prices[i - 1] + prices[i - 1] * d.marketReturnPct / 100.0 == prices[i]
                 && curve[i - 1] + start * d.equityDeltaPct / 100.0 == curve[i])
            && (d.exposed <==> targets[i] > 0.0 || targets[i] < 0.0)
  {
    var previous := if i == 0 then start else curve[i - 1];
    PercentBack(curve[i] - previous, start);
    if i > 0 {
      PercentBack(prices[i] - prices[i - 1], prices[i - 1]);
      MoveOf(prices[i], prices[i - 1]);
    }
  }

  lemma PercentBack(x: real, base: real)
    requires base > 0.0
    ensures base * (x / base * 100.0) / 100.0 == x
  {
    var q := x / base;
    assert q * base == x;
  }

  lemma MoveOf(x: real, y: real)
    requires y > 0.0
    ensures x / y - 1.0 == (x - y) / y
  {
    var q := x / y;
    assert q * y == x;
    DivUnique(x - y, y, q - 1.0);
  }

  function EquityOf(d: BarDelta): real {
    d.equityDeltaPct
  }

  function MarketOf(d: BarDelta): real {
    d.marketReturnPct
  }

  function ExposureOf(d: BarDelta): real {
    if d.exposed then 1.0 else 0.0
  }

  /** Net of all costs, the bars' deltas telescope to the return of the whole run. */
  lemma {:induction false} DeltasTelescope(curve: seq<real>, start: real, prices: seq<real>, targets: seq<real>,
                                           deltas: seq<BarDelta>, n: nat)
    requires |curve| == |prices| == |targets| == |deltas| && start > 0.0 && n < |deltas|
    requires forall k :: 0 <= k < |prices| ==> prices[k] > 0.0
    requires forall i :: 0 <= i < |deltas| ==> deltas[i] == DeltaAt(curve, start, prices, targets, i)
    ensures Sum(Project(EquityOf, deltas)[..n + 1]) == (curve[n] / start - 1.0) * 100.0
  {
    var v := Project(EquityOf, deltas);
    SumStep(v, n);
    if n == 0 {
      TelescopeStep(start, curve[0], start);
      assert v[..0] == [];
    } else {
      DeltasTelescope(curve, start, prices, targets, deltas, n - 1);
      TelescopeStep(curve[n - 1], curve[n], start);
    }
  }

  lemma TelescopeStep(x: real, y: real, start: real)
    requires start > 0.0
    ensures (y - x) / start * 100.0 == (y / start - 1.0) * 100.0 - (x / start - 1.0) * 100.0
    ensures start / start == 1.0
  {
    assert (y / start) * start == y && (x / start) * start == x;
    DivUnique(y - x, start, y / start - x / start);
  }

  lemma {:induction false} ExposureCounted(b: Backtest, deltas: seq<BarDelta>, n: nat)
    requires b.Valid() && |deltas| == |b.targets| && n < |deltas|
    requires forall i :: 0 <= i < |deltas| ==> (deltas[i].exposed <==> b.targets[i] != 0.0)
    ensures Sum(Project(ExposureOf, deltas)[..n + 1]) == b.Exposure(n) as real
  {
    SumStep(Project(ExposureOf, deltas), n);
    if n > 0 {
      ExposureCounted(b, deltas, n - 1);
    } else {
      assert Project(ExposureOf, deltas)[..0] == [];
    }
  }

  // ----- buckets -----

  datatype Performance = Performance(regime: string, bars: nat, exposureBars: nat, returnPct: real,
                                     marketReturnPct: real, excessPct: real, positiveRate: real, shareOfBarsPct: real)

  /** Reporting order: tags alphabetically, the warm-up tag last. */
  predicate TagLe(a: string, b: string) {
    if (a == DEFAULT_WARMUP_TAG) != (b == DEFAULT_WARMUP_TAG) then b == DEFAULT_WARMUP_TAG else LexLe(a, b)
  }

  lemma TagOrder()
    ensures IsTotalOrder(TagLe)
  {
    LexIsTotalOrder();
    assert forall a, b :: LexLe(a, b) || LexLe(b, a);
    assert forall a, b :: LexLe(a, b) && LexLe(b, a) ==> a == b;
    forall a, b, c | TagLe(a, b) && TagLe(b, c) ensures TagLe(a, c) {
      if LexLe(a, b) && LexLe(b, c) {
        LexTransitive(a, b, c);
      }
    }
  }

  function CountExposed(entries: seq<BarDelta>): nat {
    if |entries| == 0 then 0
    else CountExposed(entries[..|entries| - 1]) + if entries[|entries| - 1].exposed then 1 else 0
  }

  /** What a block of the report says about the bars of its regime. */
  ghost predicate IsBlock(labels: seq<string>, deltas: seq<BarDelta>, p: Performance)
    requires |labels| == |deltas|
  {
    && p.bars == |Group(labels, deltas, p.regime)| > 0
    && p.exposureBars as real == GroupSum(labels, Project(ExposureOf, deltas), p.regime)
    && p.returnPct == GroupSum(labels, Project(EquityOf, deltas), p.regime)
    && p.marketReturnPct == GroupSum(labels, Project(MarketOf, deltas), p.regime)
    && p.excessPct == p.returnPct - p.marketReturnPct
    && p.shareOfBarsPct * |deltas| as real == p.bars as real * 100.0
    && p.positiveRate == GroupSum(labels, Project(GainOf, deltas), p.regime) / p.bars as real
  }

  function BlockOf(tag: string, entries: seq<BarDelta>, total: nat): Performance
    requires |entries| > 0 && total > 0
  {
    var returnPct, marketPct := Sum(Project(EquityOf, entries)), Sum(Project(MarketOf, entries));
    Performance(tag, |entries|, CountExposed(entries), returnPct, marketPct, returnPct - marketPct,
                Mean(Project(GainOf, entries)), (|entries| as real / total as real) * 100.0)
  }

  function GainOf(d: BarDelta): real {
    if d.equityDeltaPct > 0.0 then 1.0 else 0.0
  }

  lemma {:induction false} CountExposedSum(entries: seq<BarDelta>)
    ensures CountExposed(entries) as real == Sum(Project(ExposureOf, entries))
  {
    if |entries| > 0 {
      var n := |entries| - 1;
      CountExposedSum(entries[..n]);
      assert Project(ExposureOf, entries)[..n] == Project(ExposureOf, entries[..n]);
    }
  }

  lemma BlockIsExact(labels: seq<string>, deltas: seq<BarDelta>, tag: string)
    requires |labels| == |deltas| && |Group(labels, deltas, tag)| > 0
    ensures IsBlock(labels, deltas, BlockOf(tag, Group(labels, deltas, tag), |deltas|))
  {
    hide Group, Sum, Project;
    var entries := Group(labels, deltas, tag);
    GroupProject(EquityOf, labels, deltas, tag);
    GroupProject(MarketOf, labels, deltas, tag);
    GroupProject(ExposureOf, labels, deltas, tag);
    CountExposedSum(entries);
    GroupProject(GainOf, labels, deltas, tag);
    Baselines.PercentOf(|entries| as real, |deltas| as real);
  }

  /** The blocks of a report: one exact block for each label that occurs, in reporting order. */
  ghost predicate AreBlocks(labels: seq<string>, deltas: seq<BarDelta>, blocks: seq<Performance>)
    requires |labels| == |deltas|
  {
    && (forall j :: 0 <= j < |blocks| ==> IsBlock(labels, deltas, blocks[j]))
    && Ascending(Tags(blocks), TagLe)
    && (forall tag :: tag in Tags(blocks) <==> tag in labels)
  }

  function Tags(blocks: seq<Performance>): (t: seq<string>)
    ensures |t| == |blocks| && forall j :: 0 <= j < |t| ==> t[j] == blocks[j].regime
  {
    seq(|blocks|, j requires 0 <= j < |blocks| => blocks[j].regime)
  }

  /** The bars so far are grouped by label. */
  ghost predicate Grouped(labels: seq<string>, deltas: seq<BarDelta>, byRegime: map<string, seq<BarDelta>>)
    requires |labels| == |deltas|
  {
    && (forall tag :: tag in byRegime <==> tag in labels)
    && (forall tag :: tag in byRegime ==> byRegime[tag] == Group(labels, deltas, tag))
  }

  lemma GroupOneMore(labels: seq<string>, deltas: seq<BarDelta>, i: nat, byRegime: map<string, seq<BarDelta>>,
                     entries: seq<BarDelta>)
    requires |labels| == |deltas| && i < |labels| && Grouped(labels[..i], deltas[..i], byRegime)
    requires entries == if labels[i] in byRegime then byRegime[labels[i]] else []
    ensures Grouped(labels[..i + 1], deltas[..i + 1], byRegime[labels[i] := entries + [deltas[i]]])
  {
    hide Group;
    var tag := labels[i];
    GroupEmpty(labels[..i], deltas[..i], tag);
    assert labels[..i + 1] == labels[..i] + [tag];
    forall t ensures Group(labels[..i + 1], deltas[..i + 1], t) ==
                     if t == tag then Group(labels[..i], deltas[..i], t) + [deltas[i]]
                     else Group(labels[..i], deltas[..i], t)
    {
      GroupStep(labels, deltas, t, i);
      assert Group(labels[..i], deltas[..i], t) + [] == Group(labels[..i], deltas[..i], t);
    }
  }

  /** Collect the bars of each regime, in bar order. */
  method GroupByRegime(labels: seq<string>, deltas: seq<BarDelta>) returns (byRegime: map<string, seq<BarDelta>>)
    requires |labels| == |deltas|
    ensures Grouped(labels, deltas, byRegime)
  {
    hide Grouped;
    byRegime := map[];
    NothingGrouped(labels, deltas);
    for i := 0 to |labels|
      invariant Grouped(labels[..i], deltas[..i], byRegime)
    {
      var tag := labels[i];
      var entries := if tag in byRegime then byRegime[tag] else [];
      GroupOneMore(labels, deltas, i, byRegime, entries);
      byRegime := byRegime[tag := entries + [deltas[i]]];
    }
    assert labels[..|labels|] == labels && deltas[..|labels|] == deltas;
  }

  lemma NothingGrouped(labels: seq<string>, deltas: seq<BarDelta>)
    requires |labels| == |deltas|
    ensures Grouped(labels[..0], deltas[..0], map[])
  {
  }

  /** `_bucket`. */
  method Bucket(labels: seq<string>, deltas: seq<BarDelta>) returns (blocks: seq<Performance>)
    requires |labels| == |deltas|
    ensures AreBlocks(labels, deltas, blocks)
  {
    hide Group, BlockOf, IsBlock, TagLe;
    var byRegime := GroupByRegime(labels, deltas);
    TagOrder();
    var order := SortKeys(byRegime.Keys, TagLe);
    blocks := [];
    for j := 0 to |order|
      invariant |blocks| == j
      invariant forall k :: 0 <= k < j ==> blocks[k].regime == order[k] && IsBlock(labels, deltas, blocks[k])
    {
      var tag := order[j];
      assert tag in labels;
      GroupEmpty(labels, deltas, tag);
      BlockIsExact(labels, deltas, tag);
      BlockRegime(tag, byRegime[tag], |deltas|);
      blocks := blocks + [BlockOf(tag, byRegime[tag], |deltas|)];
    }
    assert Tags(blocks) == order;
  }

  lemma BlockRegime(tag: string, entries: seq<BarDelta>, total: nat)
    requires |entries| > 0 && total > 0
    ensures BlockOf(tag, entries, total).regime == tag
  {
  }

  // ----- reconciliation -----

  function ReturnOf(p: Performance): real {
    p.returnPct
  }

  function BarsOf(p: Performance): real {
    p.bars as real
  }

  function BlockExposure(p: Performance): real {
    p.exposureBars as real
  }

  /** Attribution neither loses nor invents anything: over the blocks, bars add up to all
      bars, returns to the sum of the bars' deltas, and exposure to the exposed bars. */
  lemma BlocksReconcile(labels: seq<string>, deltas: seq<BarDelta>, blocks: seq<Performance>)
    requires |labels| == |deltas| && AreBlocks(labels, deltas, blocks)
    ensures Sum(Project(ReturnOf, blocks)) == Sum(Project(EquityOf, deltas))
    ensures Sum(Project(BlockExposure, blocks)) == Sum(Project(ExposureOf, deltas))
    ensures Sum(Project(BarsOf, blocks)) == |deltas| as real
  {
    var tags := Tags(blocks);
    assert Distinct(tags);
    forall i | 0 <= i < |labels| ensures labels[i] in tags {
    }
    var equity, exposure := Project(EquityOf, deltas), Project(ExposureOf, deltas);
    GroupsReconcile(labels, equity, tags);
    GroupsReconcile(labels, exposure, tags);
    GroupsPartition(labels, deltas, tags);
    TotalOfGroups(labels, equity, tags, Project(ReturnOf, blocks));
    TotalOfGroups(labels, exposure, tags, Project(BlockExposure, blocks));
    TotalOfSizes(labels, deltas, tags, Project(BarsOf, blocks));
  }

  /** The deltas of the bars of a run with this curve. */
  ghost predicate AreDeltas(b: Backtest, curve: seq<real>, deltas: seq<BarDelta>)
    requires b.Valid()
  {
    && |deltas| == |curve| == |b.prices|
    && forall i :: 0 <= i < |deltas| ==> deltas[i] == DeltaAt(curve, b.start, b.prices, b.targets, i)
  }

  /** `RegimeEvaluator.evaluate` for the targets and labels it is given: one shared simulation,
      its deltas bucketed by regime. */
  method EvaluateByRegime(rate: real, targets: seq<real>, labels: seq<string>, prices: seq<real>, start: real)
    returns (r: Result<(Baselines.Report, seq<Performance>), Option<Backtesting.Error>>)
    ensures var b := Backtest(rate, prices, targets, start);
            && (r.Err? <==> !b.Valid() || b.OpensOnNothing() || |labels| != |prices|)
            && (r.Err? && r.error.None? ==> |labels| != |prices|)
            && (r.Ok? ==>
                 var (overall, blocks) := r.value;
                 && Baselines.Describes(b, overall)
                 && (exists deltas :: AreDeltas(b, overall.curve, deltas) && AreBlocks(labels, deltas, blocks))
                 && Sum(Project(ReturnOf, blocks)) == overall.totalReturnPct
                 && Sum(Project(BlockExposure, blocks)) == b.Exposure(|prices| - 1) as real
                 && Sum(Project(BarsOf, blocks)) == |prices| as real)
  {
    hide Sum, Project, Backtest.Exposure, Backtest.OpensOnNothing, Baselines.Describes, AreBlocks, DeltaAt;
    var overall := Baselines.Evaluate(rate, targets, prices, start);
    if overall.Err? {
      return Err(Some(overall.error));
    }
    if |labels| != |prices| {
      return Err(None);
    }
    ghost var b := Backtest(rate, prices, targets, start);
    DescribedCurve(b, overall.value);
    var deltas := BarDeltas(overall.value.curve, start, prices, targets);
    var blocks := Bucket(labels, deltas);
    BlocksReconcile(labels, deltas, blocks);
    DeltaTotals(b, overall.value, deltas);
    assert AreDeltas(b, overall.value.curve, deltas);
    return Ok((overall.value, blocks));
  }

  lemma DescribedCurve(b: Backtest, q: Baselines.Report)
    requires b.Valid() && Baselines.Describes(b, q)
    ensures |q.curve| == |b.prices| && q.curve[|b.prices| - 1] == q.finalEquity
  {
  }

  lemma ExposedDeltas(b: Backtest, curve: seq<real>, deltas: seq<BarDelta>)
    requires b.Valid() && |curve| == |b.prices| == |deltas|
    requires forall i :: 0 <= i < |deltas| ==> deltas[i] == DeltaAt(curve, b.start, b.prices, b.targets, i)
    ensures forall i :: 0 <= i < |deltas| ==> (deltas[i].exposed <==> b.targets[i] != 0.0)
  {
  }

  lemma DeltaTotals(b: Backtest, q: Baselines.Report, deltas: seq<BarDelta>)
    requires b.Valid() && Baselines.Describes(b, q) && |q.curve| == |deltas|
    requires forall i :: 0 <= i < |deltas| ==> deltas[i] == DeltaAt(q.curve, b.start, b.prices, b.targets, i)
    ensures Sum(Project(EquityOf, deltas)) == q.totalReturnPct
    ensures Sum(Project(ExposureOf, deltas)) == b.Exposure(|b.prices| - 1) as real
  {
    hide Sum, Baselines.Describes, Backtest.Exposure, DeltaAt;
    var last := |deltas| - 1;
    DescribedCurve(b, q);
    ExposedDeltas(b, q.curve, deltas);
    DeltasTelescope(q.curve, b.start, b.prices, b.targets, deltas, last);
    ExposureCounted(b, deltas, last);
    assert Project(EquityOf, deltas)[..last + 1] == Project(EquityOf, deltas);
    assert Project(ExposureOf, deltas)[..last + 1] == Project(ExposureOf, deltas);
    Baselines.TotalReturnIsFinal(b, q);
  }
}
