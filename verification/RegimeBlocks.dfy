/** What the blocks of a regime report say about the bars of the run, counted and added bar by bar. */
module RegimeBlocks {
  import opened RealMath
  import opened Ordering
  import opened Grouping
  import opened Backtesting
  import opened Regimes

  /** The market's moves over the bars of one regime, added up. */
  ghost function MoveOver(labels: seq<string>, prices: seq<real>, tag: string): real
    requires |labels| == |prices| && forall k :: 0 <= k < |prices| ==> prices[k] > 0.0
  {
    if |labels| == 0 then 0.0
    else
      var n := |labels| - 1;
      MoveOver(labels[..n], prices[..n], tag)
      + if n > 0 && labels[n] == tag then (prices[n] - prices[n - 1]) / prices[n - 1] * 100.0 else 0.0
  }

  /** The bars of one regime. */
  ghost function BarsIn(labels: seq<string>, tag: string): set<nat> {
    set i: nat | i < |labels| && labels[i] == tag
  }

  /** Those at which a position was targeted. */
  ghost function ExposedIn(labels: seq<string>, targets: seq<real>, tag: string): set<nat>
    requires |labels| == |targets|
  {
    set i: nat | i < |labels| && labels[i] == tag && targets[i] != 0.0
  }

  /** Those that left the account higher than they found it. */
  ghost function GainedIn(labels: seq<string>, curve: seq<real>, start: real, tag: string): set<nat>
    requires |labels| == |curve|
  {
    set i: nat | i < |labels| && labels[i] == tag && curve[i] > (if i == 0 then start else curve[i - 1])
  }

  ghost function HitsIn(labels: seq<string>, v: seq<real>, tag: string): set<nat>
    requires |labels| == |v|
  {
    set i: nat | i < |labels| && labels[i] == tag && v[i] == 1.0
  }

  lemma {:induction false} BarsCounted<V>(labels: seq<string>, v: seq<V>, tag: string)
    requires |labels| == |v|
    ensures |Group(labels, v, tag)| == |BarsIn(labels, tag)|
  {
    if |v| > 0 {
      var n := |v| - 1;
      BarsCounted(labels[..n], v[..n], tag);
      assert BarsIn(labels, tag) == BarsIn(labels[..n], tag) + if labels[n] == tag then {n} else {};
    }
  }

  /** Over zeros and ones the sum of a group counts the ones. */
  lemma {:induction false} HitsCounted(labels: seq<string>, v: seq<real>, tag: string)
    requires |labels| == |v| && forall i :: 0 <= i < |v| ==> v[i] == 0.0 || v[i] == 1.0
    ensures GroupSum(labels, v, tag) == |HitsIn(labels, v, tag)| as real
  {
    hide GroupSum, HitsIn;
    if |v| == 0 {
      NothingSummed(labels, v, tag);
    } else {
      var n := |v| - 1;
      HitsCounted(labels[..n], v[..n], tag);
      GroupSumStep(labels, v, tag);
      HitsStep(labels, v, tag);
    }
  }

  lemma HitsStep(labels: seq<string>, v: seq<real>, tag: string)
    requires |labels| == |v| > 0
    ensures var n := |v| - 1;
            |HitsIn(labels, v, tag)| ==
            |HitsIn(labels[..n], v[..n], tag)| + if labels[n] == tag && v[n] == 1.0 then 1 else 0
  {
    var n := |v| - 1;
    assert HitsIn(labels, v, tag) ==
           HitsIn(labels[..n], v[..n], tag) + if labels[n] == tag && v[n] == 1.0 then {n} else {};
  }

  lemma NothingSummed(labels: seq<string>, v: seq<real>, tag: string)
    requires |labels| == |v| == 0
    ensures GroupSum(labels, v, tag) == 0.0 && HitsIn(labels, v, tag) == {}
  {
  }

  lemma {:induction false} MovesAdded(labels: seq<string>, prices: seq<real>, v: seq<real>, tag: string)
    requires |labels| == |prices| == |v| && forall k :: 0 <= k < |prices| ==> prices[k] > 0.0
    requires forall i :: 0 <= i < |v| ==>
               v[i] == if i == 0 then 0.0 else (prices[i] / prices[i - 1] - 1.0) * 100.0
    ensures GroupSum(labels, v, tag) == MoveOver(labels, prices, tag)
  {
    hide GroupSum;
    if |v| == 0 {
      NothingSummed(labels, v, tag);
    } else {
      var n := |v| - 1;
      MovesAdded(labels[..n], prices[..n], v[..n], tag);
      GroupSumStep(labels, v, tag);
      if n > 0 {
        MoveOf(prices[n], prices[n - 1]);
      }
    }
  }

  lemma ExposedCounted(b: Backtest, curve: seq<real>, labels: seq<string>, deltas: seq<BarDelta>, tag: string)
    requires b.Valid() && AreDeltas(b, curve, deltas) && |labels| == |deltas|
    ensures GroupSum(labels, Project(ExposureOf, deltas), tag) == |ExposedIn(labels, b.targets, tag)| as real
  {
    hide Group, GroupSum;
    var v := Project(ExposureOf, deltas);
    HitsCounted(labels, v, tag);
    assert HitsIn(labels, v, tag) == ExposedIn(labels, b.targets, tag);
  }

  lemma GainsCounted(b: Backtest, curve: seq<real>, labels: seq<string>, deltas: seq<BarDelta>, tag: string)
    requires b.Valid() && AreDeltas(b, curve, deltas) && |labels| == |deltas|
    ensures GroupSum(labels, Project(GainOf, deltas), tag) == |GainedIn(labels, curve, b.start, tag)| as real
  {
    hide Group, GroupSum;
    var v := Project(GainOf, deltas);
    forall i | 0 <= i < |deltas| ensures v[i] == 1.0 <==> curve[i] > (if i == 0 then b.start else curve[i - 1]) {
      RiseInPercent(curve[i] - (if i == 0 then b.start else curve[i - 1]), b.start);
    }
    HitsCounted(labels, v, tag);
    assert HitsIn(labels, v, tag) == GainedIn(labels, curve, b.start, tag);
  }

  lemma MovesOfDeltas(b: Backtest, curve: seq<real>, labels: seq<string>, deltas: seq<BarDelta>, tag: string)
    requires b.Valid() && AreDeltas(b, curve, deltas) && |labels| == |deltas|
    ensures GroupSum(labels, Project(MarketOf, deltas), tag) == MoveOver(labels, b.prices, tag)
  {
    hide Group, GroupSum, MoveOver;
    MovesAdded(labels, b.prices, Project(MarketOf, deltas), tag);
  }

  /** A block tells of the bars of its own regime: how many there are and at how many a position was
      targeted, the share of them that left the account higher, and the market's moves over them. */
  lemma BlockInBars(b: Backtest, curve: seq<real>, labels: seq<string>, deltas: seq<BarDelta>, p: Performance)
    requires b.Valid() && AreDeltas(b, curve, deltas) && |labels| == |deltas| && IsBlock(labels, deltas, p)
    ensures p.bars == |BarsIn(labels, p.regime)|
    ensures p.exposureBars == |ExposedIn(labels, b.targets, p.regime)|
    ensures p.positiveRate * p.bars as real == |GainedIn(labels, curve, b.start, p.regime)| as real
    ensures p.marketReturnPct == MoveOver(labels, b.prices, p.regime)
    ensures p.excessPct == p.returnPct - p.marketReturnPct
  {
    hide AreDeltas, Group, GroupSum, MoveOver, BarsIn, ExposedIn, GainedIn;
    BarsCounted(labels, deltas, p.regime);
    ExposedCounted(b, curve, labels, deltas, p.regime);
    GainsCounted(b, curve, labels, deltas, p.regime);
    MovesOfDeltas(b, curve, labels, deltas, p.regime);
    RateTimesBars(p.positiveRate, GroupSum(labels, Project(GainOf, deltas), p.regime), p.bars as real);
  }

  lemma RateTimesBars(rate: real, total: real, bars: real)
    requires bars > 0.0 && rate == total / bars
    ensures rate * bars == total
  {
  }

  lemma RiseInPercent(x: real, start: real)
    requires start > 0.0
    ensures x / start * 100.0 > 0.0 <==> x > 0.0
  {
    var q := x / start;
    assert q * start == x;
  }

  /** The report lists the regimes in ascending order, each once, and the warm-up after all others. */
  lemma WarmupLast(labels: seq<string>, deltas: seq<BarDelta>, blocks: seq<Performance>, j: nat, k: nat)
    requires |labels| == |deltas| && AreBlocks(labels, deltas, blocks) && j < k < |blocks|
    ensures blocks[j].regime != DEFAULT_WARMUP_TAG && blocks[j].regime != blocks[k].regime
    ensures blocks[k].regime == DEFAULT_WARMUP_TAG || LexLe(blocks[j].regime, blocks[k].regime)
  {
    var t := Tags(blocks);
    assert TagLe(t[j], t[k]) && t[j] != t[k];
  }
}
