/** Volume-synchronised flow toxicity: signed trade flow fills buckets of a fixed volume, each
    full bucket leaves its imbalance behind, and the recent imbalances are compared with a
    longer baseline. */
module Vpin {
  import opened RealMath
  import opened Wrappers

  datatype VpinConfig = VpinConfig(bucketVolume: real, historySize: nat, reference: Option<nat>, severityFloor: real) {
    predicate Valid() {
      && bucketVolume > 0.0 && historySize >= 1 && (reference.Some? ==> reference.value >= 1)
      && 0.0 <= severityFloor <= 1.0
    }

    function ReferenceSize(): nat {
      match reference
      case Some(n) => n
      case None => if 3 * historySize >= 16 then 3 * historySize else 16
    }
  }

  datatype VpinState = VpinState(vpin: real, quartile: Option<real>, toxic: bool, buckets: nat, current: real)

  // ----- what a stream of flow amounts to -----

  /** The open bucket and the imbalance of every bucket closed so far. */
  datatype Flow = Flow(buy: real, sell: real, closed: seq<real>)

  function Repeat(x: real, n: nat): (r: seq<real>)
    ensures |r| == n && forall i :: 0 <= i < n ==> r[i] == x
  {
    seq(n, _ => x)
  }

  function Imbalance(b: real, s: real): real
    requires b + s > 0.0
  {
    Abs(b - s) / (b + s)
  }

  /** The volume of `n` full buckets. */
  function Filled(n: nat, volume: real): real {
    n as real * volume
  }

  /** How many whole buckets fit into a volume. */
  function Buckets(total: real, volume: real): (n: nat)
    requires total >= 0.0 && volume > 0.0
    ensures Filled(n, volume) <= total < Filled(n, volume) + volume
  {
    WholeParts(total, volume);
    (total / volume).Floor
  }

  /** The part of `x` that remains when a total shrinks to `rest` in proportion. */
  function Keep(x: real, total: real, rest: real): (r: real)
    requires total > 0.0
    ensures r * total == x * rest
  {
    x * rest / total
  }

  function BuyAfter(w: Flow, f: real): real {
    if f > 0.0 then w.buy + f else w.buy
  }

  function SellAfter(w: Flow, f: real): real {
    if f > 0.0 then w.sell else w.sell - f
  }

  /** One flow: every bucket it completes has the imbalance of the whole volume at hand, and the
      rest stays behind in unchanged proportion. */
  function Absorb(volume: real, w: Flow, f: real): Flow
    requires volume > 0.0 && w.buy >= 0.0 && w.sell >= 0.0
  {
    var b, s := BuyAfter(w, f), SellAfter(w, f);
    if b + s < volume then Flow(b, s, w.closed)
    else
      var n := Buckets(b + s, volume);
      var rest := b + s - Filled(n, volume);
      Flow(Keep(b, b + s, rest), Keep(s, b + s, rest), w.closed + Repeat(Imbalance(b, s), n))
  }

  ghost predicate Open(w: Flow, volume: real) {
    w.buy >= 0.0 && w.sell >= 0.0 && w.buy + w.sell < volume
  }

  /** The state after a whole stream of flows. */
  function Run(volume: real, flows: seq<real>): (w: Flow)
    requires volume > 0.0
    ensures Open(w, volume)
  {
    if |flows| == 0 then Flow(0.0, 0.0, [])
    else
      var w := Run(volume, flows[..|flows| - 1]);
      var f := flows[|flows| - 1];
      AbsorbOpen(volume, w, f);
      Absorb(volume, w, f)
  }

  lemma BelowNext(q: real, n: real, volume: real, total: real, full: real)
    requires n <= q < n + 1.0 && volume > 0.0 && total == q * volume && full == n * volume
    ensures full <= total < full + volume
  {
    var less, more := q - n, n + 1.0 - q;
    assert less * volume >= 0.0 && more * volume > 0.0;
    assert less * volume == q * volume - n * volume;
    assert more * volume == n * volume + volume - q * volume;
  }

  lemma FloorScaled(q: real, volume: real, n: nat, total: real)
    requires n as real <= q < n as real + 1.0 && volume > 0.0 && total == q * volume
    ensures Filled(n, volume) <= total < Filled(n, volume) + volume
  {
    BelowNext(q, n as real, volume, total, Filled(n, volume));
  }

  lemma NonnegativeShare(q: real, volume: real, total: real)
    requires total >= 0.0 && volume > 0.0 && total == q * volume
    ensures q >= 0.0
  {
    if q < 0.0 {
      ProductPositive(-q, volume, (-q) * volume);
    }
  }

  lemma WholeParts(total: real, volume: real)
    requires total >= 0.0 && volume > 0.0
    ensures var n := (total / volume).Floor; n >= 0 && Filled(n, volume) <= total < Filled(n, volume) + volume
  {
    hide Filled;
    var q := total / volume;
    DivisionUndone(total, volume, q);
    NonnegativeShare(q, volume, total);
    FloorScaled(q, volume, q.Floor, total);
  }

  lemma DivisionUndone(x: real, y: real, q: real)
    requires y != 0.0 && q == x / y
    ensures q * y == x
  {
  }

  lemma FilledAdd(m: nat, n: nat, volume: real)
    ensures Filled(m + n, volume) == Filled(m, volume) + Filled(n, volume)
  {
    assert (m + n) as real == m as real + n as real;
  }

  lemma FilledStep(n: nat, volume: real)
    ensures Filled(n + 1, volume) == Filled(n, volume) + volume
    ensures Filled(0, volume) == 0.0
  {
  }

  lemma FilledMono(m: nat, n: nat, volume: real)
    requires m <= n && volume > 0.0
    ensures Filled(m, volume) <= Filled(n, volume)
  {
    MulMono(m as real, n as real, volume);
  }

  lemma BucketsUnique(total: real, volume: real, n: nat)
    requires total >= 0.0 && volume > 0.0
    requires Filled(n, volume) <= total < Filled(n, volume) + volume
    ensures Buckets(total, volume) == n
  {
    hide Filled, Buckets;
    var m := Buckets(total, volume);
    FilledStep(m, volume);
    FilledStep(n, volume);
    if m < n {
      FilledMono(m + 1, n, volume);
    } else if m > n {
      FilledMono(n + 1, m, volume);
    }
  }

  lemma KeepSign(x: real, total: real, rest: real)
    requires 0.0 <= x && total > 0.0 && rest >= 0.0
    ensures Keep(x, total, rest) >= 0.0
  {
    hide Keep;
    ProductNonneg(x, rest, x * rest);
    QuotientSign(Keep(x, total, rest), total, x * rest);
  }

  lemma QuotientSign(i: real, t: real, a: real)
    requires t > 0.0 && a >= 0.0 && i * t == a
    ensures i >= 0.0
  {
    if i < 0.0 {
      ProductPositive(-i, t, (-i) * t);
    }
  }

  lemma KeepUnique(x: real, x0: real, total: real, rest: real)
    requires total > 0.0 && x * total == x0 * rest
    ensures x == Keep(x0, total, rest)
  {
    SameProduct(x, Keep(x0, total, rest), total);
  }

  lemma KeptTogether(b: real, s: real, t: real, rest: real, x: real, y: real)
    requires t == b + s > 0.0 && x * t == b * rest && y * t == s * rest
    ensures x + y == rest
  {
    assert (x + y) * t == rest * t;
    SameProduct(x + y, rest, t);
  }

  lemma ImbalanceBounds(b: real, s: real)
    requires b >= 0.0 && s >= 0.0 && b + s > 0.0
    ensures 0.0 <= Imbalance(b, s) <= 1.0
    ensures Imbalance(b, s) * (b + s) == Abs(b - s)
  {
    QuotientBounds(Abs(b - s), b + s, 0.0, 1.0);
  }

  /** What one flow does: volume is conserved and the open bucket is not full. */
  lemma AbsorbOpen(volume: real, w: Flow, f: real)
    requires volume > 0.0 && w.buy >= 0.0 && w.sell >= 0.0
    ensures var w' := Absorb(volume, w, f);
            var n := Buckets(w.buy + w.sell + Abs(f), volume);
            && Open(w', volume) && |w'.closed| == |w.closed| + n
            && Filled(n, volume) + w'.buy + w'.sell == w.buy + w.sell + Abs(f)
  {
    hide Filled, Buckets, Keep, Imbalance, Repeat;
    var b, s := BuyAfter(w, f), SellAfter(w, f);
    assert b + s == w.buy + w.sell + Abs(f);
    FilledStep(0, volume);
    if b + s < volume {
      BucketsUnique(b + s, volume, 0);
    } else {
      var rest := b + s - Filled(Buckets(b + s, volume), volume);
      KeepSign(b, b + s, rest);
      KeepSign(s, b + s, rest);
      KeptTogether(b, s, b + s, rest, Keep(b, b + s, rest), Keep(s, b + s, rest));
    }
  }

  /** No volume is lost: all flow ever recorded is the full buckets plus the open one, so the
      number of buckets depends on the total volume alone. */
  lemma {:induction false} RunConserves(volume: real, flows: seq<real>)
    requires volume > 0.0
    ensures var w := Run(volume, flows);
            && AbsSum(flows) == Filled(|w.closed|, volume) + (w.buy + w.sell)
            && |w.closed| == Buckets(AbsSum(flows), volume)
  {
    hide Filled, Buckets, Absorb;
    var w := Run(volume, flows);
    FilledStep(0, volume);
    if |flows| > 0 {
      var init, f := flows[..|flows| - 1], flows[|flows| - 1];
      var v := Run(volume, init);
      RunConserves(volume, init);
      AbsorbOpen(volume, v, f);
      FilledAdd(|v.closed|, |w.closed| - |v.closed|, volume);
    }
    BucketsUnique(AbsSum(flows), volume, |w.closed|);
  }

  ghost predicate InUnit(v: seq<real>) {
    forall i :: 0 <= i < |v| ==> 0.0 <= v[i] <= 1.0
  }

  lemma {:induction false} RunInUnit(volume: real, flows: seq<real>)
    requires volume > 0.0
    ensures InUnit(Run(volume, flows).closed)
  {
    hide Buckets, Keep, Imbalance, Filled;
    if |flows| > 0 {
      var init, f := flows[..|flows| - 1], flows[|flows| - 1];
      var v := Run(volume, init);
      RunInUnit(volume, init);
      if BuyAfter(v, f) + SellAfter(v, f) >= volume {
        ImbalanceBounds(BuyAfter(v, f), SellAfter(v, f));
      }
    }
  }

  lemma {:induction false} SumRepeat(v: seq<real>, x: real, n: nat)
    ensures Sum(v + Repeat(x, n)) == Sum(v) + Filled(n, x)
  {
    hide Filled, Sum;
    FilledStep(0, x);
    if n == 0 {
      assert v + Repeat(x, 0) == v;
    } else {
      SumRepeat(v, x, n - 1);
      assert v + Repeat(x, n) == (v + Repeat(x, n - 1)) + [x];
      SumAppend(v + Repeat(x, n - 1), x);
      FilledStep(n - 1, x);
    }
  }

  /** The net flow that buckets with the given summed imbalances can hold. */
  function Covered(volume: real, imbalances: real): real {
    volume * imbalances
  }

  lemma CoveredAdd(volume: real, x: real, y: real)
    ensures Covered(volume, x + y) == Covered(volume, x) + Covered(volume, y)
    ensures Covered(volume, 0.0) == 0.0
  {
  }

  /** The net flow a single step moves into closed buckets is their imbalances' volume. */
  lemma AbsorbNet(volume: real, w: Flow, f: real) returns (moved: real)
    requires volume > 0.0 && Open(w, volume)
    ensures var w' := Absorb(volume, w, f);
            && Sum(w'.closed) == Sum(w.closed) + moved
            && Abs(w.buy - w.sell + f - (w'.buy - w'.sell)) == Covered(volume, moved)
  {
    hide Filled, Buckets, Keep, Imbalance, Repeat, Sum, Covered;
    var b, s := BuyAfter(w, f), SellAfter(w, f);
    var t := b + s;
    if t >= volume {
      var n := Buckets(t, volume);
      var rest := t - Filled(n, volume);
      var i := Imbalance(b, s);
      ImbalanceBounds(b, s);
      SumRepeat(w.closed, i, n);
      FilledStep(0, volume);
      FilledMono(0, n, volume);
      NetKept(b, s, n, volume);
      moved := Filled(n, i);
    } else {
      CoveredAdd(volume, 0.0, 0.0);
      moved := 0.0;
    }
  }

  lemma NetKept(b: real, s: real, n: nat, volume: real)
    requires b >= 0.0 && s >= 0.0 && b + s > 0.0 && volume > 0.0
    ensures var t := b + s;
            var rest := t - Filled(n, volume);
            Abs(b - s - (Keep(b, t, rest) - Keep(s, t, rest))) == Covered(volume, Filled(n, Imbalance(b, s)))
  {
    hide Filled, Keep, Imbalance;
    var t := b + s;
    var rest := t - Filled(n, volume);
    var i := Imbalance(b, s);
    ImbalanceBounds(b, s);
    FilledStep(0, volume);
    FilledMono(0, n, volume);
    NetOfShares(b, s, t, Filled(n, volume), rest, Keep(b, t, rest), Keep(s, t, rest), i);
    FilledSwap(n, volume, i);
  }

  lemma FilledSwap(n: nat, volume: real, i: real)
    ensures Filled(n, volume) * i == volume * Filled(n, i)
  {
    MulAssoc(n as real, volume, i);
    MulAssoc(volume, n as real, i);
  }

  lemma NetOfShares(b: real, s: real, t: real, full: real, rest: real, x: real, y: real, i: real)
    requires t == b + s > 0.0 && full >= 0.0 && rest == t - full && i >= 0.0
    requires x * t == b * rest && y * t == s * rest && i * t == Abs(b - s)
    ensures Abs(b - s - (x - y)) == full * i
  {
    var e := b - s;
    var d := e - (x - y);
    assert d * t == e * full by {
      assert (x - y) * t == e * rest;
      assert e * rest == e * t - e * full;
    }
    ProductNonneg(full, i, full * i);
    MulAssoc(full, i, t);
    if e >= 0.0 {
      SameProduct(d, full * i, t);
    } else {
      assert (-d) * t == full * (i * t);
      SameProduct(-d, full * i, t);
    }
  }

  lemma NothingSummed()
    ensures Sum([]) == 0.0
  {
  }

  /** The closed buckets never understate the flow: their net buying or selling is at most the
      bucket volume times the summed imbalances. */
  lemma {:induction false} ImbalancesCoverNetFlow(volume: real, flows: seq<real>)
    requires volume > 0.0
    ensures var w := Run(volume, flows); Abs(Sum(flows) - (w.buy - w.sell)) <= Covered(volume, Sum(w.closed))
  {
    hide Absorb, Sum, Covered;
    CoveredAdd(volume, 0.0, 0.0);
    if |flows| == 0 {
      NothingSummed();
    } else {
      var init, f := flows[..|flows| - 1], flows[|flows| - 1];
      var v, w := Run(volume, init), Run(volume, flows);
      ImbalancesCoverNetFlow(volume, init);
      var moved := AbsorbNet(volume, v, f);
      assert flows == init + [f];
      SumAppend(init, f);
      CoveredAdd(volume, Sum(v.closed), moved);
    }
  }

  // ----- bounded queues -----

  function LastN<T>(s: seq<T>, n: nat): (r: seq<T>)
    ensures |r| == if |s| <= n then |s| else n
    ensures forall i :: 0 <= i < |r| ==> r[i] == s[|s| - |r| + i]
  {
    if |s| <= n then s else s[|s| - n..]
  }

  /** Appending to a queue that drops its oldest element once it holds `n`. */
  function Push<T>(q: seq<T>, x: T, n: nat): (r: seq<T>)
    requires n >= 1
  {
    if |q| >= n then q[1..] + [x] else q + [x]
  }

  lemma PushLastN<T>(s: seq<T>, x: T, n: nat)
    requires n >= 1
    ensures Push(LastN(s, n), x, n) == LastN(s + [x], n)
  {
    if |s| < n {
      assert LastN(s, n) == s && LastN(s + [x], n) == s + [x];
    } else {
      var k := |s| - n;
      DropThenAppend(s, x, k);
      assert LastN(s, n) == s[k..];
      assert LastN(s + [x], n) == (s + [x])[k + 1..];
      assert |s[k..]| == n;
    }
  }

  lemma DropThenAppend<T>(s: seq<T>, x: T, k: nat)
    requires k < |s|
    ensures s[k..][1..] + [x] == (s + [x])[k + 1..]
  {
  }

  // ----- the tracker -----

  /** The loop that closes buckets has closed `i` of them out of the volume `b0 + s0`. */
  ghost predicate Rolled(volume: real, b0: real, s0: real, i: nat, buy: real, sell: real, observed: real) {
    && b0 >= 0.0 && s0 >= 0.0 && buy >= 0.0 && sell >= 0.0
    && buy + sell == observed == b0 + s0 - Filled(i, volume)
    && buy * (b0 + s0) == b0 * observed && sell * (b0 + s0) == s0 * observed
  }

  function Taken(buy: real, volume: real, total: real): real
    requires total != 0.0
  {
    buy * (volume / total)
  }

  /** One bucket is taken out of the running mix in proportion. */
  lemma RollStep(volume: real, b0: real, s0: real, i: nat, buy: real, sell: real, observed: real)
    requires volume > 0.0 && Rolled(volume, b0, s0, i, buy, sell, observed)
    requires observed >= volume
    ensures b0 + s0 > 0.0
    ensures var take := Taken(buy, volume, observed);
            && Rolled(volume, b0, s0, i + 1, buy - take, sell - (volume - take), observed - volume)
            && Abs(take - (volume - take)) / volume == Imbalance(b0, s0)
  {
    hide Filled, Taken, Imbalance;
    var total := b0 + s0;
    FilledStep(0, volume);
    FilledMono(0, i, volume);
    FilledStep(i, volume);
    var take := Taken(buy, volume, observed);
    TakeShare(buy, volume, observed, take, b0, total);
    ShareLeft(total, b0, volume, observed, buy, take);
    ShareComplement(total, b0, s0, volume, take);
    ShareLeft(total, s0, volume, observed, sell, volume - take);
    TakenImbalance(take, volume - take, volume, b0, s0, total);
  }

  lemma TakeShare(buy: real, volume: real, observed: real, take: real, b0: real, total: real)
    requires observed > 0.0 && take == Taken(buy, volume, observed) && buy * total == b0 * observed
    ensures take * total == b0 * volume
  {
    var q := volume / observed;
    DivisionUndone(volume, observed, q);
    ScaleBoth(buy, q, total, b0, observed, volume);
  }

  lemma ScaleBoth(buy: real, q: real, total: real, b0: real, observed: real, volume: real)
    requires q * observed == volume && buy * total == b0 * observed
    ensures (buy * q) * total == b0 * volume
  {
    assert (buy * q) * total == q * (buy * total);
    assert b0 * volume == b0 * (q * observed) == q * (b0 * observed);
  }

  lemma ShareComplement(total: real, b0: real, s0: real, volume: real, take: real)
    requires total == b0 + s0 && take * total == b0 * volume
    ensures (volume - take) * total == s0 * volume
  {
  }

  /** What is left of one side keeps its share of the smaller total. */
  lemma ShareLeft(total: real, x0: real, volume: real, observed: real, x: real, take: real)
    requires total > 0.0 && x0 >= 0.0 && observed >= volume
    requires x * total == x0 * observed && take * total == x0 * volume
    ensures (x - take) * total == x0 * (observed - volume)
    ensures x - take >= 0.0
  {
    var rest := observed - volume;
    ProductNonneg(x0, rest, x0 * rest);
    QuotientSign(x - take, total, x0 * rest);
  }

  lemma TakenImbalance(bt: real, st: real, volume: real, b: real, s: real, total: real)
    requires volume > 0.0 && total == b + s > 0.0
    requires bt * total == b * volume && st * total == s * volume
    ensures Abs(bt - st) / volume == Imbalance(b, s)
  {
    var d, e := bt - st, b - s;
    assert d * total == e * volume;
    var x, y := Abs(d), Abs(e);
    if e >= 0.0 {
      ProductNonneg(e, volume, d * total);
      QuotientSign(d, total, d * total);
    } else {
      ProductNonneg(-e, volume, (-d) * total);
      QuotientSign(-d, total, (-d) * total);
    }
    EqualRatios(x, y, volume, total);
  }

  lemma EqualRatios(x: real, y: real, volume: real, total: real)
    requires volume > 0.0 && total > 0.0 && x * total == y * volume
    ensures x / volume == y / total
  {
    var q := y / total;
    DivisionUndone(y, total, q);
    assert (q * volume) * total == (q * total) * volume;
    SameProduct(x, q * volume, total);
    DivUnique(x, volume, q);
  }

  /** A fully rolled mix is what the closed form leaves behind. */
  lemma RollDone(volume: real, w: Flow, f: real, n: nat, buy: real, sell: real, observed: real)
    requires volume > 0.0 && Open(w, volume)
    requires Rolled(volume, BuyAfter(w, f), SellAfter(w, f), n, buy, sell, observed) && observed < volume
    ensures n == 0 ==> Absorb(volume, w, f) == Flow(BuyAfter(w, f), SellAfter(w, f), w.closed)
    ensures n > 0 ==> BuyAfter(w, f) + SellAfter(w, f) > 0.0 &&
                      Absorb(volume, w, f) ==
                      Flow(buy, sell, w.closed + Repeat(Imbalance(BuyAfter(w, f), SellAfter(w, f)), n))
  {
    hide Filled, Buckets, Keep, Imbalance, Repeat;
    var b0, s0 := BuyAfter(w, f), SellAfter(w, f);
    var t := b0 + s0;
    BucketsUnique(t, volume, n);
    FilledStep(0, volume);
    if n > 0 {
      FilledStep(n - 1, volume);
      FilledMono(0, n - 1, volume);
      KeepUnique(buy, b0, t, observed);
      KeepUnique(sell, s0, t, observed);
    }
  }

  class VpinTracker {
    const config: VpinConfig
    var bucket: seq<real>
    var reference: seq<real>
    var buy: real
    var sell: real
    var observed: real
    ghost var flows: seq<real>

    /** The fields are what the recorded stream amounts to. */
    ghost predicate Valid()
      reads this
    {
      && config.Valid()
      && var w := Run(config.bucketVolume, flows);
      && w.buy == buy && w.sell == sell && observed == buy + sell
      && bucket == LastN(w.closed, config.historySize)
      && reference == LastN(w.closed, config.ReferenceSize())
    }

    constructor (c: VpinConfig)
      requires c.Valid()
      ensures Valid() && config == c && flows == []
    {
      config := c;
      bucket, reference := [], [];
      buy, sell, observed := 0.0, 0.0, 0.0;
      flows := [];
    }

    method Record(signedFlow: real)
      requires Valid()
      modifies this
      ensures Valid() && flows == old(flows) + [signedFlow]
    {
      hide Absorb, Buckets, LastN;
      ghost var w := Run(config.bucketVolume, flows);
      if signedFlow > 0.0 {
        buy := buy + signedFlow;
      } else {
        sell := sell + -signedFlow;
      }
      observed := observed + Abs(signedFlow);
      RollBucket(w, signedFlow);
      flows := flows + [signedFlow];
      assert flows[..|flows| - 1] == old(flows);
    }

    method RollBucket(ghost w: Flow, ghost f: real)
      requires config.Valid() && Open(w, config.bucketVolume)
      requires buy == BuyAfter(w, f) && sell == SellAfter(w, f) && observed == buy + sell
      requires bucket == LastN(w.closed, config.historySize)
      requires reference == LastN(w.closed, config.ReferenceSize())
      modifies this`buy, this`sell, this`observed, this`bucket, this`reference
      ensures var w' := Absorb(config.bucketVolume, w, f);
              && buy == w'.buy && sell == w'.sell && observed == buy + sell
              && bucket == LastN(w'.closed, config.historySize)
              && reference == LastN(w'.closed, config.ReferenceSize())
    {
      hide Absorb, Buckets, Imbalance, Push, Repeat, LastN, Filled, Taken, Rolled;
      var volume := config.bucketVolume;
      ghost var b0, s0 := buy, sell;
      ghost var n: nat := 0;
      ghost var h := w.closed;
      RollStart(volume, w, f);
      while buy + sell >= volume
        invariant Rolled(volume, b0, s0, n, buy, sell, observed)
        invariant buy + sell == observed >= 0.0
        invariant n > 0 ==> b0 + s0 > 0.0 && h == w.closed + Repeat(Imbalance(b0, s0), n)
        invariant n == 0 ==> h == w.closed
        invariant bucket == LastN(h, config.historySize)
        invariant reference == LastN(h, config.ReferenceSize())
        decreases Buckets(buy + sell, volume)
      {
        var total := buy + sell;
        var buyTake := Taken(buy, volume, total);
        var sellTake := volume - buyTake;
        RollStep(volume, b0, s0, n, buy, sell, observed);
        RollShrinks(total, volume);
        var imbalance := Abs(buyTake - sellTake) / volume;
        PushLastN(h, imbalance, config.historySize);
        PushLastN(h, imbalance, config.ReferenceSize());
        bucket := Push(bucket, imbalance, config.historySize);
        reference := Push(reference, imbalance, config.ReferenceSize());
        RepeatMore(w.closed, imbalance, n);
        h := h + [imbalance];
        n := n + 1;
        buy := buy - buyTake;
        sell := sell - sellTake;
        observed := observed - volume;
        RolledSum(volume, b0, s0, n, buy, sell, observed);
      }
      RollDone(volume, w, f, n, buy, sell, observed);
      RolledNone(volume, b0, s0, n, buy, sell, observed);
    }

    method State() returns (s: VpinState)
      requires Valid()
      ensures IsState(config, Run(config.bucketVolume, flows), s)
    {
      if |bucket| == 0 {
        return VpinState(0.0, None, false, 0, observed);
      }
      var vpin := Mean(bucket);
      var baseline := if |reference| > 0 then Mean(reference) else 0.0;
      var threshold := Max(baseline, config.severityFloor);
      var toxic := |bucket| >= 4 && vpin >= threshold;
      var quartile := if threshold > 0.0 then Some(vpin / threshold) else None;
      if |bucket| < 4 {
        quartile := None;
      }
      s := VpinState(vpin, quartile, toxic, |bucket|, observed);
    }
  }

  lemma RollStart(volume: real, w: Flow, f: real)
    requires Open(w, volume)
    ensures var b, s := BuyAfter(w, f), SellAfter(w, f); Rolled(volume, b, s, 0, b, s, b + s)
  {
  }

  lemma RolledSum(volume: real, b0: real, s0: real, n: nat, buy: real, sell: real, observed: real)
    requires Rolled(volume, b0, s0, n, buy, sell, observed)
    ensures buy + sell == observed >= 0.0
  {
  }

  lemma RolledNone(volume: real, b0: real, s0: real, n: nat, buy: real, sell: real, observed: real)
    requires Rolled(volume, b0, s0, n, buy, sell, observed)
    ensures n == 0 ==> buy == b0 && sell == s0
  {
    FilledStep(0, volume);
    var t := b0 + s0;
    if n == 0 && t != 0.0 {
      SameProduct(buy, b0, t);
      SameProduct(sell, s0, t);
    }
  }

  lemma RollShrinks(total: real, volume: real)
    requires volume > 0.0 && total >= volume
    ensures Buckets(total - volume, volume) < Buckets(total, volume)
  {
    hide Buckets, Filled;
    var m := Buckets(total - volume, volume);
    FilledStep(m, volume);
    BucketsUnique(total, volume, m + 1);
  }

  lemma RepeatMore(v: seq<real>, x: real, n: nat)
    ensures v + Repeat(x, n) + [x] == v + Repeat(x, n + 1)
    ensures n == 0 ==> v + [x] == v + Repeat(x, 1)
  {
    assert Repeat(x, n + 1) == Repeat(x, n) + [x];
  }

  // ----- what is reported -----

  ghost function Threshold(c: VpinConfig, w: Flow): (t: real)
    requires c.Valid()
  {
    var longer := LastN(w.closed, c.ReferenceSize());
    Max(if |longer| > 0 then Mean(longer) else 0.0, c.severityFloor)
  }

  /** The threshold is the mean of a longer stretch of imbalances, or the floor where that is higher:
      of as many as configured, and otherwise of three times the history, but no fewer than sixteen. */
  lemma ThresholdWindow(c: VpinConfig, w: Flow) returns (n: nat)
    requires c.Valid()
    ensures c.reference.Some? ==> n == c.reference.value
    ensures c.reference.None? ==> n >= 16 && n >= 3 * c.historySize && (n == 16 || n == 3 * c.historySize)
    ensures Threshold(c, w) >= c.severityFloor
    ensures w.closed == [] ==> Threshold(c, w) == c.severityFloor
    ensures w.closed != [] ==>
              var longer := if |w.closed| <= n then w.closed else w.closed[|w.closed| - n..];
              && Threshold(c, w) >= Mean(longer)
              && (Threshold(c, w) == Mean(longer) || Threshold(c, w) == c.severityFloor)
  {
    n := c.ReferenceSize();
    assert LastN(w.closed, n) == if |w.closed| <= n then w.closed else w.closed[|w.closed| - n..];
  }

  ghost predicate IsState(c: VpinConfig, w: Flow, s: VpinState)
    requires c.Valid()
  {
    var recent := LastN(w.closed, c.historySize);
    && s.buckets == |recent| && s.current == w.buy + w.sell
    && s.vpin == (if |recent| > 0 then Mean(recent) else 0.0)
    && s.quartile == (if |recent| < 4 || Threshold(c, w) <= 0.0 then None else Some(s.vpin / Threshold(c, w)))
    && (s.toxic <==> |recent| >= 4 && s.vpin >= Threshold(c, w))
  }

  /** Whatever was recorded, the estimate is a probability, the open bucket is not full, the
      number of buckets is that of the total volume up to the history size, and the book is
      called toxic exactly when the reported ratio reaches one, or when there is no ratio because
      both the floor and the whole baseline are zero. */
  lemma StateSound(c: VpinConfig, flows: seq<real>, s: VpinState)
    requires c.Valid() && IsState(c, Run(c.bucketVolume, flows), s)
    ensures 0.0 <= s.vpin <= 1.0
    ensures 0.0 <= s.current < c.bucketVolume
    ensures var n := Buckets(AbsSum(flows), c.bucketVolume);
            s.buckets == if n <= c.historySize then n else c.historySize
    ensures s.toxic <==> s.buckets >= 4 && (s.quartile.None? || s.quartile.value >= 1.0)
    ensures s.toxic && s.quartile.None? ==> s.vpin >= 0.0 == c.severityFloor
  {
    hide Run, Buckets;
    var w := Run(c.bucketVolume, flows);
    RunConserves(c.bucketVolume, flows);
    RunInUnit(c.bucketVolume, flows);
    var recent := LastN(w.closed, c.historySize);
    var t := Threshold(c, w);
    if |recent| > 0 {
      MeanBounds(recent, 0.0, 1.0);
    }
    if |recent| >= 4 && t > 0.0 {
      RatioAtLeastOne(s.vpin, t);
    }
  }

  lemma RatioAtLeastOne(x: real, t: real)
    requires t > 0.0
    ensures x / t >= 1.0 <==> x >= t
  {
    var q := x / t;
    assert q * t == x;
    if q >= 1.0 {
      MulMono(1.0, q, t);
    } else {
      MulStrict(q, 1.0, t);
    }
  }
}
