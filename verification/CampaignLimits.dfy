/** What the stay limits of a paper campaign measure, day by day. */
module CampaignLimits {
  import opened RealMath
  import opened Wrappers
  import opened PaperAutonomy
  import Baselines

  /** By how much each day fell short of its expectation. */
  function Gaps(os: seq<Outcome>): (g: seq<real>)
    ensures |g| == |os| && forall i :: 0 <= i < |os| ==> g[i] == os[i].expectedPct - os[i].returnPct
  {
    seq(|os|, i requires 0 <= i < |os| => os[i].expectedPct - os[i].returnPct)
  }

  lemma {:induction false} GapsAdd(os: seq<Outcome>)
    ensures Sum(Gaps(os)) == Sum(Expected(os)) - Sum(Returns(os))
  {
    if |os| > 0 {
      var n := |os| - 1;
      GapsAdd(os[..n]);
      assert Gaps(os)[..n] == Gaps(os[..n]);
      assert Expected(os)[..n] == Expected(os[..n]) && Returns(os)[..n] == Returns(os[..n]);
    }
  }

  /** Orders failed beyond the limit, in percent of all orders. */
  predicate TooManyFailed(c: Limits, os: seq<Outcome>) {
    if Orders(os) > 0 then 100.0 * Failed(os) as real > c.maxFailedOrdersPct * Orders(os) as real
    else c.maxFailedOrdersPct < 0.0
  }

  ghost predicate IsHigh(e: seq<real>, i: nat, k: nat)
    requires i <= k < |e|
  {
    forall j :: 0 <= j <= k ==> e[j] <= e[i]
  }

  /** From the high so far, the account has fallen at bar k by more than the limit. */
  ghost predicate FellAt(e: seq<real>, k: nat, limit: real)
    requires k < |e|
  {
    exists i :: 0 <= i <= k && IsHigh(e, i, k) && (e[i] - e[k]) * 100.0 > limit * e[i]
  }

  /** From its high so far the account fell by more than the limit, in percent of the high. */
  ghost predicate FellTooFar(c: Limits, os: seq<Outcome>) {
    EverFell(Path(os), c.maxDrawdownPct)
  }

  ghost predicate EverFell(e: seq<real>, limit: real) {
    exists k :: 0 <= k < |e| && FellAt(e, k, limit)
  }

  lemma FailedShare(failed: int, orders: int, limit: real)
    ensures FailedPct(failed, orders) > limit <==>
            if orders > 0 then 100.0 * failed as real > limit * orders as real else limit < 0.0
  {
    if orders > 0 {
      var n, f := orders as real, failed as real;
      var q := f / n;
      assert q * n == f;
      ShareAbove(q * 100.0, limit, n, f * 100.0);
    }
  }

  lemma ShareAbove(p: real, limit: real, n: real, total: real)
    requires n > 0.0 && p * n == total
    ensures p > limit <==> total > limit * n
  {
    assert (p - limit) * n == total - limit * n;
    Baselines.SameSign(p - limit, n, (p - limit) * n);
  }

  lemma StartsAtOne(os: seq<Outcome>)
    ensures Path(os)[0] == 1.0
  {
    if |os| > 0 {
      StartsAtOne(os[..|os| - 1]);
    }
  }

  /** Every day adds its return to the account. */
  lemma {:induction false} DayGrows(os: seq<Outcome>, k: nat)
    requires k < |os|
    ensures Path(os)[k + 1] * 100.0 == Path(os)[k] * (100.0 + os[k].returnPct)
  {
    hide Grown;
    var n := |os| - 1;
    if k < n {
      DayGrows(os[..n], k);
    } else {
      GrownBack(Path(os[..n])[n], os[n].returnPct);
    }
  }

  lemma GrownBack(equity: real, returnPct: real)
    ensures Grown(equity, returnPct) * 100.0 == equity * (100.0 + returnPct)
  {
  }

  lemma FallFromHigh(e: seq<real>, i: nat, k: nat, limit: real)
    requires i <= k < |e| && IsHigh(e, i, k) && e[0] > 0.0
    ensures FallPct(e, k) > limit <==> (e[i] - e[k]) * 100.0 > limit * e[i]
  {
    var p, v := e[i], e[k];
    assert Baselines.PeakAt(e, k) == p && p >= e[0];
    var q := (p - v) / p;
    assert q * p == p - v;
    ShareAbove(q * 100.0, limit, p, (p - v) * 100.0);
  }

  lemma FellAtExactly(e: seq<real>, k: nat, limit: real)
    requires k < |e| && e[0] > 0.0
    ensures FallPct(e, k) > limit <==> FellAt(e, k, limit)
  {
    hide FallPct, IsHigh;
    var h := HighOf(e, k);
    FallFromHigh(e, h, k, limit);
    forall i | 0 <= i <= k && IsHigh(e, i, k) ensures FallPct(e, k) > limit <==> (e[i] - e[k]) * 100.0 > limit * e[i] {
      FallFromHigh(e, i, k, limit);
    }
  }

  lemma FellExactly(c: Limits, e: seq<real>)
    requires |e| > 0 && e[0] > 0.0
    ensures FallsBelow(e, c.maxDrawdownPct) <==> EverFell(e, c.maxDrawdownPct)
  {
    hide FallPct, FellAt;
    forall k | 0 <= k < |e| ensures FallPct(e, k) > c.maxDrawdownPct <==> FellAt(e, k, c.maxDrawdownPct) {
      FellAtExactly(e, k, c.maxDrawdownPct);
    }
  }

  lemma HighOf(e: seq<real>, k: nat) returns (i: nat)
    requires k < |e|
    ensures i <= k && IsHigh(e, i, k)
  {
    assert forall j :: 0 <= j <= k ==> e[j] <= Baselines.PeakAt(e, k);
    i :| 0 <= i <= k && e[i] == Baselines.PeakAt(e, k);
  }

  /** The days breach a stay limit exactly when too many orders failed, the account fell too far from
      its high, or the daily shortfalls add up to more basis points than allowed. A negative limit on
      the shortfall is breached by any days. */
  lemma BreachedExactly(c: Limits, os: seq<Outcome>)
    ensures Breached(c, os) <==>
            || TooManyFailed(c, os) || FellTooFar(c, os)
            || Sum(Gaps(os)) * 100.0 > c.maxUnderperformanceBps || c.maxUnderperformanceBps < 0.0
  {
    hide EverFell, FallsBelow, FailedPct, Shortfall;
    FailedShare(Failed(os), Orders(os), c.maxFailedOrdersPct);
    StartsAtOne(os);
    FellExactly(c, Path(os));
    GapsAdd(os);
    ShortfallAbove(Sum(Returns(os)), Sum(Expected(os)), c.maxUnderperformanceBps);
  }

  lemma ShortfallAbove(actual: real, expected: real, limit: real)
    ensures Shortfall(actual, expected) > limit <==> (expected - actual) * 100.0 > limit || limit < 0.0
  {
  }

  /** Days that meet their expectations, with no failed order and no fall beyond the limit, breach
      nothing under limits that are not negative. */
  lemma GoodDaysStay(c: Limits, os: seq<Outcome>)
    requires c.maxFailedOrdersPct >= 0.0 && c.maxUnderperformanceBps >= 0.0
    requires forall k :: 0 <= k < |os| ==> os[k].returnPct >= os[k].expectedPct && os[k].failedOrders == 0
    requires !FellTooFar(c, os)
    ensures !Breached(c, os)
  {
    hide FellTooFar;
    BreachedExactly(c, os);
    NoneFailed(os);
    NoGaps(Gaps(os));
    if Orders(os) > 0 {
      ProductNonneg(c.maxFailedOrdersPct, Orders(os) as real, c.maxFailedOrdersPct * Orders(os) as real);
    }
  }

  lemma {:induction false} NoneFailed(os: seq<Outcome>)
    requires forall k :: 0 <= k < |os| ==> os[k].failedOrders == 0
    ensures Failed(os) == 0
  {
    if |os| > 0 {
      NoneFailed(os[..|os| - 1]);
    }
  }

  lemma {:induction false} NoGaps(g: seq<real>)
    requires forall k :: 0 <= k < |g| ==> g[k] <= 0.0
    ensures Sum(g) <= 0.0
  {
    if |g| > 0 {
      NoGaps(g[..|g| - 1]);
    }
  }

  /** With orders and drawdown in order, a campaign is retired exactly when its days together fell
      short by more than the allowed basis points. */
  lemma RetiredForShortfall(c: Limits, os: seq<Outcome>)
    requires |os| > 0 && c.maxUnderperformanceBps >= 0.0 && !TooManyFailed(c, os) && !FellTooFar(c, os)
    ensures Retired(c, os) <==> (Sum(Expected(os)) - Sum(Returns(os))) * 100.0 > c.maxUnderperformanceBps
  {
    hide FellTooFar, TooManyFailed, Sum, Breached;
    BreachedExactly(c, os);
    GapsAdd(os);
  }

  // ----- one day -----

  const ONE_PERCENT := Limits(0, 0.0, 0, 0.0, 0, 100.0, 100.0, 100.0)

  const NO_EVIDENCE := Evidence(None, None, None, None, None)

  lemma OneDay(c: Limits, o: Outcome)
    requires c.maxUnderperformanceBps >= 0.0 && c.maxDrawdownPct >= 0.0 && c.maxFailedOrdersPct >= 0.0
    requires o.failedOrders == 0 && o.returnPct >= 0.0
    ensures Retired(c, [o]) <==> (o.expectedPct - o.returnPct) * 100.0 > c.maxUnderperformanceBps
  {
    hide Breached, FellTooFar, TooManyFailed;
    var os := [o];
    assert os[..0] == [];
    OneDayUp(c, o);
    NothingFailed(c, os);
    RetiredForShortfall(c, os);
    assert Returns(os) == [o.returnPct] && Expected(os) == [o.expectedPct];
    OneTerm(o.returnPct);
    OneTerm(o.expectedPct);
  }

  lemma OneTerm(x: real)
    ensures Sum([x]) == x
  {
    assert [x][..0] == [];
  }

  lemma NothingFailed(c: Limits, os: seq<Outcome>)
    requires c.maxFailedOrdersPct >= 0.0 && forall k :: 0 <= k < |os| ==> os[k].failedOrders == 0
    ensures !TooManyFailed(c, os)
  {
    NoneFailed(os);
    if Orders(os) > 0 {
      ProductNonneg(c.maxFailedOrdersPct, Orders(os) as real, c.maxFailedOrdersPct * Orders(os) as real);
    }
  }

  lemma OneDayUp(c: Limits, o: Outcome)
    requires c.maxDrawdownPct >= 0.0 && o.returnPct >= 0.0
    ensures !FellTooFar(c, [o])
  {
    var os := [o];
    assert os[..0] == [] && Path(os[..0]) == [1.0];
    assert Path(os) == [1.0, Grown(1.0, o.returnPct)];
    assert Grown(1.0, o.returnPct) >= 1.0;
    var e := Path(os);
    forall i, k | 0 <= i <= k <= |os| ensures e[i] <= e[k] && c.maxDrawdownPct * e[i] >= 0.0 {
      ProductNonneg(c.maxDrawdownPct, e[i], c.maxDrawdownPct * e[i]);
    }
  }

  lemma OneDayRun(c: Limits, dayFn: int -> Outcome, days: nat)
    requires IsWholeCampaign(c, 1, Days(dayFn, days))
    ensures days == 1
  {
    hide Breached;
    var os := Days(dayFn, days);
    assert 1 < |os| ==> !Over(c, 1, os[..1]);
  }

  /** Under a limit of a hundred basis points, a day that returns one percent where three were expected
      retires the campaign, and a day that returns three where one was expected does not. */
  method ShortfallRetires(bad: int -> Outcome, fine: int -> Outcome, sqrt: real -> real)
    returns (short: Campaign, good: Campaign)
    requires bad(1) == Outcome(1, 1.0, 3.0, 0, 10) && fine(1) == Outcome(1, 3.0, 1.0, 0, 10)
    ensures Reports(ONE_PERCENT, NO_EVIDENCE, [bad(1)], sqrt, short) && short.verdict == RetiredEarly
    ensures Reports(ONE_PERCENT, NO_EVIDENCE, [fine(1)], sqrt, good) && good.verdict != RetiredEarly
  {
    hide Breached, Reports;
    short := RunCampaign(ONE_PERCENT, 1, NO_EVIDENCE, bad, sqrt);
    OneDayVerdict(ONE_PERCENT, bad, short, sqrt);
    good := RunCampaign(ONE_PERCENT, 1, NO_EVIDENCE, fine, sqrt);
    OneDayVerdict(ONE_PERCENT, fine, good, sqrt);
    OneDay(ONE_PERCENT, bad(1));
    OneDay(ONE_PERCENT, fine(1));
  }

  lemma OneDayVerdict(c: Limits, dayFn: int -> Outcome, r: Campaign, sqrt: real -> real)
    requires IsWholeCampaign(c, 1, Days(dayFn, r.daysRun))
    requires Reports(c, NO_EVIDENCE, Days(dayFn, r.daysRun), sqrt, r)
    ensures Reports(c, NO_EVIDENCE, [dayFn(1)], sqrt, r)
    ensures r.verdict == RetiredEarly <==> Retired(c, [dayFn(1)])
  {
    hide Breached;
    OneDayRun(c, dayFn, r.daysRun);
    assert Days(dayFn, 1) == [dayFn(1)];
  }
}
