/** How far bracketed losses can run past the loss limits before and after a breaker has tripped. */
module LossOverrun {
  import opened RealMath
  import opened RiskGate
  import opened RiskRuns
  import opened ConcurrentRisk

  /** What a run has lost in all. */
  function Realised(x: Context, events: seq<Event>): real {
    At(x, events).x.totalLoss - x.totalLoss
  }

  /** The most that the positions open at one time can lose together. */
  function OpenCap(c: Config, reach: real): real {
    Min(c.maxPortfolioRisk, Risk(c.maxOpenExposure, reach))
  }

  lemma OpenWithinCap(c: Config, reach: real, x: Context, events: seq<Event>)
    requires c.Valid() && reach > 0.0 && IsTrading(c, reach, x, events)
    ensures OpenRisk(At(x, events).held) <= OpenCap(c, reach)
  {
    hide Risk, At, IsTrading;
    var held := At(x, events).held;
    TradingBounded(c, reach, x, events);
    OpenBounds(c, reach, held);
    RiskMono(OpenSize(held), c.maxOpenExposure, reach);
  }

  lemma CapNonnegative(c: Config, reach: real)
    requires c.Valid() && reach > 0.0
    ensures OpenCap(c, reach) >= 0.0
    ensures !NothingToLose(c) ==> OpenCap(c, reach) > 0.0
  {
    ProductNonneg(c.maxOpenExposure, reach, Risk(c.maxOpenExposure, reach));
    if c.maxOpenExposure > 0.0 {
      ProductPositive(c.maxOpenExposure, reach, Risk(c.maxOpenExposure, reach));
    }
  }

  /** In every run, what was lost and what is still at risk together stay within what was available
      at the start and what can be open at one time: the last position was opened while something
      was left. */
  lemma {:induction false} OverrunBounded(c: Config, reach: real, x: Context, events: seq<Event>)
    requires c.Valid() && reach > 0.0 && !BreakerTripped(c, x) && IsTrading(c, reach, x, events)
    ensures At(x, events).x == Lose(x, Realised(x, events)) && Realised(x, events) >= 0.0
    ensures Realised(x, events) + OpenRisk(At(x, events).held) <= Available(c, x) + OpenCap(c, reach)
  {
    hide At, IsTrading, Available, OpenCap, OpenRisk, Risk, BreakerTripped;
    if |events| == 0 {
      NothingYet(x);
      CapNonnegative(c, reach);
      TripsAtAvailable(c, x, 0.0);
    } else {
      var init, e := events[..|events| - 1], events[|events| - 1];
      TradingPrefix(c, reach, x, events);
      OverrunBounded(c, reach, x, init);
      LastEvent(x, events);
      OpenWithinCap(c, reach, x, events);
      match e {
        case Opened(p) => OpenedWithRoom(c, reach, x, init, p);
        case Closed(at, loss) => Without(At(x, init).held, at);
      }
    }
  }

  lemma NothingYet(x: Context)
    ensures At(x, []) == Account(x, []) && Realised(x, []) == 0.0 && Lose(x, 0.0) == x && OpenRisk([]) == 0.0
  {
  }

  lemma LastEvent(x: Context, events: seq<Event>)
    requires |events| > 0
    ensures At(x, events) == ConcurrentRisk.After(At(x, events[..|events| - 1]), events[|events| - 1])
  {
  }

  /** A position is only opened while less has been lost than was available. */
  lemma OpenedWithRoom(c: Config, reach: real, x: Context, events: seq<Event>, p: Position)
    requires !BreakerTripped(c, x) && At(x, events).x == Lose(x, Realised(x, events))
    requires Enabled(c, reach, At(x, events), Opened(p))
    ensures Realised(x, events) < Available(c, x)
  {
    hide At, Available, Exhausted, IsLargestFit, OpenRisk, OpenSize, SymbolRisk;
    SameLosses(c, At(x, events).x, ContextOf(At(x, events), p.symbol));
    TripsAtAvailable(c, x, Realised(x, events));
  }

  // ----- the bound is the least one -----

  /** A run that realises all but a little of the bound. */
  lemma NearOverrun(c: Config, reach: real, x: Context, short: real) returns (events: seq<Event>)
    requires c.Valid() && reach > 0.0 && !BreakerTripped(c, x) && !NothingToLose(c) && short > 0.0
    ensures IsTrading(c, reach, x, events)
    ensures Realised(x, events) >= Available(c, x) + OpenCap(c, reach) - short
  {
    CapNonnegative(c, reach);
    hide At, IsTrading, Available, OpenCap, OpenRisk, Risk, BreakerTripped, OneAtATime, LadderFits, Multiple,
         NothingToLose;
    events := BleedTo(c, reach, x, short);
    OverrunBounded(c, reach, x, events);
    var bled := Realised(x, events);
    var y := At(x, events).x;
    BledLoss(c, x, bled);
    CapWithin(c, reach);
    var n, size := LadderTo(c, y, reach, OpenCap(c, reach));
    events := Climb(c, reach, x, events, n, size, n);
    LadderPositive(c, y, reach, n, size);
    events := CloseLadder(c, reach, x, events, y, n, size);
  }

  lemma CapWithin(c: Config, reach: real)
    ensures OpenCap(c, reach) <= c.maxPortfolioRisk && OpenCap(c, reach) <= Risk(c.maxOpenExposure, reach)
    ensures !NothingToLose(c) ==> !ZeroRisk(c)
  {
  }

  lemma BledLoss(c: Config, x: Context, loss: real)
    requires !BreakerTripped(c, x) && !BreakerTripped(c, Lose(x, loss)) && loss >= 0.0
    ensures loss == Available(c, x) - Available(c, Lose(x, loss))
  {
    TripsAtAvailable(c, x, loss);
  }

  /** Over all runs of approved trades and bracketed losses, the realised losses stay within a limit
      exactly when the limit covers what was available at the start and what can be open at one
      time, or nothing can be lost. */
  lemma OverrunExactly(c: Config, x: Context, reach: real, limit: real)
    requires c.Valid() && reach > 0.0 && !BreakerTripped(c, x)
    ensures (forall events :: IsTrading(c, reach, x, events) ==> Realised(x, events) <= limit)
            <==> limit >= Available(c, x) + OpenCap(c, reach) || (NothingToLose(c) && limit >= 0.0)
  {
    hide At, IsTrading, Available, OpenCap, OpenRisk, Risk, BreakerTripped, NothingToLose, Realised;
    var bound := Available(c, x) + OpenCap(c, reach);
    NoEvents(c, reach, x);
    NothingYet(x);
    CapNonnegative(c, reach);
    TripsAtAvailable(c, x, 0.0);
    forall events | IsTrading(c, reach, x, events) ensures Realised(x, events) <= bound {
      OverrunBounded(c, reach, x, events);
      TradingBounded(c, reach, x, events);
      OpenBounds(c, reach, At(x, events).held);
    }
    if NothingToLose(c) {
      forall events | IsTrading(c, reach, x, events) ensures Realised(x, events) == 0.0 {
        NoneRealised(c, reach, x, events);
      }
    } else if limit < bound {
      var events := NearOverrun(c, reach, x, (bound - limit) / 2.0);
      assert Realised(x, events) > limit;
    }
  }

  lemma NoneRealised(c: Config, reach: real, x: Context, events: seq<Event>)
    requires c.Valid() && reach > 0.0 && NothingToLose(c) && IsTrading(c, reach, x, events)
    ensures Realised(x, events) == 0.0
  {
    NothingLost(c, reach, x, events);
  }
}
