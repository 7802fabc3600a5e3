/** Confidence calibration: Brier score and expected calibration error over confidence bins. */
module Calibration {
  import opened Wrappers
  import opened RealMath
  import opened Grouping

  datatype Error = BadBinCount | BadMinSamples | BadTolerance | LengthMismatch | ConfidenceOutOfRange | OutcomeNotBinary

  datatype Status = Calibrated | Miscalibrated | Insufficient

  datatype Bin = Bin(index: nat, lower: real, upper: real, n: nat, meanConfidence: real, meanOutcome: real) {
    function Gap(): real {
      Abs(meanConfidence - meanOutcome)
    }
  }

  datatype Report = Report(n: nat, nBins: int, brier: real, ece: real, tolerance: real, status: Status, bins: seq<Bin>)

  /** `_validate_pairs` and the parameter checks, in the order they are made. */
  function FirstError(confidences: seq<real>, outcomes: seq<real>, nBins: int, minSamples: int, tolerance: real)
    : Option<Error>
  {
    if nBins < 1 then Some(BadBinCount)
    else if minSamples < 1 then Some(BadMinSamples)
    else if tolerance < 0.0 then Some(BadTolerance)
    else if |confidences| != |outcomes| then Some(LengthMismatch)
    else if exists i :: 0 <= i < |confidences| && !(0.0 <= confidences[i] <= 1.0) then Some(ConfidenceOutOfRange)
    else if exists i :: 0 <= i < |outcomes| && outcomes[i] != 0.0 && outcomes[i] != 1.0 then Some(OutcomeNotBinary)
    else None
  }

  ghost predicate ValidPairs(confidences: seq<real>, outcomes: seq<real>) {
    && |confidences| == |outcomes|
    && (forall i :: 0 <= i < |confidences| ==> 0.0 <= confidences[i] <= 1.0)
    && (forall i :: 0 <= i < |outcomes| ==> outcomes[i] == 0.0 || outcomes[i] == 1.0)
  }

  /** The bin of a confidence: equal widths, with 1.0 counted in the last bin. */
  function BinIndex(confidence: real, nBins: nat): (b: nat)
    requires nBins >= 1 && 0.0 <= confidence <= 1.0
    ensures b < nBins
    ensures b as real <= confidence * nBins as real
    ensures confidence * nBins as real < (b + 1) as real || (b == nBins - 1 && confidence == 1.0)
  {
    var scaled := confidence * nBins as real;
    ScaledConfidence(confidence, nBins as real);
    if scaled.Floor < nBins - 1 then scaled.Floor else nBins - 1
  }

  lemma ScaledConfidence(c: real, n: real)
    requires 0.0 <= c <= 1.0 && n > 0.0
    ensures 0.0 <= c * n <= n
    ensures c < 1.0 ==> c * n < n
  {
    MulMono(0.0, c, n);
    MulMono(c, 1.0, n);
    if c < 1.0 {
      MulStrict(c, 1.0, n);
    }
  }

  function Labels(confidences: seq<real>, nBins: nat): (l: seq<nat>)
    requires nBins >= 1 && forall i :: 0 <= i < |confidences| ==> 0.0 <= confidences[i] <= 1.0
    ensures |l| == |confidences| && forall i :: 0 <= i < |l| ==> l[i] == BinIndex(confidences[i], nBins)
  {
    seq(|confidences|, i requires 0 <= i < |confidences| => BinIndex(confidences[i], nBins))
  }

  function Errors(confidences: seq<real>, outcomes: seq<real>): (d: seq<real>)
    requires |confidences| == |outcomes|
    ensures |d| == |confidences| && forall i :: 0 <= i < |d| ==> d[i] == confidences[i] - outcomes[i]
  {
    seq(|confidences|, i requires 0 <= i < |confidences| => confidences[i] - outcomes[i])
  }

  function Range(n: nat): (r: seq<nat>)
    ensures |r| == n && forall i :: 0 <= i < n ==> r[i] == i
  {
    seq(n, i => i)
  }

  // ----- what a bin and a list of bins record -----

  ghost predicate IsBin(confidences: seq<real>, outcomes: seq<real>, nBins: nat, b: Bin)
    requires nBins >= 1 && ValidPairs(confidences, outcomes)
  {
    var labels := Labels(confidences, nBins);
    && b.index < nBins
    && b.lower * nBins as real == b.index as real
    && b.upper * nBins as real == (b.index + 1) as real
    && b.n == |Group(labels, confidences, b.index)| == |Group(labels, outcomes, b.index)| > 0
    && b.meanConfidence == Mean(Group(labels, confidences, b.index))
    && b.meanOutcome == Mean(Group(labels, outcomes, b.index))
  }

  /** The bins are the exercised ones below `limit`, in increasing order of index. */
  ghost predicate AreBins(confidences: seq<real>, outcomes: seq<real>, nBins: nat, limit: nat, bins: seq<Bin>)
    requires nBins >= 1 && ValidPairs(confidences, outcomes)
  {
    var labels := Labels(confidences, nBins);
    && (forall j :: 0 <= j < |bins| ==> IsBin(confidences, outcomes, nBins, bins[j]) && bins[j].index < limit)
    && (forall j, k :: 0 <= j < k < |bins| ==> bins[j].index < bins[k].index)
    && (forall index: nat :: index < limit && index in labels ==> exists j :: 0 <= j < |bins| && bins[j].index == index)
  }

  function GapSum(bins: seq<Bin>): real {
    if |bins| == 0 then 0.0
    else GapSum(bins[..|bins| - 1]) + bins[|bins| - 1].n as real * bins[|bins| - 1].Gap()
  }

  function SampleCount(bins: seq<Bin>): nat {
    if |bins| == 0 then 0 else SampleCount(bins[..|bins| - 1]) + bins[|bins| - 1].n
  }

  lemma {:induction false} GroupDifference(labels: seq<nat>, c: seq<real>, o: seq<real>, tag: nat)
    requires |labels| == |c| == |o|
    ensures GroupSum(labels, Errors(c, o), tag) == GroupSum(labels, c, tag) - GroupSum(labels, o, tag)
  {
    if |c| > 0 {
      var n := |c| - 1;
      GroupDifference(labels[..n], c[..n], o[..n], tag);
      assert Errors(c, o)[..n] == Errors(c[..n], o[..n]);
      GroupSumStep(labels, c, tag);
      GroupSumStep(labels, o, tag);
      GroupSumStep(labels, Errors(c, o), tag);
    }
  }

  /** A bin's weighted gap is the absolute sum of the errors of its samples. */
  lemma WeightedGap(confidences: seq<real>, outcomes: seq<real>, nBins: nat, b: Bin)
    requires nBins >= 1 && ValidPairs(confidences, outcomes) && IsBin(confidences, outcomes, nBins, b)
    ensures b.n as real * b.Gap() == Abs(GroupSum(Labels(confidences, nBins), Errors(confidences, outcomes), b.index))
  {
    hide Group, Labels, Sum, Abs;
    var labels := Labels(confidences, nBins);
    GroupDifference(labels, confidences, outcomes, b.index);
    MeanGap(Group(labels, confidences, b.index), Group(labels, outcomes, b.index));
  }

  lemma MeanGap(c: seq<real>, o: seq<real>)
    requires |c| == |o| > 0
    ensures |c| as real * Abs(Mean(c) - Mean(o)) == Abs(Sum(c) - Sum(o))
    ensures Abs(Mean(c) - Mean(o)) >= 0.0
  {
    hide Sum;
    GapArithmetic(Sum(c), Sum(o), |c| as real, Mean(c), Mean(o));
  }

  lemma GapArithmetic(c: real, o: real, n: real, mc: real, mo: real)
    requires n > 0.0 && mc == c / n && mo == o / n
    ensures n * Abs(mc - mo) == Abs(c - o)
  {
    var d := mc - mo;
    assert mc * n == c && mo * n == o;
    assert d * n == c - o;
    if d > 0.0 {
      ProductPositive(d, n, d * n);
    } else if d < 0.0 {
      ProductPositive(-d, n, -(d * n));
    }
  }

  /** What the loop over the bins has computed once it has passed `limit` bins. */
  ghost predicate Collected(confidences: seq<real>, outcomes: seq<real>, nBins: nat, limit: nat, bins: seq<Bin>)
    requires nBins >= 1 && ValidPairs(confidences, outcomes)
  {
    var labels := Labels(confidences, nBins);
    && AreBins(confidences, outcomes, nBins, limit, bins)
    && GapSum(bins) == AbsTotalOver(labels, Errors(confidences, outcomes), Range(limit))
    && SampleCount(bins) == SizeOver(labels, confidences, Range(limit))
  }

  lemma SkipBin(confidences: seq<real>, outcomes: seq<real>, nBins: nat, limit: nat, bins: seq<Bin>)
    requires nBins >= 1 && ValidPairs(confidences, outcomes) && limit < nBins
    requires Collected(confidences, outcomes, nBins, limit, bins) && limit !in Labels(confidences, nBins)
    ensures Collected(confidences, outcomes, nBins, limit + 1, bins)
  {
    hide Group, GapSum, SampleCount, IsBin;
    var labels, d := Labels(confidences, nBins), Errors(confidences, outcomes);
    assert Range(limit + 1)[..limit] == Range(limit);
    GroupEmpty(labels, d, limit);
    GroupEmpty(labels, confidences, limit);
  }

  lemma AddBinToList(confidences: seq<real>, outcomes: seq<real>, nBins: nat, limit: nat, bins: seq<Bin>, b: Bin)
    requires nBins >= 1 && ValidPairs(confidences, outcomes) && limit < nBins
    requires AreBins(confidences, outcomes, nBins, limit, bins)
    requires b.index == limit && IsBin(confidences, outcomes, nBins, b)
    ensures AreBins(confidences, outcomes, nBins, limit + 1, bins + [b])
  {
    hide IsBin, Group;
    var more := bins + [b];
    assert more[|bins|].index == limit;
    forall index: nat | index < limit + 1 && index in Labels(confidences, nBins)
      ensures exists j :: 0 <= j < |more| && more[j].index == index
    {
      if index < limit {
        var j :| 0 <= j < |bins| && bins[j].index == index;
        assert more[j].index == index;
      }
    }
  }

  lemma AddBin(confidences: seq<real>, outcomes: seq<real>, nBins: nat, limit: nat, bins: seq<Bin>, b: Bin)
    requires nBins >= 1 && ValidPairs(confidences, outcomes) && limit < nBins
    requires Collected(confidences, outcomes, nBins, limit, bins)
    requires b.index == limit && IsBin(confidences, outcomes, nBins, b)
    ensures Collected(confidences, outcomes, nBins, limit + 1, bins + [b])
  {
    hide AreBins, Group, GroupSum, Bin.Gap;
    AddBinToList(confidences, outcomes, nBins, limit, bins, b);
    assert Range(limit + 1)[..limit] == Range(limit);
    assert (bins + [b])[..|bins|] == bins;
    WeightedGap(confidences, outcomes, nBins, b);
  }

  // ----- the bounds -----

  lemma ErrorBounds(confidences: seq<real>, outcomes: seq<real>)
    requires ValidPairs(confidences, outcomes)
    ensures var d := Errors(confidences, outcomes);
            && AbsSum(d) <= |d| as real
            && Dot(d, d) <= |d| as real
            && Sum(d) == Sum(confidences) - Sum(outcomes)
  {
    SmallErrors(Errors(confidences, outcomes));
    SumDifference(confidences, outcomes);
  }

  lemma {:induction false} SmallErrors(d: seq<real>)
    requires forall i :: 0 <= i < |d| ==> -1.0 <= d[i] <= 1.0
    ensures AbsSum(d) <= |d| as real && Dot(d, d) <= |d| as real
  {
    if |d| > 0 {
      var n := |d| - 1;
      SmallErrors(d[..n]);
      DotLast(d, d);
      SmallSquare(d[n]);
    }
  }

  lemma SmallSquare(x: real)
    requires -1.0 <= x <= 1.0
    ensures x * x <= 1.0
  {
    SquareMono(Abs(x), 1.0);
    assert Abs(x) * Abs(x) == x * x;
  }

  lemma {:induction false} SumDifference(c: seq<real>, o: seq<real>)
    requires |c| == |o|
    ensures Sum(Errors(c, o)) == Sum(c) - Sum(o)
  {
    if |c| > 0 {
      var n := |c| - 1;
      SumDifference(c[..n], o[..n]);
      assert Errors(c, o)[..n] == Errors(c[..n], o[..n]);
    }
  }

  /** The chain |mean error| <= ECE <= 1 and ECE^2 <= Brier <= 1: the triangle inequality inside
      the bins, then Cauchy-Schwarz over all samples. */
  lemma ScoreBounds(confidences: seq<real>, outcomes: seq<real>, nBins: nat, ece: real, brier: real)
    requires nBins >= 1 && ValidPairs(confidences, outcomes) && |confidences| > 0
    requires var d, n := Errors(confidences, outcomes), |confidences| as real;
             ece == AbsTotalOver(Labels(confidences, nBins), d, Range(nBins)) / n && brier == Dot(d, d) / n
    ensures Abs(Mean(confidences) - Mean(outcomes)) <= ece <= 1.0
    ensures ece * ece <= brier <= 1.0
  {
    hide Labels, BinIndex, Errors, Range, Sum, Dot, TotalOver, AbsTotalOver, AbsSum, Mean, Abs;
    var labels, d, tags := Labels(confidences, nBins), Errors(confidences, outcomes), Range(nBins);
    var n := |confidences| as real;
    forall i | 0 <= i < |labels| ensures labels[i] in tags {
      assert tags[labels[i]] == labels[i];
    }
    GroupsReconcile(labels, d, tags);
    GroupsShrink(labels, d, tags);
    TotalBelowAbsTotal(labels, d, tags);
    AbsSumSquared(d);
    ErrorBounds(confidences, outcomes);
    var t := AbsTotalOver(labels, d, tags);
    MeanGap(confidences, outcomes);
    BoundsArithmetic(n, t, AbsSum(d), Dot(d, d), Abs(Mean(confidences) - Mean(outcomes)), ece, brier);
  }

  lemma BoundsArithmetic(n: real, t: real, a: real, q: real, m: real, ece: real, brier: real)
    requires n > 0.0 && n * m <= t <= a <= n && m >= 0.0 && q <= n && a * a <= n * q
    requires ece == t / n && brier == q / n
    ensures m <= ece <= 1.0 && ece * ece <= brier <= 1.0
  {
    assert ece * n == t && brier * n == q;
    MulMono(0.0, m, n);
    if ece < m {
      MulStrict(ece, m, n);
    }
    if ece > 1.0 {
      MulStrict(1.0, ece, n);
    }
    if brier > 1.0 {
      MulStrict(1.0, brier, n);
    }
    if ece * ece > brier {
      SquareMono(t, a);
      assert (ece * ece) * (n * n) == t * t;
      assert brier * (n * n) == n * q;
      ProductPositive(n, n, n * n);
      MulStrict(brier, ece * ece, n * n);
    }
  }

  /** The calibration error vanishes exactly when every exercised bin keeps its promise. */
  lemma {:induction false} PerfectlyCalibrated(bins: seq<Bin>)
    requires forall j :: 0 <= j < |bins| ==> bins[j].n > 0
    ensures GapSum(bins) >= 0.0
    ensures GapSum(bins) == 0.0 <==> forall j :: 0 <= j < |bins| ==> bins[j].meanConfidence == bins[j].meanOutcome
  {
    if |bins| > 0 {
      var k := |bins| - 1;
      PerfectlyCalibrated(bins[..k]);
      if bins[k].Gap() > 0.0 {
        ProductPositive(bins[k].n as real, bins[k].Gap(), bins[k].n as real * bins[k].Gap());
      }
      assert forall j :: 0 <= j < k ==> bins[..k][j] == bins[j];
    }
  }

  lemma NoSamples(labels: seq<nat>, confidences: seq<real>, outcomes: seq<real>)
    requires |labels| == |confidences| == |outcomes|
    ensures forall b: nat :: Group(labels[..0], confidences[..0], b) == Group(labels[..0], outcomes[..0], b) == []
  {
  }

  /** Sort every sample into the bin of its confidence. */
  method FillBins(confidences: seq<real>, outcomes: seq<real>, nBins: nat)
    returns (binConfidence: array<seq<real>>, binOutcome: array<seq<real>>)
    requires nBins >= 1 && ValidPairs(confidences, outcomes)
    ensures binConfidence.Length == binOutcome.Length == nBins
    ensures forall b: nat :: b < nBins ==> binConfidence[b] == Group(Labels(confidences, nBins), confidences, b)
    ensures forall b: nat :: b < nBins ==> binOutcome[b] == Group(Labels(confidences, nBins), outcomes, b)
  {
    hide Group, BinIndex, Labels;
    var n := |confidences|;
    ghost var labels := Labels(confidences, nBins);
    NoSamples(labels, confidences, outcomes);
    binConfidence := new seq<real>[nBins](_ => []);
    binOutcome := new seq<real>[nBins](_ => []);
    for i := 0 to n
      invariant forall b: nat :: b < nBins ==> binConfidence[b] == Group(labels[..i], confidences[..i], b)
      invariant forall b: nat :: b < nBins ==> binOutcome[b] == Group(labels[..i], outcomes[..i], b)
    {
      var index := BinIndex(confidences[i], nBins);
      forall b: nat | b < nBins
        ensures Group(labels[..i + 1], confidences[..i + 1], b) ==
                if b == index then binConfidence[b] + [confidences[i]] else binConfidence[b]
        ensures Group(labels[..i + 1], outcomes[..i + 1], b) ==
                if b == index then binOutcome[b] + [outcomes[i]] else binOutcome[b]
      {
        GroupStep(labels, confidences, b, i);
        GroupStep(labels, outcomes, b, i);
        assert binConfidence[b] + [] == binConfidence[b] && binOutcome[b] + [] == binOutcome[b];
      }
      binConfidence[index] := binConfidence[index] + [confidences[i]];
      binOutcome[index] := binOutcome[index] + [outcomes[i]];
    }
    assert labels[..n] == labels && confidences[..n] == confidences && outcomes[..n] == outcomes;
  }

  lemma NothingCollected(confidences: seq<real>, outcomes: seq<real>, nBins: nat)
    requires nBins >= 1 && ValidPairs(confidences, outcomes)
    ensures Collected(confidences, outcomes, nBins, 0, [])
    ensures |confidences| == |outcomes|
  {
  }

  lemma NewBin(confidences: seq<real>, outcomes: seq<real>, nBins: nat, b: Bin)
    requires nBins >= 1 && ValidPairs(confidences, outcomes) && b.index < nBins
    requires b.lower == b.index as real / nBins as real && b.upper == (b.index + 1) as real / nBins as real
    requires var labels := Labels(confidences, nBins);
             var c, o := Group(labels, confidences, b.index), Group(labels, outcomes, b.index);
             && b.n == |c| == |o| > 0
             && b.meanConfidence == Sum(c) / b.n as real
             && b.meanOutcome == Sum(o) / b.n as real
    ensures IsBin(confidences, outcomes, nBins, b)
  {
    hide Group, Labels, Sum;
  }

  /** Summarise the exercised bins, lowest confidence first. */
  method CollectBins(confidences: seq<real>, outcomes: seq<real>, nBins: nat,
                     binConfidence: array<seq<real>>, binOutcome: array<seq<real>>)
    returns (bins: seq<Bin>)
    requires nBins >= 1 && ValidPairs(confidences, outcomes) && binConfidence.Length == binOutcome.Length == nBins
    requires forall b: nat :: b < nBins ==> binConfidence[b] == Group(Labels(confidences, nBins), confidences, b)
    requires forall b: nat :: b < nBins ==> binOutcome[b] == Group(Labels(confidences, nBins), outcomes, b)
    ensures Collected(confidences, outcomes, nBins, nBins, bins)
  {
    hide Collected, AreBins, IsBin, Group, Labels, BinIndex, Sum;
    bins := [];
    NothingCollected(confidences, outcomes, nBins);
    for index := 0 to nBins
      invariant Collected(confidences, outcomes, nBins, index, bins)
    {
      GroupEmpty<nat, real>(Labels(confidences, nBins), confidences, index);
      GroupSizes<nat, real, real>(Labels(confidences, nBins), confidences, outcomes, index);
      if |binConfidence[index]| == 0 {
        SkipBin(confidences, outcomes, nBins, index, bins);
      } else {
        var size := |binConfidence[index]|;
        var b := Bin(index, index as real / nBins as real, (index + 1) as real / nBins as real, size,
                     Sum(binConfidence[index]) / size as real, Sum(binOutcome[index]) / size as real);
        NewBin(confidences, outcomes, nBins, b);
        AddBin(confidences, outcomes, nBins, index, bins, b);
        bins := bins + [b];
      }
    }
  }

  lemma CollectedFacts(confidences: seq<real>, outcomes: seq<real>, nBins: nat, bins: seq<Bin>)
    requires nBins >= 1 && ValidPairs(confidences, outcomes) && Collected(confidences, outcomes, nBins, nBins, bins)
    ensures AreBins(confidences, outcomes, nBins, nBins, bins)
    ensures GapSum(bins) == AbsTotalOver(Labels(confidences, nBins), Errors(confidences, outcomes), Range(nBins))
    ensures SampleCount(bins) == |confidences|
    ensures GapSum(bins) == 0.0 <==> forall b :: b in bins ==> b.meanConfidence == b.meanOutcome
  {
    AllSamplesBinned(confidences, nBins);
    PerfectlyCalibrated(bins);
  }

  lemma PercentFree(x: real, n: real, q: real)
    requires n > 0.0 && q == x / n
    ensures q * n == x && (q == 0.0 <==> x == 0.0)
  {
    assert q * n == x;
  }

  lemma NoErrorMeansValid(confidences: seq<real>, outcomes: seq<real>, nBins: int, minSamples: int, tolerance: real)
    requires FirstError(confidences, outcomes, nBins, minSamples, tolerance).None?
    ensures ValidPairs(confidences, outcomes) && nBins >= 1 && minSamples >= 1
  {
  }

  /** The checks of the parameters and the pairs, one after the other. */
  method Validate(confidences: seq<real>, outcomes: seq<real>, nBins: int, minSamples: int, tolerance: real)
    returns (error: Option<Error>)
    ensures error == FirstError(confidences, outcomes, nBins, minSamples, tolerance)
  {
    if nBins < 1 {
      return Some(BadBinCount);
    }
    if minSamples < 1 {
      return Some(BadMinSamples);
    }
    if tolerance < 0.0 {
      return Some(BadTolerance);
    }
    if |confidences| != |outcomes| {
      return Some(LengthMismatch);
    }
    for i := 0 to |confidences|
      invariant forall k :: 0 <= k < i ==> 0.0 <= confidences[k] <= 1.0
    {
      if confidences[i] < 0.0 || confidences[i] > 1.0 {
        return Some(ConfidenceOutOfRange);
      }
    }
    for i := 0 to |outcomes|
      invariant forall k :: 0 <= k < i ==> outcomes[k] == 0.0 || outcomes[k] == 1.0
    {
      if outcomes[i] != 0.0 && outcomes[i] != 1.0 {
        return Some(OutcomeNotBinary);
      }
    }
    return None;
  }

  /** `evaluate_calibration`. */
  method EvaluateCalibration(confidences: seq<real>, outcomes: seq<real>, nBins: int, minSamples: int, tolerance: real)
    returns (r: Result<Report, Error>)
    ensures r.Err? <==> FirstError(confidences, outcomes, nBins, minSamples, tolerance).Some?
    ensures r.Err? ==> r.error == FirstError(confidences, outcomes, nBins, minSamples, tolerance).value
    ensures r.Ok? ==> ValidPairs(confidences, outcomes) && nBins >= 1 && r.value.n == |confidences|
    ensures r.Ok? && |confidences| < minSamples ==>
              r.value == Report(|confidences|, nBins, 0.0, 0.0, tolerance, Insufficient, [])
    ensures r.Ok? && |confidences| >= minSamples ==>
              && AreBins(confidences, outcomes, nBins, nBins, r.value.bins)
              && SampleCount(r.value.bins) == |confidences|
              && r.value.ece * |confidences| as real == GapSum(r.value.bins)
              && (r.value.ece == 0.0 <==>
                   forall b :: b in r.value.bins ==> b.meanConfidence == b.meanOutcome)
              && Abs(Mean(confidences) - Mean(outcomes)) <= r.value.ece <= 1.0
              && r.value.ece * r.value.ece <= r.value.brier <= 1.0
              && r.value.brier * |confidences| as real
                 == Dot(Errors(confidences, outcomes), Errors(confidences, outcomes))
              && r.value.status == if r.value.ece <= tolerance then Calibrated else Miscalibrated
  {
    hide *;
    var error := Validate(confidences, outcomes, nBins, minSamples, tolerance);
    if error.Some? {
      return Err(error.value);
    }
    NoErrorMeansValid(confidences, outcomes, nBins, minSamples, tolerance);
    var n := |confidences|;
    if n < minSamples {
      return Ok(Report(n, nBins, 0.0, 0.0, tolerance, Insufficient, []));
    }

    var binConfidence, binOutcome := FillBins(confidences, outcomes, nBins);
    var bins := CollectBins(confidences, outcomes, nBins, binConfidence, binOutcome);
    CollectedFacts(confidences, outcomes, nBins, bins);
    var errors := Errors(confidences, outcomes);
    var brier := Dot(errors, errors) / n as real;
    var ece := GapSum(bins) / n as real;
    ScoreBounds(confidences, outcomes, nBins, ece, brier);
    PercentFree(GapSum(bins), n as real, ece);
    PercentFree(Dot(errors, errors), n as real, brier);
    return Ok(Report(n, nBins, brier, ece, tolerance, if ece <= tolerance then Calibrated else Miscalibrated, bins));
  }

  lemma AllSamplesBinned(confidences: seq<real>, nBins: nat)
    requires nBins >= 1 && forall i :: 0 <= i < |confidences| ==> 0.0 <= confidences[i] <= 1.0
    ensures SizeOver(Labels(confidences, nBins), confidences, Range(nBins)) == |confidences|
  {
    var labels, tags := Labels(confidences, nBins), Range(nBins);
    forall i | 0 <= i < |labels| ensures labels[i] in tags {
      assert tags[labels[i]] == labels[i];
    }
    GroupsPartition(labels, confidences, tags);
  }
}
