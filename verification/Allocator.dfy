/** Dividing a risk budget between strategies: risk parity scaled to the budget. */
module Allocator {
  import opened Wrappers
  import opened RealMath
  import opened Correlations
  import opened QuadraticForms
  import opened StableSorting

  datatype Profile = Profile(name: string, expectedReturnPct: real, volatilityPct: real, regimeFit: real)

  datatype Allocation = Allocation(name: string, weight: real)

  datatype Status = Allocated | Blocked

  datatype AllocationResult = AllocationResult(
    allocations: seq<Allocation>, status: Status, expectedReturnPct: real, volatilityPct: real)

  /** `_validate`: what the allocator accepts; it raises on everything else. */
  predicate Accepts(profiles: seq<Profile>, budget: real, correlations: Option<Matrix>) {
    && budget > 0.0
    && |profiles| > 0
    && (forall i, j :: 0 <= i < j < |profiles| ==> profiles[i].name != profiles[j].name)
    && (forall i :: 0 <= i < |profiles| ==> profiles[i].volatilityPct > 0.0 && 0.0 <= profiles[i].regimeFit <= 1.0)
    && (correlations.Some? ==> |correlations.value| == |profiles| && IsCorrelationMatrix(correlations.value))
  }

  /** The check of the names: each is remembered, and none may return. */
  method HasUniqueNames(profiles: seq<Profile>) returns (unique: bool)
    ensures unique <==> forall i, j :: 0 <= i < j < |profiles| ==> profiles[i].name != profiles[j].name
  {
    var seen: set<string> := {};
    for i := 0 to |profiles|
      invariant forall k :: 0 <= k < i ==> profiles[k].name in seen
      invariant forall name :: name in seen ==> exists k :: 0 <= k < i && profiles[k].name == name
      invariant forall k, l :: 0 <= k < l < i ==> profiles[k].name != profiles[l].name
    {
      if profiles[i].name in seen {
        return false;
      }
      seen := seen + {profiles[i].name};
    }
    return true;
  }

  /** The check of a given correlation matrix, entry by entry. */
  method IsMatrixFor(n: nat, c: Matrix) returns (ok: bool)
    ensures ok <==> |c| == n && IsCorrelationMatrix(c)
  {
    if |c| != n || exists i :: 0 <= i < |c| && |c[i]| != n {
      return false;
    }
    for i := 0 to n
      invariant forall k, l :: 0 <= k < i && 0 <= l < n ==> IsEntry(c, k, l)
    {
      for j := 0 to n
        invariant forall k, l :: 0 <= k < i && 0 <= l < n ==> IsEntry(c, k, l)
        invariant forall l :: 0 <= l < j ==> IsEntry(c, i, l)
      {
        if c[i][j] < -1.0 || c[i][j] > 1.0 || (i == j && c[i][j] != 1.0) || c[i][j] != c[j][i] {
          assert !IsEntry(c, i, j);
          return false;
        }
      }
    }
    EntriesMakeMatrix(c);
    return true;
  }

  ghost predicate IsEntry(c: Matrix, i: nat, j: nat)
    requires IsSquare(c, |c|) && i < |c| && j < |c|
  {
    -1.0 <= c[i][j] <= 1.0 && (i == j ==> c[i][j] == 1.0) && c[i][j] == c[j][i]
  }

  lemma EntriesMakeMatrix(c: Matrix)
    requires IsSquare(c, |c|) && forall i, j :: 0 <= i < |c| && 0 <= j < |c| ==> IsEntry(c, i, j)
    ensures IsCorrelationMatrix(c)
  {
    forall i | 0 <= i < |c| ensures c[i][i] == 1.0 {
      assert IsEntry(c, i, i);
    }
    forall i, j | 0 <= i < |c| && 0 <= j < |c| ensures c[i][j] == c[j][i] {
      assert IsEntry(c, i, j);
    }
    forall i, j | 0 <= i < |c| && 0 <= j < |c| ensures -1.0 <= c[i][j] <= 1.0 {
      assert IsEntry(c, i, j);
    }
  }

  method Validate(profiles: seq<Profile>, budget: real, correlations: Option<Matrix>) returns (ok: bool)
    ensures ok <==> Accepts(profiles, budget, correlations)
  {
    if budget <= 0.0 || |profiles| == 0 {
      return false;
    }
    var unique := HasUniqueNames(profiles);
    if !unique {
      return false;
    }
    for i := 0 to |profiles|
      invariant forall k :: 0 <= k < i ==> profiles[k].volatilityPct > 0.0 && 0.0 <= profiles[k].regimeFit <= 1.0
    {
      if profiles[i].volatilityPct <= 0.0 || profiles[i].regimeFit < 0.0 || profiles[i].regimeFit > 1.0 {
        return false;
      }
    }
    if correlations.None? {
      return true;
    }
    ok := IsMatrixFor(|profiles|, correlations.value);
  }

  function Identity(n: nat): (m: Matrix)
    ensures |m| == n && forall i :: 0 <= i < n ==> |m[i]| == n
    ensures forall i, j :: 0 <= i < n && 0 <= j < n ==> m[i][j] == if i == j then 1.0 else 0.0
  {
    seq(n, i => seq(n, j => if i == j then 1.0 else 0.0))
  }

  function Covariance(a: Profile, b: Profile, correlation: real): real {
    a.volatilityPct * b.volatilityPct * correlation
  }

  ghost predicate IsCovariance(profiles: seq<Profile>, c: Matrix, m: Matrix)
    requires IsSquare(c, |profiles|)
  {
    && IsSquare(m, |profiles|)
    && forall i, j :: 0 <= i < |profiles| && 0 <= j < |profiles| ==>
         m[i][j] == Covariance(profiles[i], profiles[j], c[i][j])
  }

  /** `_covariance_matrix`. */
  method CovarianceMatrix(profiles: seq<Profile>, c: Matrix) returns (m: Matrix)
    requires IsSquare(c, |profiles|)
    ensures IsCovariance(profiles, c, m)
  {
    hide Covariance;
    var n := |profiles|;
    m := seq(n, _ => seq(n, _ => 0.0));
    for i := 0 to n
      invariant IsSquare(m, n)
      invariant forall a, b :: 0 <= a < i && 0 <= b < n ==>
                  m[a][b] == Covariance(profiles[a], profiles[b], c[a][b])
    {
      for j := 0 to n
        invariant IsSquare(m, n)
        invariant forall a, b :: 0 <= a < i && 0 <= b < n ==>
                    m[a][b] == Covariance(profiles[a], profiles[b], c[a][b])
        invariant forall b :: 0 <= b < j ==>
                    m[i][b] == Covariance(profiles[i], profiles[b], c[i][b])
      {
        m := Written(m, i, j, Covariance(profiles[i], profiles[j], c[i][j]));
      }
    }
  }

  /** Risk parity before the budget: fit over volatility. */
  function Shape(profiles: seq<Profile>): (v: Vector)
    requires forall i :: 0 <= i < |profiles| ==> profiles[i].volatilityPct > 0.0
    ensures |v| == |profiles|
    ensures forall i :: 0 <= i < |v| ==> v[i] == profiles[i].regimeFit / profiles[i].volatilityPct
  {
    seq(|profiles|, i requires 0 <= i < |profiles| => profiles[i].regimeFit / profiles[i].volatilityPct)
  }

  /** `_risk_parity_weights`. */
  method RiskParityWeights(profiles: seq<Profile>, m: Matrix, sqrt: real -> real) returns (w: Vector)
    requires |profiles| > 0 && IsSquare(m, |profiles|) && IsSqrt(sqrt)
    requires forall i :: 0 <= i < |profiles| ==> profiles[i].volatilityPct > 0.0
    ensures |w| == |profiles|
    ensures Quad(Shape(profiles), m) <= 0.0 ==> w == seq(|profiles|, _ => 1.0 / |profiles| as real)
    ensures Quad(Shape(profiles), m) > 0.0 ==>
              exists k :: k > 0.0 && k * k * Quad(Shape(profiles), m) == 1.0 && w == Scale(Shape(profiles), k)
  {
    var n := |profiles|;
    var shape: Vector := [];
    for i := 0 to n
      invariant |shape| == i && shape == Shape(profiles)[..i]
    {
      shape := shape + [profiles[i].regimeFit / profiles[i].volatilityPct];
    }
    assert shape == Shape(profiles);
    hide Quad, Shape;
    var variance := Quad(shape, m);
    if variance <= 0.0 {
      return seq(n, _ => 1.0 / n as real);
    }
    var root := sqrt(variance);
    RootPositive(root, variance);
    UnitScale(root, variance);
    return Scale(shape, 1.0 / root);
  }

  lemma UnitScale(root: real, variance: real)
    requires root > 0.0 && root * root == variance
    ensures 1.0 / root > 0.0 && (1.0 / root) * (1.0 / root) * variance == 1.0
  {
    var k := 1.0 / root;
    assert k * root == 1.0;
    assert k * k * (root * root) == (k * root) * (k * root);
  }

  // ----- the ordering of the result -----

  predicate HeavierFirst(a: Allocation, b: Allocation) {
    a.weight >= b.weight
  }

  function Named(profiles: seq<Profile>, w: Vector): (s: seq<Allocation>)
    requires |w| == |profiles|
    ensures |s| == |w| && forall i :: 0 <= i < |w| ==> s[i] == Allocation(profiles[i].name, w[i])
  {
    seq(|w|, i requires 0 <= i < |w| => Allocation(profiles[i].name, w[i]))
  }

  function Weights(s: seq<Allocation>): (w: Vector)
    ensures |w| == |s| && forall i :: 0 <= i < |s| ==> w[i] == s[i].weight
  {
    seq(|s|, i requires 0 <= i < |s| => s[i].weight)
  }

  function ExpectedReturns(profiles: seq<Profile>): (v: Vector)
    ensures |v| == |profiles| && forall i :: 0 <= i < |v| ==> v[i] == profiles[i].expectedReturnPct
  {
    seq(|profiles|, i requires 0 <= i < |profiles| => profiles[i].expectedReturnPct)
  }

  /** `_allocate_and_bound`: scale to the budget, measure the result, heaviest first. */
  method AllocateAndBound(eligible: seq<Profile>, unit: Vector, m: Matrix, budget: real, sqrt: real -> real)
    returns (allocations: seq<Allocation>, volatility: real)
    requires |unit| == |eligible| && IsSquare(m, |eligible|) && IsSqrt(sqrt) && budget > 0.0
    ensures allocations == Sort(Named(eligible, Scale(unit, budget)), HeavierFirst)
    ensures volatility >= 0.0
    ensures volatility * volatility == Max(budget * budget * Quad(unit, m), 0.0)
    ensures Quad(unit, m) == 1.0 ==> volatility == budget
  {
    hide Quad, Sort, Scale, Named;
    var scaled := Scale(unit, budget);
    var variance := Quad(scaled, m);
    QuadScale(unit, m, budget);
    volatility := sqrt(Max(variance, 0.0));
    if Quad(unit, m) == 1.0 {
      BudgetMet(volatility, budget, variance);
    }
    return Sort(Named(eligible, scaled), HeavierFirst), volatility;
  }

  lemma BudgetMet(v: real, budget: real, variance: real)
    requires v >= 0.0 && budget > 0.0 && variance == budget * budget * 1.0 && v * v == Max(variance, 0.0)
    ensures v == budget
  {
    SquareNonneg(budget);
    SquareOrder(v, budget);
    SquareOrder(budget, v);
  }

  // ----- the allocation -----

  function EligibleIndices(profiles: seq<Profile>, minFit: real, n: nat): (idx: seq<nat>)
    requires n <= |profiles|
    ensures forall k :: 0 <= k < |idx| ==> idx[k] < n && profiles[idx[k]].regimeFit >= minFit
    ensures forall k, l :: 0 <= k < l < |idx| ==> idx[k] < idx[l]
    ensures forall i :: 0 <= i < n && profiles[i].regimeFit >= minFit ==> i in idx
  {
    if n == 0 then []
    else EligibleIndices(profiles, minFit, n - 1) + if profiles[n - 1].regimeFit >= minFit then [n - 1] else []
  }

  function Pick(profiles: seq<Profile>, idx: seq<nat>): (e: seq<Profile>)
    requires forall k :: 0 <= k < |idx| ==> idx[k] < |profiles|
    ensures |e| == |idx| && forall k :: 0 <= k < |idx| ==> e[k] == profiles[idx[k]]
  {
    seq(|idx|, k requires 0 <= k < |idx| => profiles[idx[k]])
  }

  /** The result promised for the eligible strategies: one weight each, ordered by weight; when
      the shape carries risk the weights are one positive multiple of fit over volatility and
      the portfolio variance is the square of the budget. */
  ghost predicate IsBudgetAllocation(e: seq<Profile>, m: Matrix, budget: real, r: AllocationResult)
    requires |e| > 0 && IsSquare(m, |e|) && forall i :: 0 <= i < |e| ==> e[i].volatilityPct > 0.0
  {
    exists w: Vector :: |w| == |e| && IsBudgetWeights(e, m, budget, w, r)
  }

  ghost predicate IsBudgetWeights(e: seq<Profile>, m: Matrix, budget: real, w: Vector, r: AllocationResult)
    requires |w| == |e| > 0 && IsSquare(m, |e|) && forall i :: 0 <= i < |e| ==> e[i].volatilityPct > 0.0
  {
    && r.allocations == Sort(Named(e, w), HeavierFirst)
    && r.expectedReturnPct == Dot(Weights(r.allocations), ExpectedReturns(e))
    && r.volatilityPct >= 0.0
    && r.volatilityPct * r.volatilityPct == Max(Quad(w, m), 0.0)
    && (Quad(Shape(e), m) <= 0.0 ==> w == Scale(seq(|e|, _ => 1.0 / |e| as real), budget))
    && (Quad(Shape(e), m) > 0.0 ==>
         && Quad(w, m) == budget * budget
         && r.volatilityPct == budget
         && exists k :: k > 0.0 && w == Scale(Shape(e), k))
  }

  /** `allocate_strategies`; None stands for the validation error. */
  method AllocateStrategies(profiles: seq<Profile>, budget: real, correlations: Option<Matrix>, gateAllows: bool,
                            minFit: real, sqrt: real -> real)
    returns (r: Option<AllocationResult>)
    requires IsSqrt(sqrt) && 0.0 <= minFit <= 1.0
    ensures r.None? <==> !Accepts(profiles, budget, correlations)
    ensures r.Some? && !gateAllows ==> r.value == AllocationResult([], Blocked, 0.0, 0.0)
    ensures r.Some? && gateAllows ==>
              var idx := EligibleIndices(profiles, minFit, |profiles|);
              var c := if correlations.Some? then correlations.value else Identity(|profiles|);
              && r.value.status == Allocated
              && (idx == [] ==> r.value == AllocationResult([], Allocated, 0.0, 0.0))
              && (idx != [] ==> exists m :: IsCovariance(profiles, c, m) &&
                                            IsBudgetAllocation(Pick(profiles, idx), Sub(m, idx), budget, r.value))
  {
    var accepted := Validate(profiles, budget, correlations);
    if !accepted {
      return None;
    }
    var c := if correlations.Some? then correlations.value else Identity(|profiles|);
    var m := CovarianceMatrix(profiles, c);
    if !gateAllows {
      return Some(AllocationResult([], Blocked, 0.0, 0.0));
    }
    var idx := EligibleIndices(profiles, minFit, |profiles|);
    if idx == [] {
      return Some(AllocationResult([], Allocated, 0.0, 0.0));
    }
    var result := AllocateEligible(Pick(profiles, idx), Sub(m, idx), budget, sqrt);
    return Some(result);
  }

  method AllocateEligible(e: seq<Profile>, m: Matrix, budget: real, sqrt: real -> real) returns (r: AllocationResult)
    requires |e| > 0 && IsSquare(m, |e|) && IsSqrt(sqrt) && budget > 0.0
    requires forall i :: 0 <= i < |e| ==> e[i].volatilityPct > 0.0
    ensures r.status == Allocated && IsBudgetAllocation(e, m, budget, r)
  {
    hide Quad, Sort, Scale, Named, Shape, Dot, IsBudgetAllocation;
    var unit := RiskParityWeights(e, m, sqrt);
    var allocations, volatility := AllocateAndBound(e, unit, m, budget, sqrt);
    var expected := Dot(Weights(allocations), ExpectedReturns(e));
    r := AllocationResult(allocations, Allocated, expected, volatility);
    BudgetWeights(e, m, budget, unit, r);
  }

  lemma BudgetWeights(e: seq<Profile>, m: Matrix, budget: real, unit: Vector, r: AllocationResult)
    requires |unit| == |e| > 0 && IsSquare(m, |e|) && budget > 0.0
    requires forall i :: 0 <= i < |e| ==> e[i].volatilityPct > 0.0
    requires r.allocations == Sort(Named(e, Scale(unit, budget)), HeavierFirst)
    requires r.expectedReturnPct == Dot(Weights(r.allocations), ExpectedReturns(e))
    requires r.volatilityPct >= 0.0 && r.volatilityPct * r.volatilityPct == Max(budget * budget * Quad(unit, m), 0.0)
    requires Quad(unit, m) == 1.0 ==> r.volatilityPct == budget
    requires Quad(Shape(e), m) <= 0.0 ==> unit == seq(|e|, _ => 1.0 / |e| as real)
    requires Quad(Shape(e), m) > 0.0 ==>
               exists k :: k > 0.0 && k * k * Quad(Shape(e), m) == 1.0 && unit == Scale(Shape(e), k)
    ensures IsBudgetAllocation(e, m, budget, r)
  {
    hide Quad, Sort, Scale, Named, Shape, Dot;
    var w := Scale(unit, budget);
    QuadScale(unit, m, budget);
    if Quad(Shape(e), m) > 0.0 {
      var k :| k > 0.0 && k * k * Quad(Shape(e), m) == 1.0 && unit == Scale(Shape(e), k);
      QuadScale(Shape(e), m, k);
      ScaleScale(Shape(e), k, budget);
      ProductPositive(budget, k, budget * k);
      UnitBudget(budget, Quad(unit, m), Quad(w, m));
    }
    assert IsBudgetWeights(e, m, budget, w, r);
  }

  lemma UnitBudget(b: real, q: real, p: real)
    requires q == 1.0 && p == b * b * q
    ensures p == b * b
  {
  }

  lemma ScaleScale(v: Vector, k: real, b: real)
    ensures Scale(Scale(v, k), b) == Scale(v, b * k)
  {
    forall i | 0 <= i < |v| ensures Scale(Scale(v, k), b)[i] == Scale(v, b * k)[i] {
      MulAssoc(b, k, v[i]);
    }
  }

  // ----- what the allocation promises -----

  /** With correlations measured from return series the shape never has a negative variance, so
      equal weights are used only when it has none, and otherwise the budget is met exactly. */
  lemma MeasuredShapeVariance(series: map<string, seq<real>>, length: nat, ids: seq<string>, c: Matrix,
                              profiles: seq<Profile>, m: Matrix, idx: seq<nat>, sqrt: real -> real)
    requires IsSqrt(sqrt) && Aligned(series, length) && (forall i :: 0 <= i < |ids| ==> ids[i] in series)
    requires Measures(series, length, ids, c) && |c| == |profiles|
    requires forall i :: 0 <= i < |profiles| ==> profiles[i].volatilityPct > 0.0
    requires IsCovariance(profiles, c, m) && forall k :: 0 <= k < |idx| ==> idx[k] < |profiles|
    ensures Quad(Shape(Pick(profiles, idx)), Sub(m, idx)) >= 0.0
  {
    hide Quad, Shape;
    var e := Pick(profiles, idx);
    var v := seq(|idx|, k requires 0 <= k < |idx| => e[k].volatilityPct);
    QuadOfCovariance(Shape(e), v, Sub(c, idx), Sub(m, idx));
    MeasuredVarianceNonnegative(series, length, ids, c, idx, Product(Shape(e), v), sqrt);
  }

  /** The matrix measured from return series passes the allocator's validation. */
  lemma MeasuredMatrixAccepted(series: map<string, seq<real>>, length: nat, ids: seq<string>, c: Matrix,
                               profiles: seq<Profile>, budget: real)
    requires Aligned(series, length) && (forall i :: 0 <= i < |ids| ==> ids[i] in series)
    requires Measures(series, length, ids, c) && |ids| == |profiles|
    ensures Accepts(profiles, budget, Some(c)) <==> Accepts(profiles, budget, None)
  {
  }

  predicate NonIncreasing(w: Vector) {
    forall i, j :: 0 <= i < j < |w| ==> w[i] >= w[j]
  }

  /** The reported expected return multiplies the sorted weights with the unsorted returns. For an
      allocation it is the portfolio's return whatever the returns are exactly when the shape
      carries no risk, so that all weights are equal, or the strategies are listed by falling
      fit over volatility. */
  lemma ReportedReturnExactly(e: seq<Profile>, m: Matrix, budget: real, w: Vector, r: AllocationResult)
    requires |w| == |e| > 0 && IsSquare(m, |e|) && forall i :: 0 <= i < |e| ==> e[i].volatilityPct > 0.0
    requires IsBudgetWeights(e, m, budget, w, r)
    ensures (forall mu: Vector :: |mu| == |w| ==> Dot(Weights(r.allocations), mu) == Dot(w, mu))
            <==> Quad(Shape(e), m) <= 0.0 || NonIncreasing(Shape(e))
  {
    hide Dot, Sort, Named, Quad, Shape, Scale, NonIncreasing;
    if Quad(Shape(e), m) > 0.0 {
      var k :| k > 0.0 && w == Scale(Shape(e), k);
      ScaleOrder(Shape(e), k);
    } else {
      EqualWeights(|e|, budget);
    }
    PairedExactly(e, w);
  }

  lemma EqualWeights(n: nat, budget: real)
    requires n > 0
    ensures NonIncreasing(Scale(seq(n, _ => 1.0 / n as real), budget))
  {
  }

  predicate SameOrder(s: Vector, v: Vector, i: nat, j: nat)
    requires i < |s| && j < |s| && |s| == |v|
  {
    s[i] >= s[j] <==> v[i] >= v[j]
  }

  lemma SameListing(s: Vector, v: Vector)
    requires |s| == |v| && forall i, j :: 0 <= i < j < |s| ==> SameOrder(s, v, i, j)
    ensures NonIncreasing(s) <==> NonIncreasing(v)
  {
    if NonIncreasing(s) {
      forall i, j | 0 <= i < j < |v| ensures v[i] >= v[j] {
        assert SameOrder(s, v, i, j);
      }
    }
    if NonIncreasing(v) {
      forall i, j | 0 <= i < j < |s| ensures s[i] >= s[j] {
        assert SameOrder(s, v, i, j);
      }
    }
  }

  /** A positive multiple is ordered as the vector itself. */
  lemma ScaleOrder(v: Vector, k: real)
    requires k > 0.0
    ensures NonIncreasing(Scale(v, k)) <==> NonIncreasing(v)
  {
    hide NonIncreasing, SameOrder;
    forall i, j | 0 <= i < j < |v| ensures SameOrder(Scale(v, k), v, i, j) {
      PairOrder(v, k, i, j);
    }
    SameListing(Scale(v, k), v);
  }

  lemma PairOrder(v: Vector, k: real, i: nat, j: nat)
    requires k > 0.0 && i < j < |v|
    ensures SameOrder(Scale(v, k), v, i, j)
  {
    MultipleOrder(v[i], v[j], k);
  }

  lemma MultipleOrder(x: real, y: real, k: real)
    requires k > 0.0
    ensures k * x >= k * y <==> x >= y
  {
    assert k * x - k * y == k * (x - y);
  }

  /** Sorted weights give every product that the weights themselves give exactly when they are
      listed heaviest first. */
  lemma PairedExactly(e: seq<Profile>, w: Vector)
    requires |w| == |e|
    ensures (forall mu: Vector :: |mu| == |w| ==> Dot(Weights(Sort(Named(e, w), HeavierFirst)), mu) == Dot(w, mu))
            <==> NonIncreasing(w)
  {
    hide Dot, Sort, Named;
    SortedWeights(e, w);
    DotDetermines(Weights(Sort(Named(e, w), HeavierFirst)), w);
  }

  lemma SortedWeights(e: seq<Profile>, w: Vector)
    requires |w| == |e|
    ensures Weights(Sort(Named(e, w), HeavierFirst)) == w <==> NonIncreasing(w)
  {
    hide Sort;
    var s := Named(e, w);
    var v := Weights(Sort(s, HeavierFirst));
    SortSorts(s, HeavierFirst);
    assert NonIncreasing(v);
    if NonIncreasing(w) {
      SortOfSorted(s, HeavierFirst);
    }
  }

  /** A vector is known by its products with all vectors. */
  lemma DotDetermines(v: Vector, w: Vector)
    requires |v| == |w|
    ensures (forall mu: Vector :: |mu| == |w| ==> Dot(v, mu) == Dot(w, mu)) <==> v == w
  {
    hide Dot;
    if v != w {
      var i :| 0 <= i < |w| && v[i] != w[i];
      DotUnits(|w|, v, i);
      DotUnits(|w|, w, i);
      var mu := Unit(|w|, i);
      assert |mu| == |w| && Dot(v, mu) != Dot(w, mu);
    }
  }

  const LIGHT := Profile("a", 10.0, 1.0, 0.5)
  const HEAVY := Profile("b", 0.0, 1.0, 1.0)

  const ONES: Matrix := [[1.0, 1.0], [1.0, 1.0]]

  lemma BothEligible(p: Profile, q: Profile)
    requires p.regimeFit >= 0.0 && q.regimeFit >= 0.0
    ensures EligibleIndices([p, q], 0.0, 2) == [0, 1]
  {
    assert EligibleIndices([p, q], 0.0, 0) == [];
    assert EligibleIndices([p, q], 0.0, 1) == [0];
  }

  lemma UnitCovariance(a: Profile, b: Profile, c: real)
    requires a.volatilityPct == 1.0 && b.volatilityPct == 1.0
    ensures Covariance(a, b, c) == c
  {
  }

  /** Under volatilities of one the covariances are the correlations. */
  lemma UnitCovariances(profiles: seq<Profile>, c: Matrix, m: Matrix)
    requires IsSquare(c, |profiles|) && IsCovariance(profiles, c, m)
    requires forall i :: 0 <= i < |profiles| ==> profiles[i].volatilityPct == 1.0
    ensures m == c
  {
    hide Covariance;
    forall i | 0 <= i < |m| ensures m[i] == c[i] {
      forall j | 0 <= j < |m| ensures m[i][j] == c[i][j] {
        UnitCovariance(profiles[i], profiles[j], c[i][j]);
      }
    }
  }

  lemma OnesQuad(a: real, b: real)
    ensures Quad([a, b], ONES) == (a + b) * (a + b)
  {
    hide Dot;
    DotPair(1.0, 1.0, a, b);
    assert Apply(ONES, [a, b]) == [a + b, a + b];
    DotPair(a, b, a + b, a + b);
  }

  /** The weights the budget gives the two strategies. */
  lemma LightAndHeavy(w: Vector, k: real)
    requires k > 0.0 && w == Scale(Shape([LIGHT, HEAVY]), k) && Quad(w, ONES) == 3.0 * 3.0
    ensures w == [1.0, 2.0]
  {
    hide Quad;
    assert Shape([LIGHT, HEAVY]) == [0.5, 1.0];
    assert w == [0.5 * k, k];
    OnesQuad(0.5 * k, k);
    SquareOrder(0.5 * k + k, 3.0);
    SquareOrder(3.0, 0.5 * k + k);
  }

  lemma HeavyListedFirst()
    ensures Sort(Named([LIGHT, HEAVY], [1.0, 2.0]), HeavierFirst) == [Allocation("b", 2.0), Allocation("a", 1.0)]
  {
    var a, b := Allocation("a", 1.0), Allocation("b", 2.0);
    assert Named([LIGHT, HEAVY], [1.0, 2.0]) == [a, b];
    assert [a, b][..1] == [a] && [a][..0] == [];
    assert Sort([a], HeavierFirst) == [a];
    assert Insert([a], b, HeavierFirst) == Insert([], b, HeavierFirst) + [a];
  }

  lemma MispairedReport(r: AllocationResult)
    requires IsBudgetAllocation([LIGHT, HEAVY], ONES, 3.0, r)
    ensures r.allocations == [Allocation("b", 2.0), Allocation("a", 1.0)] && r.expectedReturnPct == 20.0
  {
    hide Quad, Sort, Dot, Named, Scale;
    var e := [LIGHT, HEAVY];
    var w: Vector :| |w| == 2 && IsBudgetWeights(e, ONES, 3.0, w, r);
    assert Shape(e) == [0.5, 1.0];
    OnesQuad(0.5, 1.0);
    var k :| k > 0.0 && w == Scale(Shape(e), k);
    LightAndHeavy(w, k);
    HeavyListedFirst();
    assert Weights(r.allocations) == [2.0, 1.0] && ExpectedReturns(e) == [10.0, 0.0];
    DotPair(2.0, 1.0, 10.0, 0.0);
  }

  lemma MispairedAllocation(m: Matrix, r: AllocationResult)
    requires IsCovariance([LIGHT, HEAVY], ONES, m)
    requires IsBudgetAllocation(Pick([LIGHT, HEAVY], [0, 1]), Sub(m, [0, 1]), 3.0, r)
    ensures r.allocations == [Allocation("b", 2.0), Allocation("a", 1.0)] && r.expectedReturnPct == 20.0
  {
    hide IsBudgetAllocation, IsCovariance;
    UnitCovariances([LIGHT, HEAVY], ONES, m);
    assert Pick([LIGHT, HEAVY], [0, 1]) == [LIGHT, HEAVY];
    assert Sub(ONES, [0, 1])[0] == ONES[0] && Sub(ONES, [0, 1])[1] == ONES[1];
    assert Sub(ONES, [0, 1]) == ONES;
    MispairedReport(r);
  }

  lemma MispairedResult(idx: seq<nat>, r: AllocationResult)
    requires idx == [0, 1]
    requires exists m :: IsCovariance([LIGHT, HEAVY], ONES, m)
                         && IsBudgetAllocation(Pick([LIGHT, HEAVY], idx), Sub(m, idx), 3.0, r)
    ensures r.allocations == [Allocation("b", 2.0), Allocation("a", 1.0)] && r.expectedReturnPct == 20.0
  {
    hide IsBudgetAllocation, Covariance;
    var m :| IsCovariance([LIGHT, HEAVY], ONES, m)
             && IsBudgetAllocation(Pick([LIGHT, HEAVY], idx), Sub(m, idx), 3.0, r);
    MispairedAllocation(m, r);
  }

  lemma TenEarned()
    ensures Dot(Weights([Allocation("b", 2.0), Allocation("a", 1.0)]), ExpectedReturns([HEAVY, LIGHT])) == 10.0
  {
    hide Dot;
    assert Weights([Allocation("b", 2.0), Allocation("a", 1.0)]) == [2.0, 1.0];
    assert ExpectedReturns([HEAVY, LIGHT]) == [0.0, 10.0];
    DotPair(2.0, 1.0, 0.0, 10.0);
  }

  /** Two fully correlated strategies of equal volatility, the second fitting twice as well and
      earning nothing: the report pairs its weight with the return of the first, and says 20
      where the allocation earns 10. */
  method ReportedReturnMispairs(sqrt: real -> real) returns (r: AllocationResult)
    requires IsSqrt(sqrt)
    ensures r.allocations == [Allocation("b", 2.0), Allocation("a", 1.0)]
    ensures r.expectedReturnPct == 20.0
    ensures Dot(Weights(r.allocations), ExpectedReturns([HEAVY, LIGHT])) == 10.0
  {
    hide Dot, EligibleIndices, IsBudgetAllocation, IsCovariance, Pick, Sub;
    var result := AllocateStrategies([LIGHT, HEAVY], 3.0, Some(ONES), true, 0.0, sqrt);
    r := result.value;
    BothEligible(LIGHT, HEAVY);
    MispairedResult(EligibleIndices([LIGHT, HEAVY], 0.0, 2), r);
    TenEarned();
  }
}
