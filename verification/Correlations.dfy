/** Pairwise Pearson correlations of aligned return series, as the allocator consumes them. */
module Correlations {
  import opened Wrappers
  import opened RealMath
  import opened Ordering

  datatype State = Measured | ConstantSeries | InsufficientObservations

  datatype Pair = Pair(left: string, right: string, state: State, value: Option<real>, shared: nat)

  datatype CorrelationError = TooFewSeries | LengthMismatch | TooShort

  type Matrix = seq<seq<real>>

  datatype Surface = Surface(ids: seq<string>, matrix: Matrix, pairs: seq<Pair>)

  function Deviations(x: seq<real>): (d: seq<real>)
    requires |x| > 0
    ensures |d| == |x|
  {
    Shift(x, Mean(x))
  }

  predicate IsConstant(x: seq<real>) {
    forall i :: 0 <= i < |x| ==> x[i] == x[0]
  }

  /** r is the Pearson correlation of x and y, stated without a square root: it has the sign
      of the covariance and its square is the share of the product of the variances; a
      constant series has the neutral correlation 0. */
  ghost predicate IsCorrelation(x: seq<real>, y: seq<real>, r: real)
    requires |x| == |y| > 0
  {
    var dx, dy := Deviations(x), Deviations(y);
    if IsConstant(x) || IsConstant(y) then r == 0.0
    else IsPearson(Dot(dx, dy), Dot(dx, dx), Dot(dy, dy), r)
  }

  ghost predicate IsPearson(c: real, vx: real, vy: real, r: real) {
    r * r * (vx * vy) == c * c && r * c >= 0.0
  }

  // ----- one pair -----

  lemma ConstantVariance(x: seq<real>)
    requires |x| > 0
    ensures Dot(Deviations(x), Deviations(x)) >= 0.0
    ensures IsConstant(x) <==> Dot(Deviations(x), Deviations(x)) == 0.0
  {
    var d := Deviations(x);
    DotZero(d);
    if IsConstant(x) {
      MeanBounds(x, x[0], x[0]);
    } else {
      var i :| 0 <= i < |x| && x[i] != x[0];
      assert d[i] != 0.0 || d[0] != 0.0;
    }
  }

  /** Over exact reals the quotient is already in [-1, 1], so the clamp never acts. */
  lemma QuotientIsCorrelation(c: real, vx: real, vy: real, root: real, r: real)
    requires vx > 0.0 && vy > 0.0 && c * c <= vx * vy
    requires root >= 0.0 && root * root == vx * vy && root != 0.0 && r == c / root
    ensures -1.0 <= r <= 1.0
    ensures IsPearson(c, vx, vy, r)
  {
    assert r * root == c;
    assert (r * r) * (root * root) == c * c;
    SquareOrder(root, c);
    QuotientBounds(c, root, -1.0, 1.0);
    assert r * c == (r * r) * root;
    assert (r * r) * root >= 0.0 by {
      SquareNonneg(r);
      MulMono(0.0, r * r, root);
    }
  }

  /** `_estimate_pair`. */
  method EstimatePair(left: string, right: string, x: seq<real>, y: seq<real>, shared: nat, sqrt: real -> real)
    returns (p: Pair)
    requires |x| == |y| == shared && IsSqrt(sqrt)
    ensures p.left == left && p.right == right && p.shared == shared
    ensures p.state == InsufficientObservations <==> shared < 2
    ensures p.state == ConstantSeries <==> shared >= 2 && (IsConstant(x) || IsConstant(y))
    ensures p.value.Some? <==> p.state == Measured
    ensures shared >= 2 ==> IsCorrelation(x, y, if p.value.Some? then p.value.value else 0.0)
    ensures p.value.Some? ==> -1.0 <= p.value.value <= 1.0
  {
    if shared < 2 {
      return Pair(left, right, InsufficientObservations, None, shared);
    }
    hide Dot, IsPearson, Quotient, IsSqrt;
    var covariance, varLeft, varRight := Moments(x, y);
    ConstantVariance(x);
    ConstantVariance(y);
    if varLeft <= 0.0 || varRight <= 0.0 {
      return Pair(left, right, ConstantSeries, None, shared);
    }
    CauchySchwarz(Deviations(x), Deviations(y));
    QuotientIsPearson(covariance, varLeft, varRight, sqrt);
    return Pair(left, right, Measured, Some(Quotient(covariance, varLeft, varRight, sqrt)), shared);
  }

  /** The correlation as it is computed: a quotient, clamped to [-1, 1]. */
  function Quotient(c: real, vx: real, vy: real, sqrt: real -> real): real {
    var root := sqrt(vx * vy);
    if root == 0.0 then 0.0 else Max(-1.0, Min(1.0, c / root))
  }

  lemma QuotientIsPearson(c: real, vx: real, vy: real, sqrt: real -> real)
    requires IsSqrt(sqrt) && vx > 0.0 && vy > 0.0 && c * c <= vx * vy
    ensures IsPearson(c, vx, vy, Quotient(c, vx, vy, sqrt))
    ensures -1.0 <= Quotient(c, vx, vy, sqrt) <= 1.0
  {
    ProductPositive(vx, vy, vx * vy);
    var root := sqrt(vx * vy);
    RootPositive(root, vx * vy);
    QuotientIsCorrelation(c, vx, vy, root, c / root);
  }

  /** The loop of `_estimate_pair`: the covariance and both variances in one pass. */
  method Moments(x: seq<real>, y: seq<real>) returns (covariance: real, varLeft: real, varRight: real)
    requires |x| == |y| > 0
    ensures var dx, dy := Deviations(x), Deviations(y);
            covariance == Dot(dx, dy) && varLeft == Dot(dx, dx) && varRight == Dot(dy, dy)
  {
    hide Dot, Sum, Mean, Deviations;
    var n := |x|;
    var meanLeft, meanRight := Sum(x) / n as real, Sum(y) / n as real;
    covariance, varLeft, varRight := 0.0, 0.0, 0.0;
    ghost var dx, dy := Deviations(x), Deviations(y);
    DeviationAt(x);
    DeviationAt(y);
    NoDot(dx, dy);
    for i := 0 to n
      invariant covariance == Dot(dx[..i], dy[..i])
      invariant varLeft == Dot(dx[..i], dx[..i]) && varRight == Dot(dy[..i], dy[..i])
    {
      var dxi, dyi := x[i] - meanLeft, y[i] - meanRight;
      AccumulateDot(dx, dy, i, dxi, dyi, covariance);
      AccumulateDot(dx, dx, i, dxi, dxi, varLeft);
      AccumulateDot(dy, dy, i, dyi, dyi, varRight);
      covariance := covariance + dxi * dyi;
      varLeft := varLeft + dxi * dxi;
      varRight := varRight + dyi * dyi;
    }
    assert dx[..n] == dx && dy[..n] == dy;
  }

  lemma DeviationAt(x: seq<real>)
    requires |x| > 0
    ensures forall i :: 0 <= i < |x| ==> Deviations(x)[i] == x[i] - Sum(x) / |x| as real
  {
  }

  lemma AccumulateDot(x: seq<real>, y: seq<real>, i: nat, a: real, b: real, total: real)
    requires |x| == |y| && i < |x| && a == x[i] && b == y[i] && total == Dot(x[..i], y[..i])
    ensures total + a * b == Dot(x[..i + 1], y[..i + 1])
  {
    DotStep(x, y, i);
  }

  lemma NoDot(x: seq<real>, y: seq<real>)
    requires |x| == |y|
    ensures Dot(x[..0], y[..0]) == Dot(x[..0], x[..0]) == Dot(y[..0], y[..0]) == 0.0
  {
  }

  // ----- what determines a correlation -----

  lemma CorrelationSymmetric(x: seq<real>, y: seq<real>, r: real)
    requires |x| == |y| > 0 && IsCorrelation(x, y, r)
    ensures IsCorrelation(y, x, r)
  {
    hide Dot, IsPearson;
    var dx, dy := Deviations(x), Deviations(y);
    DotSymmetric(dx, dy);
    if !IsConstant(x) && !IsConstant(y) {
      PearsonSymmetric(Dot(dx, dy), Dot(dx, dx), Dot(dy, dy), r);
    }
  }

  lemma PearsonSymmetric(c: real, vx: real, vy: real, r: real)
    requires IsPearson(c, vx, vy, r)
    ensures IsPearson(c, vy, vx, r)
  {
  }

  /** At most one number is the correlation of two series. */
  lemma CorrelationUnique(x: seq<real>, y: seq<real>, r: real, q: real)
    requires |x| == |y| > 0 && IsCorrelation(x, y, r) && IsCorrelation(x, y, q)
    ensures r == q
  {
    if !IsConstant(x) && !IsConstant(y) {
      var dx, dy := Deviations(x), Deviations(y);
      ConstantVariance(x);
      ConstantVariance(y);
      ProductPositive(Dot(dx, dx), Dot(dy, dy), Dot(dx, dx) * Dot(dy, dy));
      SameRoot(r, q, Dot(dx, dx) * Dot(dy, dy), Dot(dx, dy));
    }
  }

  lemma SameRoot(r: real, q: real, p: real, c: real)
    requires p > 0.0 && r * r * p == c * c && q * q * p == c * c && r * c >= 0.0 && q * c >= 0.0
    ensures r == q
  {
    assert (r * r - q * q) * p == 0.0;
    NoZeroProduct(r * r - q * q, p);
    assert (r - q) * (r + q) == r * r - q * q;
    if r != q {
      NoZeroProduct(r + q, r - q);
      assert q == -r;
      assert q * c == -(r * c);
      assert r * c == 0.0;
      NoZeroProduct(c, r);
      assert c * c == 0.0;
      NoZeroProduct(r * r, p);
      NoZeroProduct(r, r);
    }
  }

  lemma NoZeroProduct(x: real, y: real)
    requires x * y == 0.0 && y != 0.0
    ensures x == 0.0
  {
    DivCancel(x, y);
  }

  // ----- the surface -----

  /** Every series has the same length, and at least two observations. */
  ghost predicate Aligned(series: map<string, seq<real>>, length: nat) {
    length >= 2 && forall id :: id in series ==> |series[id]| == length
  }

  /** The matrix the allocator accepts: square, unit diagonal, symmetric, entries in [-1, 1]. */
  predicate IsCorrelationMatrix(m: Matrix) {
    && (forall i :: 0 <= i < |m| ==> |m[i]| == |m|)
    && (forall i :: 0 <= i < |m| ==> m[i][i] == 1.0)
    && (forall i, j :: 0 <= i < |m| && 0 <= j < |m| ==> m[i][j] == m[j][i])
    && (forall i, j :: 0 <= i < |m| && 0 <= j < |m| ==> -1.0 <= m[i][j] <= 1.0)
  }

  /** Row and column order follow `ids`; off the diagonal stand the pairwise correlations. */
  ghost predicate Measures(series: map<string, seq<real>>, length: nat, ids: seq<string>, m: Matrix)
    requires Aligned(series, length) && forall i :: 0 <= i < |ids| ==> ids[i] in series
  {
    && |m| == |ids| && IsCorrelationMatrix(m)
    && forall i, j :: 0 <= i < |m| && 0 <= j < |m| && i != j ==>
         IsCorrelation(series[ids[i]], series[ids[j]], m[i][j])
  }

  /** `_validate_series`. */
  method ValidateSeries(ids: seq<string>, series: map<string, seq<real>>) returns (r: Result<nat, CorrelationError>)
    requires |ids| > 0 && forall id :: id in ids <==> id in series
    ensures r.Ok? <==> exists length :: Aligned(series, length)
    ensures r.Ok? ==> Aligned(series, r.value)
    ensures r.Err? ==> (r.error == TooShort <==> |series[ids[0]]| < 2)
    ensures r.Err? ==> (r.error == LengthMismatch <==> |series[ids[0]]| >= 2)
  {
    var length := |series[ids[0]]|;
    for i := 0 to |ids|
      invariant i > 0 ==> length >= 2
      invariant forall k :: 0 <= k < i ==> |series[ids[k]]| == length
    {
      if |series[ids[i]]| != length {
        return Err(LengthMismatch);
      }
      if length < 2 {
        return Err(TooShort);
      }
    }
    forall id | id in series ensures |series[id]| == length {
      assert id in ids;
    }
    assert Aligned(series, length);
    return Ok(length);
  }

  /** `correlations_from_returns`. */
  method CorrelationsFromReturns(series: map<string, seq<real>>, sqrt: real -> real)
    returns (r: Result<Surface, CorrelationError>)
    requires IsSqrt(sqrt)
    ensures r.Ok? <==> |series| >= 2 && exists length :: Aligned(series, length)
    ensures r.Err? && |series| < 2 ==> r.error == TooFewSeries
    ensures r.Ok? ==>
              && Ascending(r.value.ids, LexLe)
              && (forall id :: id in r.value.ids <==> id in series)
              && (forall length :: Aligned(series, length) ==>
                   && Measures(series, length, r.value.ids, r.value.matrix)
                   && AreEstimates(series, length, r.value.pairs))
              && NamesOf(r.value.pairs) == PairNames(r.value.ids, |r.value.ids|)
  {
    hide Measures, AreEstimates, NamesOf, PairNames, LexLe;
    LexIsTotalOrder();
    var ids := SortKeys(series.Keys, LexLe);
    if |ids| < 2 {
      return Err(TooFewSeries);
    }
    var validated := ValidateSeries(ids, series);
    if validated.Err? {
      return Err(validated.error);
    }
    var length := validated.value;
    var matrix, pairs := FillMatrix(ids, series, length, sqrt);
    forall other | Aligned(series, other) ensures other == length {
      assert ids[0] in series;
    }
    return Ok(Surface(ids, matrix, pairs));
  }

  ghost predicate Entry(series: map<string, seq<real>>, length: nat, a: string, b: string, v: real)
    requires Aligned(series, length) && a in series && b in series
  {
    -1.0 <= v <= 1.0 && IsCorrelation(series[a], series[b], v) && IsCorrelation(series[b], series[a], v)
  }

  function Written(m: Matrix, i: nat, j: nat, v: real): (w: Matrix)
    requires i < |m| && j < |m[i]|
    ensures |w| == |m| && forall a :: 0 <= a < |m| ==> |w[a]| == |m[a]|
    ensures forall a, b :: 0 <= a < |m| && 0 <= b < |m[a]| ==> w[a][b] == if a == i && b == j then v else m[a][b]
  {
    m[i := m[i][j := v]]
  }

  /** What a pair of the surface says about its two series. */
  ghost predicate IsEstimate(series: map<string, seq<real>>, length: nat, p: Pair)
    requires Aligned(series, length)
  {
    && p.left in series && p.right in series && p.shared == length
    && var x, y := series[p.left], series[p.right];
    && p.state == (if IsConstant(x) || IsConstant(y) then ConstantSeries else Measured)
    && (p.value.Some? <==> p.state == Measured)
    && IsCorrelation(x, y, if p.value.Some? then p.value.value else 0.0)
  }

  ghost predicate AreEstimates(series: map<string, seq<real>>, length: nat, pairs: seq<Pair>)
    requires Aligned(series, length)
  {
    forall k :: 0 <= k < |pairs| ==> IsEstimate(series, length, pairs[k])
  }

  function NamesOf(pairs: seq<Pair>): (n: seq<(string, string)>)
    ensures |n| == |pairs|
  {
    seq(|pairs|, k requires 0 <= k < |pairs| => (pairs[k].left, pairs[k].right))
  }

  /** The id at i with each later id before j. */
  function RowNames(ids: seq<string>, i: nat, j: nat): (n: seq<(string, string)>)
    requires i < j <= |ids|
  {
    seq(j - i - 1, k requires 0 <= k < j - i - 1 => (ids[i], ids[i + 1 + k]))
  }

  /** The pairs of the first rows, row by row. */
  function PairNames(ids: seq<string>, rows: nat): seq<(string, string)>
    requires rows <= |ids|
  {
    if rows == 0 then [] else PairNames(ids, rows - 1) + RowNames(ids, rows - 1, |ids|)
  }

  /** Every two ids are listed together, the earlier one first, and nothing else is. */
  lemma {:induction false} PairNamesExactly(ids: seq<string>, rows: nat, a: string, b: string)
    requires rows <= |ids|
    ensures (a, b) in PairNames(ids, rows) <==>
            exists i, j :: 0 <= i < rows && i < j < |ids| && ids[i] == a && ids[j] == b
  {
    if rows > 0 {
      PairNamesExactly(ids, rows - 1, a, b);
      var row := RowNames(ids, rows - 1, |ids|);
      if j :| rows - 1 < j < |ids| && ids[rows - 1] == a && ids[j] == b {
        assert row[j - rows] == (a, b);
      }
      if (a, b) in row {
        var k :| 0 <= k < |row| && row[k] == (a, b);
        assert ids[rows - 1] == a && ids[rows + k] == b;
      }
    }
  }

  lemma OnePairMore(pairs: seq<Pair>, p: Pair, ids: seq<string>, i: nat, j: nat)
    requires i < j < |ids| && p.left == ids[i] && p.right == ids[j]
    requires NamesOf(pairs) == PairNames(ids, i) + RowNames(ids, i, j)
    ensures NamesOf(pairs + [p]) == PairNames(ids, i) + RowNames(ids, i, j + 1)
  {
    hide PairNames;
    assert NamesOf(pairs + [p]) == NamesOf(pairs) + [(ids[i], ids[j])];
    assert RowNames(ids, i, j + 1) == RowNames(ids, i, j) + [(ids[i], ids[j])];
  }

  ghost predicate IsShaped(m: Matrix, n: nat) {
    |m| == n && forall a :: 0 <= a < |m| ==> |m[a]| == n
  }

  /** The rows before `rows` are filled on both sides of the diagonal, row `rows` up to `columns`. */
  ghost predicate Filled(ids: seq<string>, series: map<string, seq<real>>, length: nat, m: Matrix, rows: nat,
                         columns: nat)
    requires Aligned(series, length) && forall i :: 0 <= i < |ids| ==> ids[i] in series
  {
    && IsShaped(m, |ids|)
    && (forall a :: 0 <= a < rows && a < |ids| ==> m[a][a] == 1.0)
    && (forall a, b :: 0 <= a < b < |ids| && (a < rows || (a == rows && b < columns)) ==>
         m[b][a] == m[a][b] && Entry(series, length, ids[a], ids[b], m[a][b]))
  }

  lemma StartRow(ids: seq<string>, series: map<string, seq<real>>, length: nat, m: Matrix, i: nat)
    requires Aligned(series, length) && forall k :: 0 <= k < |ids| ==> ids[k] in series
    requires i < |ids| && Filled(ids, series, length, m, i, 0)
    ensures Filled(ids, series, length, Written(m, i, i, 1.0), i, i + 1) && Written(m, i, i, 1.0)[i][i] == 1.0
  {
    hide Entry, Written;
  }

  lemma WritePair(ids: seq<string>, series: map<string, seq<real>>, length: nat, m: Matrix, i: nat, j: nat, v: real)
    requires Aligned(series, length) && forall k :: 0 <= k < |ids| ==> ids[k] in series
    requires i < j < |ids| && Filled(ids, series, length, m, i, j) && m[i][i] == 1.0
    requires Entry(series, length, ids[i], ids[j], v)
    ensures var w := Written(Written(m, i, j, v), j, i, v);
            Filled(ids, series, length, w, i, j + 1) && w[i][i] == 1.0
  {
    hide Entry, Written;
  }

  lemma EndRow(ids: seq<string>, series: map<string, seq<real>>, length: nat, m: Matrix, i: nat)
    requires Aligned(series, length) && forall k :: 0 <= k < |ids| ==> ids[k] in series
    requires i < |ids| && Filled(ids, series, length, m, i, |ids|) && m[i][i] == 1.0
    ensures Filled(ids, series, length, m, i + 1, 0)
  {
    hide Entry;
  }

  /** The nested loops: each estimate is listed, and written on both sides of the diagonal. */
  method FillMatrix(ids: seq<string>, series: map<string, seq<real>>, length: nat, sqrt: real -> real)
    returns (m: Matrix, pairs: seq<Pair>)
    requires IsSqrt(sqrt) && Aligned(series, length) && forall i :: 0 <= i < |ids| ==> ids[i] in series
    ensures Measures(series, length, ids, m)
    ensures AreEstimates(series, length, pairs) && NamesOf(pairs) == PairNames(ids, |ids|)
  {
    hide Entry, Written, Measures, Filled, PairNames, RowNames, NamesOf, IsEstimate;
    var n := |ids|;
    m := seq(n, _ => seq(n, _ => 0.0));
    pairs := [];
    NothingFilled(ids, series, length, m);
    for i := 0 to n
      invariant IsShaped(m, n) && Filled(ids, series, length, m, i, 0)
      invariant AreEstimates(series, length, pairs) && NamesOf(pairs) == PairNames(ids, i)
    {
      StartRow(ids, series, length, m, i);
      m := Written(m, i, i, 1.0);
      RowBegins(ids, i);
      for j := i + 1 to n
        invariant IsShaped(m, n) && Filled(ids, series, length, m, i, j) && m[i][i] == 1.0
        invariant AreEstimates(series, length, pairs)
        invariant NamesOf(pairs) == PairNames(ids, i) + RowNames(ids, i, j)
      {
        var pair := EstimatePair(ids[i], ids[j], series[ids[i]], series[ids[j]], length, sqrt);
        PairEstimated(series, length, pair);
        OnePairMore(pairs, pair, ids, i, j);
        pairs := pairs + [pair];
        var value := if pair.value.Some? then pair.value.value else 0.0;
        NewEntry(series, length, ids[i], ids[j], value);
        WritePair(ids, series, length, m, i, j, value);
        m := Written(Written(m, i, j, value), j, i, value);
      }
      EndRow(ids, series, length, m, i);
    }
    FilledMeasures(ids, series, length, m);
  }

  lemma NothingFilled(ids: seq<string>, series: map<string, seq<real>>, length: nat, m: Matrix)
    requires Aligned(series, length) && forall i :: 0 <= i < |ids| ==> ids[i] in series
    requires IsShaped(m, |ids|)
    ensures Filled(ids, series, length, m, 0, 0)
    ensures NamesOf([]) == PairNames(ids, 0) && AreEstimates(series, length, [])
  {
    hide Entry;
  }

  lemma RowBegins(ids: seq<string>, i: nat)
    requires i < |ids|
    ensures PairNames(ids, i) + RowNames(ids, i, i + 1) == PairNames(ids, i)
    ensures PairNames(ids, i + 1) == PairNames(ids, i) + RowNames(ids, i, |ids|)
  {
  }

  lemma PairEstimated(series: map<string, seq<real>>, length: nat, p: Pair)
    requires Aligned(series, length) && p.left in series && p.right in series && p.shared == length
    requires p.state != InsufficientObservations && (p.value.Some? <==> p.state == Measured)
    requires p.state == ConstantSeries <==> IsConstant(series[p.left]) || IsConstant(series[p.right])
    requires IsCorrelation(series[p.left], series[p.right], if p.value.Some? then p.value.value else 0.0)
    ensures IsEstimate(series, length, p)
  {
    hide IsCorrelation, IsConstant;
  }

  lemma FilledMeasures(ids: seq<string>, series: map<string, seq<real>>, length: nat, m: Matrix)
    requires Aligned(series, length) && forall i :: 0 <= i < |ids| ==> ids[i] in series
    requires Filled(ids, series, length, m, |ids|, 0)
    ensures Measures(series, length, ids, m)
  {
    hide IsCorrelation, IsCorrelationMatrix;
    FilledIsMatrix(ids, series, length, m);
    forall i, j | 0 <= i < |m| && 0 <= j < |m| && i != j
      ensures IsCorrelation(series[ids[i]], series[ids[j]], m[i][j])
    {
      if i < j {
        assert Entry(series, length, ids[i], ids[j], m[i][j]);
      } else {
        assert Entry(series, length, ids[j], ids[i], m[j][i]) && m[i][j] == m[j][i];
      }
    }
  }

  lemma FilledIsMatrix(ids: seq<string>, series: map<string, seq<real>>, length: nat, m: Matrix)
    requires Aligned(series, length) && forall i :: 0 <= i < |ids| ==> ids[i] in series
    requires Filled(ids, series, length, m, |ids|, 0)
    ensures IsCorrelationMatrix(m)
  {
    hide IsCorrelation;
    forall i, j | 0 <= i < |m| && 0 <= j < |m| ensures m[i][j] == m[j][i] {
      if i < j {
        assert m[j][i] == m[i][j];
      }
    }
    forall i, j | 0 <= i < |m| && 0 <= j < |m| ensures -1.0 <= m[i][j] <= 1.0 {
      if i < j {
        assert Entry(series, length, ids[i], ids[j], m[i][j]);
      } else if j < i {
        assert Entry(series, length, ids[j], ids[i], m[j][i]);
      }
    }
  }

  lemma NewEntry(series: map<string, seq<real>>, length: nat, a: string, b: string, v: real)
    requires Aligned(series, length) && a in series && b in series
    requires -1.0 <= v <= 1.0 && IsCorrelation(series[a], series[b], v)
    ensures Entry(series, length, a, b, v) && Entry(series, length, b, a, v)
  {
    hide IsCorrelation;
    CorrelationSymmetric(series[a], series[b], v);
  }
}
