/** The portfolio variance as a quadratic form, and why measured correlations keep it non-negative. */
module QuadraticForms {
  import opened RealMath
  import opened Correlations

  type Vector = seq<real>

  ghost predicate IsSquare(m: Matrix, n: nat) {
    |m| == n && forall i :: 0 <= i < n ==> |m[i]| == n
  }

  function Apply(m: Matrix, w: Vector): (r: Vector)
    requires forall i :: 0 <= i < |m| ==> |m[i]| == |w|
    ensures |r| == |m| && forall i :: 0 <= i < |m| ==> r[i] == Dot(m[i], w)
  {
    seq(|m|, i requires 0 <= i < |m| => Dot(m[i], w))
  }

  /** w^T m w. */
  function Quad(w: Vector, m: Matrix): real
    requires |m| == |w| && forall i :: 0 <= i < |m| ==> |m[i]| == |w|
  {
    Dot(w, Apply(m, w))
  }

  /** Scaling the weights scales the variance by the square. */
  lemma QuadScale(w: Vector, m: Matrix, k: real)
    requires IsSquare(m, |w|)
    ensures Quad(Scale(w, k), m) == k * k * Quad(w, m)
  {
    hide Dot;
    var y := Apply(m, w);
    forall i | 0 <= i < |m| ensures Apply(m, Scale(w, k))[i] == Scale(y, k)[i] {
      DotScaleRight(m[i], w, k);
    }
    assert Apply(m, Scale(w, k)) == Scale(y, k);
    DotScaleRight(Scale(w, k), y, k);
    DotSymmetric(Scale(w, k), y);
    DotScaleRight(y, w, k);
    DotSymmetric(y, w);
  }

  function Product(x: Vector, y: Vector): (z: Vector)
    requires |x| == |y|
    ensures |z| == |x| && forall i :: 0 <= i < |x| ==> z[i] == x[i] * y[i]
  {
    seq(|x|, i requires 0 <= i < |x| => x[i] * y[i])
  }

  lemma ProductPrefix(x: Vector, y: Vector, n: nat)
    requires |x| == |y| && n <= |x|
    ensures Product(x, y)[..n] == Product(x[..n], y[..n])
  {
    forall i | 0 <= i < n ensures Product(x, y)[..n][i] == Product(x[..n], y[..n])[i] {
      assert x[..n][i] == x[i] && y[..n][i] == y[i];
    }
  }

  lemma {:induction false} DotMoveFactor(x: Vector, v: Vector, y: Vector)
    requires |x| == |v| == |y|
    ensures Dot(x, Product(v, y)) == Dot(Product(x, v), y)
  {
    if |x| > 0 {
      var n := |x| - 1;
      DotMoveFactor(x[..n], v[..n], y[..n]);
      ProductPrefix(v, y, n);
      ProductPrefix(x, v, n);
      MulAssoc(x[n], v[n], y[n]);
    }
  }

  /** A covariance matrix built from volatilities and correlations weighs the correlations
      with the volatility-scaled weights. */
  lemma QuadOfCovariance(w: Vector, v: Vector, c: Matrix, m: Matrix)
    requires |v| == |w| && IsSquare(c, |w|) && IsSquare(m, |w|)
    requires forall i, j :: 0 <= i < |w| && 0 <= j < |w| ==> m[i][j] == v[i] * v[j] * c[i][j]
    ensures Quad(w, m) == Quad(Product(w, v), c)
  {
    hide Dot;
    var z := Product(w, v);
    forall i | 0 <= i < |w| ensures Apply(m, w)[i] == Product(v, Apply(c, z))[i] {
      CovarianceRow(v[i], v, c[i], m[i], w);
    }
    assert Apply(m, w) == Product(v, Apply(c, z));
    DotMoveFactor(w, v, Apply(c, z));
  }

  lemma {:induction false} CovarianceRow(a: real, v: Vector, c: Vector, m: Vector, w: Vector)
    requires |v| == |c| == |m| == |w| && forall j :: 0 <= j < |w| ==> m[j] == a * v[j] * c[j]
    ensures Dot(m, w) == a * Dot(c, Product(w, v))
  {
    hide Dot;
    var ac, vw := Scale(c, a), Product(v, w);
    RowAsProduct(a, v, c, m);
    DotMoveFactor(ac, v, w);
    ProductSymmetric(v, w);
    DotScaleLeft(c, vw, a);
  }

  lemma RowAsProduct(a: real, v: Vector, c: Vector, m: Vector)
    requires |v| == |c| == |m| && forall j :: 0 <= j < |m| ==> m[j] == a * v[j] * c[j]
    ensures m == Product(Scale(c, a), v)
  {
    forall j | 0 <= j < |m| ensures m[j] == Product(Scale(c, a), v)[j] {
      RowEntry(a, v[j], c[j]);
    }
  }

  lemma ProductSymmetric(x: Vector, y: Vector)
    requires |x| == |y|
    ensures Product(x, y) == Product(y, x)
  {
    forall j | 0 <= j < |x| ensures Product(x, y)[j] == Product(y, x)[j] {
    }
  }

  lemma RowEntry(a: real, v: real, c: real)
    ensures a * v * c == a * c * v
  {
  }

  // ----- Gram matrices -----

  function Add(x: Vector, y: Vector): (z: Vector)
    requires |x| == |y|
    ensures |z| == |x| && forall i :: 0 <= i < |x| ==> z[i] == x[i] + y[i]
  {
    seq(|x|, i requires 0 <= i < |x| => x[i] + y[i])
  }

  function Zeros(n: nat): (z: Vector)
    ensures |z| == n && forall i :: 0 <= i < n ==> z[i] == 0.0
  {
    seq(n, _ => 0.0)
  }

  /** The sum of the vectors u[i] weighted by w[i]. */
  function Combine(w: Vector, u: seq<Vector>, dim: nat): (z: Vector)
    requires |w| == |u| && forall i :: 0 <= i < |u| ==> |u[i]| == dim
    ensures |z| == dim
  {
    if |w| == 0 then Zeros(dim)
    else Add(Combine(w[..|w| - 1], u[..|u| - 1], dim), Scale(u[|u| - 1], w[|w| - 1]))
  }

  function Dots(x: Vector, u: seq<Vector>): (r: Vector)
    requires forall i :: 0 <= i < |u| ==> |u[i]| == |x|
    ensures |r| == |u| && forall i :: 0 <= i < |u| ==> r[i] == Dot(x, u[i])
  {
    seq(|u|, i requires 0 <= i < |u| => Dot(x, u[i]))
  }

  lemma {:induction false} DotAdd(x: Vector, y: Vector, z: Vector)
    requires |x| == |y| == |z|
    ensures Dot(x, Add(y, z)) == Dot(x, y) + Dot(x, z)
  {
    if |x| > 0 {
      var n := |x| - 1;
      DotAdd(x[..n], y[..n], z[..n]);
      assert Add(y, z)[..n] == Add(y[..n], z[..n]);
      assert x[n] * (y[n] + z[n]) == x[n] * y[n] + x[n] * z[n];
    }
  }

  lemma {:induction false} DotZeros(x: Vector)
    ensures Dot(x, Zeros(|x|)) == 0.0
  {
    if |x| > 0 {
      DotZeros(x[..|x| - 1]);
      assert Zeros(|x|)[..|x| - 1] == Zeros(|x| - 1);
    }
  }

  lemma {:induction false} DotCombine(x: Vector, w: Vector, u: seq<Vector>)
    requires |w| == |u| && forall i :: 0 <= i < |u| ==> |u[i]| == |x|
    ensures Dot(x, Combine(w, u, |x|)) == Dot(w, Dots(x, u))
  {
    if |w| == 0 {
      DotZeros(x);
    } else {
      var n := |w| - 1;
      DotCombine(x, w[..n], u[..n]);
      CombineStep(x, w, u);
      DotsStep(x, w, u);
    }
  }

  lemma {:induction false} CombineStep(x: Vector, w: Vector, u: seq<Vector>)
    requires |w| == |u| > 0 && forall i :: 0 <= i < |u| ==> |u[i]| == |x|
    ensures var n := |w| - 1;
            Dot(x, Combine(w, u, |x|)) == Dot(x, Combine(w[..n], u[..n], |x|)) + w[n] * Dot(x, u[n])
  {
    hide Dot;
    var n := |w| - 1;
    DotAdd(x, Combine(w[..n], u[..n], |x|), Scale(u[n], w[n]));
    DotScaleRight(x, u[n], w[n]);
  }

  lemma {:induction false} DotsStep(x: Vector, w: Vector, u: seq<Vector>)
    requires |w| == |u| > 0 && forall i :: 0 <= i < |u| ==> |u[i]| == |x|
    ensures var n := |w| - 1; Dot(w, Dots(x, u)) == Dot(w[..n], Dots(x, u[..n])) + w[n] * Dot(x, u[n])
  {
    hide Dot;
    var n := |w| - 1;
    DotLast(w, Dots(x, u));
    assert Dots(x, u)[..n] == Dots(x, u[..n]);
  }

  /** A matrix of inner products gives the squared length of the combined vector. */
  lemma GramNonnegative(w: Vector, u: seq<Vector>, dim: nat, g: Matrix)
    requires |u| == |w| && IsSquare(g, |w|) && forall i :: 0 <= i < |u| ==> |u[i]| == dim
    requires forall i, j :: 0 <= i < |w| && 0 <= j < |w| ==> g[i][j] == Dot(u[i], u[j])
    ensures Quad(w, g) >= 0.0
  {
    hide Dot, Combine;
    var z := Combine(w, u, dim);
    forall i | 0 <= i < |w| ensures Apply(g, w)[i] == Dots(z, u)[i] {
      assert g[i] == Dots(u[i], u);
      DotSymmetric(Dots(u[i], u), w);
      DotCombine(u[i], w, u);
      DotSymmetric(u[i], z);
    }
    assert Apply(g, w) == Dots(z, u);
    DotCombine(z, w, u);
    DotZero(z);
  }

  // ----- measured correlations form a Gram matrix -----

  function Unit(n: nat, k: nat): (e: Vector)
    ensures |e| == n
  {
    seq(n, i => if i == k then 1.0 else 0.0)
  }

  function Inverse(s: real): real {
    if s == 0.0 then 0.0 else 1.0 / s
  }

  lemma InverseOf(s: real)
    requires s > 0.0
    ensures Inverse(s) * s == 1.0 && Inverse(s) > 0.0
  {
  }

  /** The direction of a series: its deviations at unit length, or a coordinate of its own
      when the series is constant and has no direction. */
  function Direction(x: seq<real>, n: nat, k: nat, sqrt: real -> real): (u: Vector)
    requires |x| > 0
    ensures |u| == |x| + n
  {
    if IsConstant(x) then Zeros(|x|) + Unit(n, k)
    else
      var d := Deviations(x);
      Scale(d, Inverse(sqrt(Dot(d, d)))) + Zeros(n)
  }

  lemma {:induction false} DotConcat(a: Vector, b: Vector, c: Vector, d: Vector)
    requires |a| == |c| && |b| == |d|
    ensures Dot(a + b, c + d) == Dot(a, c) + Dot(b, d)
  {
    if |b| == 0 {
      assert a + b == a && c + d == c;
    } else {
      var n := |b| - 1;
      DotConcat(a, b[..n], c, d[..n]);
      assert (a + b)[..|a| + n] == a + b[..n];
      assert (c + d)[..|c| + n] == c + d[..n];
    }
  }

  lemma {:induction false} DotUnits(n: nat, x: Vector, k: nat)
    requires |x| == n
    ensures Dot(x, Unit(n, k)) == if k < n then x[k] else 0.0
  {
    if n > 0 {
      DotUnits(n - 1, x[..n - 1], k);
      assert Unit(n, k)[..n - 1] == Unit(n - 1, k);
    }
  }

  lemma DirectionsMeasure(x: seq<real>, y: seq<real>, n: nat, i: nat, j: nat, sqrt: real -> real)
    requires |x| == |y| > 0 && IsSqrt(sqrt) && i < n && j < n
    ensures i != j ==> IsCorrelation(x, y, Dot(Direction(x, n, i, sqrt), Direction(y, n, j, sqrt)))
    ensures i == j && x == y ==> Dot(Direction(x, n, i, sqrt), Direction(y, n, j, sqrt)) == 1.0
  {
    if IsConstant(x) || IsConstant(y) {
      ConstantDirections(x, y, n, i, j, sqrt);
    } else {
      MovingDirections(x, y, n, i, j, sqrt);
    }
  }

  lemma MovingDirections(x: seq<real>, y: seq<real>, n: nat, i: nat, j: nat, sqrt: real -> real)
    requires |x| == |y| > 0 && IsSqrt(sqrt) && !IsConstant(x) && !IsConstant(y)
    ensures IsCorrelation(x, y, Dot(Direction(x, n, i, sqrt), Direction(y, n, j, sqrt)))
    ensures x == y ==> Dot(Direction(x, n, i, sqrt), Direction(y, n, j, sqrt)) == 1.0
  {
    hide Dot, IsPearson, IsConstant, Deviations, Inverse;
    var dx, dy := Deviations(x), Deviations(y);
    ConstantVariance(x);
    ConstantVariance(y);
    var vx, vy := Dot(dx, dx), Dot(dy, dy);
    var s, t := sqrt(vx), sqrt(vy);
    RootPositive(s, vx);
    RootPositive(t, vy);
    InverseOf(s);
    InverseOf(t);
    var u, v := Direction(x, n, i, sqrt), Direction(y, n, j, sqrt);
    assert u == Scale(dx, Inverse(s)) + Zeros(n) && v == Scale(dy, Inverse(t)) + Zeros(n);
    hide Direction;
    ScaledDot(dx, dy, n, Inverse(s), Inverse(t), Dot(u, v));
    NormalisedPearson(Dot(dx, dy), vx, vy, s, t, Inverse(s), Inverse(t), Dot(u, v));
    if x == y {
      NormalisedSelf(vx, s, Inverse(s), Dot(u, v));
    }
  }

  lemma ScaledDot(x: Vector, y: Vector, n: nat, p: real, q: real, r: real)
    requires |x| == |y| && r == Dot(Scale(x, p) + Zeros(n), Scale(y, q) + Zeros(n))
    ensures r == q * (p * Dot(x, y))
  {
    hide Dot;
    DotConcat(Scale(x, p), Zeros(n), Scale(y, q), Zeros(n));
    DotZeros(Zeros(n));
    DotScaleRight(Scale(x, p), y, q);
    DotScaleLeft(x, y, p);
    ScaleTwice(q, p, Dot(x, y), Dot(Scale(x, p), y), r);
  }

  lemma ScaleTwice(q: real, p: real, c: real, d: real, r: real)
    requires d == p * c && r == q * d
    ensures r == q * (p * c)
  {
  }

  lemma ConstantDirections(x: seq<real>, y: seq<real>, n: nat, i: nat, j: nat, sqrt: real -> real)
    requires |x| == |y| > 0 && i < n && j < n && (IsConstant(x) || IsConstant(y))
    ensures i != j ==> Dot(Direction(x, n, i, sqrt), Direction(y, n, j, sqrt)) == 0.0
    ensures i == j && x == y ==> Dot(Direction(x, n, i, sqrt), Direction(y, n, j, sqrt)) == 1.0
  {
    hide Dot, IsConstant, Deviations;
    var u, v := Direction(x, n, i, sqrt), Direction(y, n, j, sqrt);
    var a, b, c, d := u[..|x|], u[|x|..], v[..|y|], v[|y|..];
    assert u == a + b && v == c + d;
    DotConcat(a, b, c, d);
    if IsConstant(x) {
      assert a == Zeros(|x|) && b == Unit(n, i);
      DotSymmetric(a, c);
      DotZeros(c);
    }
    if IsConstant(y) {
      assert c == Zeros(|y|) && d == Unit(n, j);
      DotZeros(a);
    }
    if IsConstant(x) && IsConstant(y) {
      DotUnits(n, b, j);
    } else if IsConstant(x) {
      assert d == Zeros(n);
      DotZeros(b);
    } else {
      assert b == Zeros(n);
      DotSymmetric(b, d);
      DotZeros(d);
    }
  }

  lemma NormalisedPearson(c: real, vx: real, vy: real, s: real, t: real, p: real, q: real, r: real)
    requires s * s == vx && t * t == vy && p > 0.0 && q > 0.0 && p * s == 1.0 && q * t == 1.0
    requires r == q * (p * c)
    ensures IsPearson(c, vx, vy, r)
  {
    UndoScaling(p, q, s, t, c, r);
    SquareOfProduct(r, s, t, vx, vy, c);
    ProductPositive(q, p, q * p);
    ProductNonneg(q * p, Square(c), r * c);
  }

  lemma UndoScaling(p: real, q: real, s: real, t: real, c: real, r: real)
    requires p * s == 1.0 && q * t == 1.0 && r == q * (p * c)
    ensures r * (s * t) == c
  {
    Ones(q * t, p * s, c);
    assert r * (s * t) == (q * t) * ((p * s) * c);
  }

  lemma Ones(a: real, b: real, c: real)
    requires a == 1.0 && b == 1.0
    ensures a * (b * c) == c
  {
  }

  lemma SquareOfProduct(r: real, s: real, t: real, vx: real, vy: real, c: real)
    requires s * s == vx && t * t == vy && r * (s * t) == c
    ensures r * r * (vx * vy) == c * c
  {
    calc {
      r * r * (vx * vy);
      r * r * ((s * s) * (t * t));
      (r * (s * t)) * (r * (s * t));
      c * c;
    }
  }

  lemma NormalisedSelf(v: real, s: real, p: real, r: real)
    requires s * s == v && p * s == 1.0 && r == p * (p * v)
    ensures r == 1.0
  {
    Ones(p * s, p * s, 1.0);
    assert r == (p * s) * ((p * s) * 1.0);
  }

  /** The rows and columns at the given indices. */
  function Sub(m: Matrix, idx: seq<nat>): (r: Matrix)
    requires forall k :: 0 <= k < |idx| ==> idx[k] < |m|
    requires forall i :: 0 <= i < |m| ==> |m[i]| == |m|
    ensures |r| == |idx| && forall a :: 0 <= a < |idx| ==> |r[a]| == |idx|
    ensures forall a, b :: 0 <= a < |idx| && 0 <= b < |idx| ==> r[a][b] == m[idx[a]][idx[b]]
  {
    seq(|idx|, a requires 0 <= a < |idx| => seq(|idx|, b requires 0 <= b < |idx| => m[idx[a]][idx[b]]))
  }

  /** Correlations measured from return series never give a negative portfolio variance, for
      any selection of the series, any weights and any number of series, constant ones included. */
  lemma MeasuredVarianceNonnegative(series: map<string, seq<real>>, length: nat, ids: seq<string>, m: Matrix,
                                    idx: seq<nat>, w: Vector, sqrt: real -> real)
    requires IsSqrt(sqrt) && Aligned(series, length) && |w| == |idx|
    requires (forall i :: 0 <= i < |ids| ==> ids[i] in series) && Measures(series, length, ids, m)
    requires forall k :: 0 <= k < |idx| ==> idx[k] < |m|
    ensures Quad(w, Sub(m, idx)) >= 0.0
  {
    hide Dot, Direction, IsCorrelation;
    var n := |ids|;
    var u := seq(n, i requires 0 <= i < n => Direction(series[ids[i]], n, i, sqrt));
    forall i, j | 0 <= i < n && 0 <= j < n ensures m[i][j] == Dot(u[i], u[j]) {
      var x, y := series[ids[i]], series[ids[j]];
      DirectionsMeasure(x, y, n, i, j, sqrt);
      if i != j {
        CorrelationUnique(x, y, m[i][j], Dot(u[i], u[j]));
      }
    }
    var v := seq(|idx|, k requires 0 <= k < |idx| => u[idx[k]]);
    GramNonnegative(w, v, length + n, Sub(m, idx));
  }
}
