/** Arithmetic over the reals shared by the statistical and the trading modules. */
module RealMath {

  function Abs(x: real): real {
    if x < 0.0 then -x else x
  }

  function Min(x: real, y: real): real {
    if y < x then y else x
  }

  function Max(x: real, y: real): real {
    if y > x then y else x
  }

  /** A square-root routine: exact on every non-negative input. */
  ghost predicate IsSqrt(sqrt: real -> real) {
    forall x :: x >= 0.0 ==> sqrt(x) >= 0.0 && sqrt(x) * sqrt(x) == x
  }

  function Pow(b: real, n: nat): real {
    if n == 0 then 1.0 else b * Pow(b, n - 1)
  }

  /** Sum in reading order, so that a prefix of the sequence gives a running total. */
  function Sum(v: seq<real>): real {
    if |v| == 0 then 0.0 else Sum(v[..|v| - 1]) + v[|v| - 1]
  }

  function AbsSum(v: seq<real>): (r: real)
    ensures r >= 0.0
  {
    if |v| == 0 then 0.0 else AbsSum(v[..|v| - 1]) + Abs(v[|v| - 1])
  }

  function Dot(x: seq<real>, y: seq<real>): real
    requires |x| == |y|
  {
    if |x| == 0 then 0.0
    else Dot(x[..|x| - 1], y[..|y| - 1]) + x[|x| - 1] * y[|y| - 1]
  }

  lemma DotPair(a: real, b: real, x: real, y: real)
    ensures Dot([a, b], [x, y]) == a * x + b * y
  {
    assert [a, b][..1] == [a] && [x, y][..1] == [x];
    assert Dot([a], [x]) == a * x;
  }

  lemma SumPair(a: real, b: real)
    ensures Sum([a, b]) == a + b
  {
    assert [a, b][..1] == [a];
    assert Sum([a]) == a;
  }

  function Mean(v: seq<real>): real
    requires |v| > 0
  {
    Sum(v) / |v| as real
  }

  /** The sequence with `m` subtracted from every entry. */
  function Shift(v: seq<real>, m: real): (r: seq<real>)
    ensures |r| == |v| && forall i :: 0 <= i < |v| ==> r[i] == v[i] - m
  {
    seq(|v|, i requires 0 <= i < |v| => v[i] - m)
  }

  function SampleVariance(v: seq<real>): real
    requires |v| >= 2
  {
    Dot(Shift(v, Mean(v)), Shift(v, Mean(v))) / (|v| - 1) as real
  }

  function Scale(v: seq<real>, k: real): (r: seq<real>)
    ensures |r| == |v| && forall i :: 0 <= i < |v| ==> r[i] == k * v[i]
  {
    seq(|v|, i requires 0 <= i < |v| => k * v[i])
  }

  lemma ScalePrefix(v: seq<real>, k: real, n: nat)
    requires n <= |v|
    ensures Scale(v, k)[..n] == Scale(v[..n], k)
  {
    forall i | 0 <= i < n ensures Scale(v, k)[..n][i] == Scale(v[..n], k)[i] {
      assert v[..n][i] == v[i];
    }
  }

  lemma SumStep(v: seq<real>, i: nat)
    requires i < |v|
    ensures Sum(v[..i + 1]) == Sum(v[..i]) + v[i]
  {
    assert v[..i + 1][..i] == v[..i];
  }

  lemma DotStep(x: seq<real>, y: seq<real>, i: nat)
    requires i < |x| == |y|
    ensures Dot(x[..i + 1], y[..i + 1]) == Dot(x[..i], y[..i]) + x[i] * y[i]
  {
    assert x[..i + 1][..i] == x[..i];
    assert y[..i + 1][..i] == y[..i];
  }

  lemma SumAppend(v: seq<real>, x: real)
    ensures Sum(v + [x]) == Sum(v) + x
  {
    assert (v + [x])[..|v|] == v;
  }

  lemma {:induction false} SumNonneg(v: seq<real>)
    requires forall i :: 0 <= i < |v| ==> v[i] >= 0.0
    ensures Sum(v) >= 0.0
  {
    if |v| > 0 {
      SumNonneg(v[..|v| - 1]);
    }
  }

  /** A sum of `n` entries in [lo, hi] lies in [n*lo, n*hi]. */
  lemma {:induction false} SumBounds(v: seq<real>, lo: real, hi: real)
    requires forall i :: 0 <= i < |v| ==> lo <= v[i] <= hi
    ensures |v| as real * lo <= Sum(v) <= |v| as real * hi
  {
    if |v| > 0 {
      var n := (|v| - 1) as real;
      SumBounds(v[..|v| - 1], lo, hi);
      assert |v| as real * lo == n * lo + lo;
      assert |v| as real * hi == n * hi + hi;
    }
  }

  lemma MeanBounds(v: seq<real>, lo: real, hi: real)
    requires |v| > 0
    requires forall i :: 0 <= i < |v| ==> lo <= v[i] <= hi
    ensures lo <= Mean(v) <= hi
  {
    SumBounds(v, lo, hi);
    QuotientBounds(Sum(v), |v| as real, lo, hi);
  }

  lemma QuotientBounds(s: real, n: real, lo: real, hi: real)
    requires n > 0.0
    requires n * lo <= s <= n * hi
    ensures lo <= s / n <= hi
  {
    var q := s / n;
    assert q * n == s;
    if q < lo {
      MulStrict(q, lo, n);
    }
    if q > hi {
      MulStrict(hi, q, n);
    }
  }

  lemma MulStrict(a: real, b: real, n: real)
    requires a < b && n > 0.0
    ensures a * n < b * n
  {
    assert (b - a) * n > 0.0;
  }

  lemma MulMono(a: real, b: real, n: real)
    requires a <= b && n >= 0.0
    ensures a * n <= b * n
  {
    assert (b - a) * n >= 0.0;
  }

  lemma ProductPositive(a: real, b: real, p: real)
    requires a > 0.0 && b > 0.0 && p == a * b
    ensures p > 0.0
  {
  }

  lemma ProductNonneg(a: real, b: real, p: real)
    requires a >= 0.0 && b >= 0.0 && p == a * b
    ensures p >= 0.0
  {
  }

  lemma SquareSign(x: real, q: real)
    requires q == x * x
    ensures q >= 0.0
    ensures x != 0.0 ==> q > 0.0
  {
    if x > 0.0 {
      ProductPositive(x, x, q);
    } else if x < 0.0 {
      ProductPositive(-x, -x, q);
    }
  }

  function Square(x: real): (q: real)
    ensures q >= 0.0
    ensures x != 0.0 ==> q > 0.0
  {
    SquareSign(x, x * x);
    x * x
  }

  lemma MulAssoc(a: real, b: real, c: real)
    ensures a * (b * c) == a * b * c
  {
  }

  lemma MulRegroup(s: real, a: real, b: real, g: real, f: real)
    ensures (s * (a * b)) * (g * f) == ((s * a * g) * f) * b
  {
  }

  lemma DivCancel(x: real, b: real)
    requires b != 0.0
    ensures (x * b) / b == x
  {
  }

  /** The quotient is the only number that multiplies back to the numerator. */
  lemma DivUnique(y: real, x: real, q: real)
    requires x != 0.0 && q * x == y
    ensures y / x == q
  {
    assert (y / x) * x == y;
  }

  lemma SameProduct(x: real, y: real, t: real)
    requires t != 0.0 && x * t == y * t
    ensures x == y
  {
    DivCancel(x, t);
    DivCancel(y, t);
  }

  lemma RootPositive(root: real, p: real)
    requires root >= 0.0 && root * root == p && p > 0.0
    ensures root > 0.0
  {
    assert root != 0.0 || root * root == 0.0;
  }

  lemma PositiveQuotient(a: real, b: real)
    requires a > 0.0 && b > 0.0
    ensures a / b > 0.0
  {
    var q := a / b;
    assert q * b == a;
    if q <= 0.0 {
      MulMono(q, 0.0, b);
    }
  }

  lemma SquareNonneg(x: real)
    ensures x * x >= 0.0
  {
  }

  lemma SquareOrderUpper(p: real, q: real)
    requires p >= 0.0 && q * q <= p * p
    ensures q <= p
  {
    if q > p {
      assert (q - p) * (q + p) == q * q - p * p;
      ProductPositive(q - p, q + p, (q - p) * (q + p));
      assert false;
    }
  }

  /** Squares order the non-negative reals. */
  lemma SquareOrder(p: real, q: real)
    requires p >= 0.0 && q * q <= p * p
    ensures -p <= q <= p
  {
    SquareOrderUpper(p, q);
    assert (0.0 - q) * (0.0 - q) == q * q;
    SquareOrderUpper(p, -q);
  }

  lemma SquareMono(p: real, q: real)
    requires 0.0 <= p <= q
    ensures p * p <= q * q
  {
    MulMono(p, q, p);
    MulMono(p, q, q);
  }

  lemma GeometricMean(u: real, v: real, w: real)
    requires u >= 0.0 && v >= 0.0 && w * w <= 4.0 * (u * v)
    ensures w <= u + v
  {
    SquareNonneg(u - v);
    assert (u + v) * (u + v) == (u - v) * (u - v) + 4.0 * (u * v);
    SquareOrderUpper(u + v, w);
  }

  lemma RegroupSquares(p: real, q: real, a: real, b: real)
    ensures (p * (b * b)) * (q * (a * a)) == (p * q) * ((a * b) * (a * b))
  {
    var ab := a * b;
    calc {
      (p * (b * b)) * (q * (a * a));
      (p * q) * ((b * b) * (a * a));
      { assert (b * b) * (a * a) == ab * ab; }
      (p * q) * (ab * ab);
    }
  }

  lemma ExpandProduct(p: real, q: real, a: real, b: real)
    ensures (p + a * a) * (q + b * b) == p * q + p * (b * b) + q * (a * a) + (a * b) * (a * b)
  {
    assert (p + a * a) * (q + b * b) == p * (q + b * b) + (a * a) * (q + b * b);
    assert (a * a) * (b * b) == (a * b) * (a * b);
  }

  lemma ExpandSquare(r: real, m: real)
    ensures (r + m) * (r + m) == r * r + 2.0 * (r * m) + m * m
  {
  }

  /** The mixed term of the Cauchy-Schwarz step is at most the two outer terms. */
  lemma CauchyMixed(xx: real, yy: real, xy: real, a: real, b: real)
    requires xx >= 0.0 && yy >= 0.0 && xy * xy <= xx * yy
    ensures 2.0 * (xy * (a * b)) <= xx * (b * b) + yy * (a * a)
  {
    var u, v, ab := xx * (b * b), yy * (a * a), a * b;
    var w := 2.0 * (xy * ab);
    RegroupSquares(xx, yy, a, b);
    SquareNonneg(ab);
    MulMono(xy * xy, xx * yy, ab * ab);
    assert w * w == 4.0 * ((xy * xy) * (ab * ab));
    SquareNonneg(a);
    SquareNonneg(b);
    GeometricMean(u, v, w);
  }

  /** One step of the Cauchy-Schwarz induction. */
  lemma CauchyStep(xx: real, yy: real, xy: real, a: real, b: real, xx': real, yy': real, xy': real)
    requires xx >= 0.0 && yy >= 0.0 && xy * xy <= xx * yy
    requires xx' == xx + a * a && yy' == yy + b * b && xy' == xy + a * b
    ensures xy' * xy' <= xx' * yy'
  {
    CauchyMixed(xx, yy, xy, a, b);
    ExpandProduct(xx, yy, a, b);
    ExpandSquare(xy, a * b);
  }

  lemma {:induction false} DotLast(x: seq<real>, y: seq<real>)
    requires |x| == |y| > 0
    ensures Dot(x, y) == Dot(x[..|x| - 1], y[..|y| - 1]) + x[|x| - 1] * y[|y| - 1]
  {
  }

  lemma {:induction false} CauchySchwarz(x: seq<real>, y: seq<real>)
    requires |x| == |y|
    ensures Dot(x, x) >= 0.0 && Dot(y, y) >= 0.0
    ensures Dot(x, y) * Dot(x, y) <= Dot(x, x) * Dot(y, y)
  {
    if |x| > 0 {
      hide Dot;
      var n := |x| - 1;
      var x', y' := x[..n], y[..n];
      CauchySchwarz(x', y');
      DotLast(x, x);
      DotLast(y, y);
      DotLast(x, y);
      SquareNonneg(x[n]);
      SquareNonneg(y[n]);
      CauchyStep(Dot(x', x'), Dot(y', y'), Dot(x', y'), x[n], y[n], Dot(x, x), Dot(y, y), Dot(x, y));
    }
  }

  /** A sum of squares vanishes only on the zero vector. */
  lemma {:induction false} DotZero(x: seq<real>)
    ensures Dot(x, x) >= 0.0
    ensures (exists i :: 0 <= i < |x| && x[i] != 0.0) <==> Dot(x, x) > 0.0
  {
    if |x| > 0 {
      var n := |x| - 1;
      DotZero(x[..n]);
      assert Dot(x, x) == Dot(x[..n], x[..n]) + Square(x[n]);
      assert forall i :: 0 <= i < n ==> x[..n][i] == x[i];
      if exists i :: 0 <= i < |x| && x[i] != 0.0 {
        var i :| 0 <= i < |x| && x[i] != 0.0;
        assert i < n ==> x[..n][i] != 0.0;
      }
    }
  }

  lemma {:induction false} DotScaleRight(x: seq<real>, y: seq<real>, k: real)
    requires |x| == |y|
    ensures Dot(x, Scale(y, k)) == k * Dot(x, y)
  {
    if |x| > 0 {
      var n := |x| - 1;
      DotScaleRight(x[..n], y[..n], k);
      ScalePrefix(y, k, n);
      assert x[n] * (k * y[n]) == k * (x[n] * y[n]);
    }
  }

  lemma {:induction false} DotScaleLeft(x: seq<real>, y: seq<real>, k: real)
    requires |x| == |y|
    ensures Dot(Scale(x, k), y) == k * Dot(x, y)
  {
    if |x| > 0 {
      var n := |x| - 1;
      DotScaleLeft(x[..n], y[..n], k);
      ScalePrefix(x, k, n);
      assert (k * x[n]) * y[n] == k * (x[n] * y[n]);
    }
  }

  lemma {:induction false} DotSymmetric(x: seq<real>, y: seq<real>)
    requires |x| == |y|
    ensures Dot(x, y) == Dot(y, x)
  {
    if |x| > 0 {
      DotSymmetric(x[..|x| - 1], y[..|y| - 1]);
    }
  }

  lemma {:induction false} SumScale(v: seq<real>, k: real)
    ensures Sum(Scale(v, k)) == k * Sum(v)
  {
    if |v| > 0 {
      var n := |v| - 1;
      SumScale(v[..n], k);
      ScalePrefix(v, k, n);
    }
  }

  /** The square of a sum of n terms is at most n times the sum of the squares. */
  lemma {:induction false} SumSquaredBound(v: seq<real>)
    ensures Sum(v) * Sum(v) <= |v| as real * Dot(v, v)
  {
    var ones := seq(|v|, _ => 1.0);
    DotOnes(v, ones);
    DotOnes(ones, ones);
    SumBounds(ones, 1.0, 1.0);
    CauchySchwarz(v, ones);
  }

  lemma {:induction false} DotOnes(v: seq<real>, ones: seq<real>)
    requires |ones| == |v| && forall i :: 0 <= i < |v| ==> ones[i] == 1.0
    ensures Dot(v, ones) == Sum(v)
  {
    if |v| > 0 {
      DotOnes(v[..|v| - 1], ones[..|v| - 1]);
    }
  }

  lemma {:induction false} PowPositive(b: real, n: nat)
    requires b > 0.0
    ensures Pow(b, n) > 0.0
  {
    if n > 0 {
      PowPositive(b, n - 1);
    }
  }

  lemma {:induction false} PowNonzero(b: real, n: nat)
    requires b != 0.0
    ensures Pow(b, n) != 0.0
  {
    if n > 0 {
      PowNonzero(b, n - 1);
    }
  }

  lemma {:induction false} PowAdd(b: real, m: nat, n: nat)
    ensures Pow(b, m + n) == Pow(b, m) * Pow(b, n)
  {
    if m > 0 {
      PowAdd(b, m - 1, n);
    }
  }

  lemma PowStrictStep(b: real, c: real, p: real, q: real, p': real, q': real)
    requires 0.0 <= b < c && 0.0 <= p <= q && q > 0.0
    requires p' == b * p && q' == c * q
    ensures 0.0 <= p' < q'
  {
    MulMono(p, q, b);
    MulStrict(b, c, q);
  }

  /** Powers with a positive exponent are strictly increasing in the base. */
  lemma {:induction false} PowStrict(b: real, c: real, n: nat)
    requires 0.0 <= b < c
    ensures n > 0 ==> Pow(b, n) < Pow(c, n)
    ensures 0.0 <= Pow(b, n) <= Pow(c, n)
  {
    if n > 0 {
      PowStrict(b, c, n - 1);
      PowPositive(c, n - 1);
      PowStrictStep(b, c, Pow(b, n - 1), Pow(c, n - 1), Pow(b, n), Pow(c, n));
    }
  }

  /** Comparing a square root with a positive number needs only squares. */
  lemma SqrtAbove(root: real, x: real, t: real)
    requires root >= 0.0 && root * root == x && t > 0.0
    ensures root > t <==> x > t * t
  {
    if root > t {
      MulStrict(t, root, t);
      MulStrict(t, root, root);
    } else {
      SquareMono(root, t);
    }
  }

  lemma RootIs(sqrt: real -> real, v: real, root: real)
    requires IsSqrt(sqrt) && root >= 0.0 && root * root == v
    ensures sqrt(v) == root
  {
    SquareNonneg(root);
    SquareOrder(root, sqrt(v));
    SquareOrder(sqrt(v), root);
  }
}
