/** The diagonal-target shrinkage covariance estimator `covdiag` (Ledoit and Wolf,
    2004): a sample covariance blended with its own diagonal by a data-driven
    intensity clipped to [0, 1]. Only +, -, * and / are involved. */
module Shrinkage {
  import opened Numeric
  import opened Outcomes

  /** Products of paired deviations from the two means. */
  function Deviations(a: seq<real>, b: seq<real>): (r: seq<real>)
    requires |a| == |b| > 0
    ensures |r| == |a|
  {
    seq(|a|, k requires 0 <= k < |a| => (a[k] - Mean(a)) * (b[k] - Mean(b)))
  }

  /** Covariance of two equally long samples with divisor t (numpy's bias=True). */
  function Covariance(a: seq<real>, b: seq<real>): real
    requires |a| == |b| > 0
  {
    Mean(Deviations(a, b))
  }

  /** Variance with divisor t. */
  function Variance(a: seq<real>): real
    requires |a| > 0
  {
    Mean(Deviations(a, a))
  }

  /** The matrix of covariances of every pair of columns of x. */
  function Covariances(x: Matrix, n: nat): (c: Matrix)
    requires IsMatrix(x, |x|, n) && |x| > 0
    ensures IsMatrix(c, n, n)
  {
    seq(n, i requires 0 <= i < n => seq(n, j requires 0 <= j < n => Covariance(Column(x, i), Column(x, j))))
  }

  /** Row by row products of columns i and j. */
  function ColumnProducts(x: Matrix, n: nat, i: nat, j: nat): (r: seq<real>)
    requires IsMatrix(x, |x|, n) && i < n && j < n
    ensures |r| == |x|
  {
    seq(|x|, k requires 0 <= k < |x| => x[k][i] * x[k][j])
  }

  /** x^T x: the matrix of column inner products. */
  function Gram(x: Matrix, n: nat): (g: Matrix)
    requires IsMatrix(x, |x|, n)
    ensures IsMatrix(g, n, n)
  {
    seq(n, i requires 0 <= i < n => seq(n, j requires 0 <= j < n => Sum(ColumnProducts(x, n, i, j))))
  }

  /** np.cov(x, rowvar=False, bias=True): numpy demeans again and divides by t. */
  function SampleCov(x: Matrix, n: nat): (s: Matrix)
    requires IsMatrix(x, |x|, n) && |x| > 0
    ensures IsMatrix(s, n, n)
  {
    var g := Gram(Demean(x, n), n);
    seq(n, i requires 0 <= i < n => seq(n, j requires 0 <= j < n => g[i][j] / (|x| as real)))
  }

  /** The shrinkage target: the diagonal of the sample covariance, zero elsewhere. */
  function Prior(s: Matrix, n: nat): (p: Matrix)
    requires IsMatrix(s, n, n)
    ensures IsMatrix(p, n, n)
  {
    seq(n, i requires 0 <= i < n => seq(n, j requires 0 <= j < n => if i == j then s[i][i] else 0.0))
  }

  /** Entrywise square (`**2`). */
  function Squares(m: Matrix): (r: Matrix)
    ensures |r| == |m| && forall i :: 0 <= i < |m| ==> |r[i]| == |m[i]|
  {
    seq(|m|, i requires 0 <= i < |m| => seq(|m[i]|, j requires 0 <= j < |m[i]| => Square(m[i][j])))
  }

  /** sample - prior. */
  function OffDiagonal(s: Matrix, n: nat): (r: Matrix)
    requires IsMatrix(s, n, n)
    ensures IsMatrix(r, n, n)
  {
    var p := Prior(s, n);
    seq(n, i requires 0 <= i < n => seq(n, j requires 0 <= j < n => s[i][j] - p[i][j]))
  }

  /** d = 1/n * ||sample - prior||_F^2; the norm is squared, so no square root. */
  function DParam(s: Matrix, n: nat): real
    requires IsMatrix(s, n, n) && n > 0
  {
    1.0 / (n as real) * SumAll(Squares(OffDiagonal(s, n)))
  }

  /** r2 = 1/n/t^2 * sum(y^T y) - 1/n/t * sum(sample^2), with y the squared demeaned data. */
  function R2Param(xc: Matrix, s: Matrix, n: nat): real
    requires IsMatrix(xc, |xc|, n) && |xc| > 0 && n > 0 && IsMatrix(s, n, n)
  {
    var t := |xc| as real;
    1.0 / (n as real) / (t * t) * SumAll(Gram(Squares(xc), n))
      - 1.0 / (n as real) / t * SumAll(Squares(s))
  }

  /** max(0, min(1, r2/d)) with Python's builtin min and max. When d == 0 numpy
      yields +inf (r2 > 0), nan (r2 == 0) or -inf (r2 < 0); `min(1, v)` keeps 1
      unless v < 1 and `max(0, w)` keeps 0 unless w > 0, so the intensity is 1
      for r2 >= 0 and 0 for r2 < 0. */
  function Clip(r2: real, d: real): (a: real)
    ensures 0.0 <= a <= 1.0
    ensures d != 0.0 && 0.0 <= r2 / d <= 1.0 ==> a == r2 / d
    ensures d != 0.0 && r2 / d > 1.0 ==> a == 1.0
    ensures d != 0.0 && r2 / d < 0.0 ==> a == 0.0
    ensures d == 0.0 ==> (a == 1.0 <==> r2 >= 0.0)
    ensures d == 0.0 && r2 < 0.0 ==> a == 0.0
  {
    if d != 0.0 then
      var v := r2 / d;
      var w := if v < 1.0 then v else 1.0;
      if w > 0.0 then w else 0.0
    else if r2 < 0.0 then 0.0
    else 1.0
  }

  /** The shrinkage intensity covdiag computes for the observations x (t rows, n columns). */
  function Intensity(x: Matrix, n: nat): (a: real)
    requires IsMatrix(x, |x|, n) && |x| > 0 && n > 0
    ensures 0.0 <= a <= 1.0
  {
    var xc := Demean(x, n);
    var sample := SampleCov(xc, n);
    Clip(R2Param(xc, sample, n), DParam(sample, n))
  }

  /** shrinkage * prior + (1 - shrinkage) * sample. */
  function Blend(p: Matrix, s: Matrix, a: real, n: nat): (r: Matrix)
    requires IsMatrix(p, n, n) && IsMatrix(s, n, n)
    ensures IsMatrix(r, n, n)
  {
    seq(n, i requires 0 <= i < n => seq(n, j requires 0 <= j < n => a * p[i][j] + (1.0 - a) * s[i][j]))
  }

  /** covdiag(x) for t observations (rows) of n variables (columns). With one row
      or one column np.cov returns a 0-d array and np.diag raises ValueError; with
      no columns `1/n`, and with no rows `1/n/t**2`, raises ZeroDivisionError. */
  function CovDiag(x: Matrix, n: nat): (r: Result<Matrix>)
    requires IsMatrix(x, |x|, n)
    ensures r.Ok? <==> |x| >= 2 && n >= 2
    ensures r.Err? ==> (r.error == NotAMatrix <==> |x| == 1 || n == 1)
    ensures r.Err? ==> (r.error == ZeroDivision <==> |x| != 1 && n != 1)
    ensures r.Ok? ==> IsMatrix(r.value, n, n)
  {
    if |x| == 1 || n == 1 then Err(NotAMatrix)
    else if |x| == 0 || n == 0 then Err(ZeroDivision)
    else
      var xc := Demean(x, n);
      var sample := SampleCov(xc, n);
      var prior := Prior(sample, n);
      var a := Clip(R2Param(xc, sample, n), DParam(sample, n));
      Ok(Blend(prior, sample, a, n))
  }

  /** The estimate is the blend of the sample covariance and its prior by the intensity. */
  lemma CovDiagIsBlend(x: Matrix, n: nat)
    requires IsMatrix(x, |x|, n) && |x| >= 2 && n >= 2
    ensures CovDiag(x, n).value == Blend(Prior(SampleCov(Demean(x, n), n), n), SampleCov(Demean(x, n), n), Intensity(x, n), n)
  {
  }

  /** The diagonal of the estimate keeps the sample variances of the columns. */
  lemma CovDiagDiagonal(x: Matrix, n: nat)
    requires IsMatrix(x, |x|, n) && |x| >= 2 && n >= 2
    ensures forall i :: 0 <= i < n ==> CovDiag(x, n).value[i][i] == Variance(Column(x, i))
  {
    CovDiagIsBlend(x, n);
    SampleCovEntries(x, n);
    BlendDiagonal(Covariances(x, n), n, Intensity(x, n));
  }

  /** covdiag returns shrinkage * diag(C) + (1 - shrinkage) * C for the
      covariance matrix C of the columns. */
  lemma CovDiagFormula(x: Matrix, n: nat)
    requires IsMatrix(x, |x|, n) && |x| >= 2 && n >= 2
    ensures CovDiag(x, n) == Ok(Blend(Prior(Covariances(x, n), n), Covariances(x, n), Intensity(x, n), n))
  {
    CovDiagIsBlend(x, n);
    SampleCovEntries(x, n);
  }

  /** The estimate is symmetric. */
  lemma CovDiagSymmetric(x: Matrix, n: nat)
    requires IsMatrix(x, |x|, n) && |x| >= 2 && n >= 2
    ensures forall i, j :: 0 <= i < n && 0 <= j < n ==> CovDiag(x, n).value[i][j] == CovDiag(x, n).value[j][i]
  {
    CovDiagIsBlend(x, n);
    SampleCovSymmetric(x, n);
    BlendSymmetric(SampleCov(Demean(x, n), n), n, Intensity(x, n));
  }

  // ---------------------------------------------------------------------------
  // Lemmas

  /** The sample covariance of the demeaned data is the matrix of covariances of
      the input columns. */
  lemma SampleCovEntries(x: Matrix, n: nat)
    requires IsMatrix(x, |x|, n) && |x| > 0
    ensures SampleCov(Demean(x, n), n) == Covariances(x, n)
  {
    forall i, j | 0 <= i < n && 0 <= j < n
      ensures SampleCov(Demean(x, n), n)[i][j] == Covariances(x, n)[i][j]
    {
      SampleCovEntry(x, n, i, j);
    }
    MatrixExt(SampleCov(Demean(x, n), n), Covariances(x, n), n);
  }

  /** One entry of SampleCovEntries: the products of the twice-demeaned columns
      are the products of the deviations of the raw columns. */
  lemma SampleCovEntry(x: Matrix, n: nat, i: nat, j: nat)
    requires IsMatrix(x, |x|, n) && |x| > 0 && i < n && j < n
    ensures SampleCov(Demean(x, n), n)[i][j] == Covariance(Column(x, i), Column(x, j))
  {
    var d := Demean(x, n);
    DemeanIdempotent(x, n);
    var a, b := Column(x, i), Column(x, j);
    var p := ColumnProducts(d, n, i, j);
    forall k | 0 <= k < |x| ensures p[k] == Deviations(a, b)[k] {
      assert d[k][i] == a[k] - Mean(a);
      assert d[k][j] == b[k] - Mean(b);
    }
    assert p == Deviations(a, b);
    assert Gram(Demean(d, n), n)[i][j] == Sum(p);
  }

  /** The sample covariance is symmetric. */
  lemma SampleCovSymmetric(x: Matrix, n: nat)
    requires IsMatrix(x, |x|, n) && |x| > 0
    ensures forall i, j :: 0 <= i < n && 0 <= j < n ==>
      SampleCov(Demean(x, n), n)[i][j] == SampleCov(Demean(x, n), n)[j][i]
  {
    var d := Demean(x, n);
    forall i, j | 0 <= i < n && 0 <= j < n ensures SampleCov(d, n)[i][j] == SampleCov(d, n)[j][i] {
      var dd := Demean(d, n);
      assert ColumnProducts(dd, n, i, j) == ColumnProducts(dd, n, j, i);
    }
  }

  /** Blending a matrix with its own diagonal keeps the diagonal. */
  lemma BlendDiagonal(s: Matrix, n: nat, a: real)
    requires IsMatrix(s, n, n)
    ensures forall i :: 0 <= i < n ==> Blend(Prior(s, n), s, a, n)[i][i] == s[i][i]
  {
    forall i | 0 <= i < n ensures Blend(Prior(s, n), s, a, n)[i][i] == s[i][i] {
      MixSame(a, s[i][i]);
    }
  }

  /** Off the diagonal the prior is zero, so only (1 - a) times the sample remains. */
  lemma BlendOffDiagonal(s: Matrix, n: nat, a: real)
    requires IsMatrix(s, n, n)
    ensures forall i, j :: 0 <= i < n && 0 <= j < n && i != j ==>
      Blend(Prior(s, n), s, a, n)[i][j] == (1.0 - a) * s[i][j]
  {
  }

  /** The blend of a symmetric matrix is symmetric. */
  lemma BlendSymmetric(s: Matrix, n: nat, a: real)
    requires IsMatrix(s, n, n)
    requires forall i, j :: 0 <= i < n && 0 <= j < n ==> s[i][j] == s[j][i]
    ensures forall i, j :: 0 <= i < n && 0 <= j < n ==>
      Blend(Prior(s, n), s, a, n)[i][j] == Blend(Prior(s, n), s, a, n)[j][i]
  {
  }

  lemma MixSame(a: real, v: real)
    ensures a * v + (1.0 - a) * v == v
  {
  }

  function Square(v: real): real
  {
    v * v
  }

  /** The squared off-diagonal part is non-negative and vanishes exactly on the
      diagonal and wherever the sample covariance is zero. */
  lemma OffDiagonalSquares(s: Matrix, n: nat)
    requires IsMatrix(s, n, n)
    ensures forall i, j :: 0 <= i < n && 0 <= j < n ==> Squares(OffDiagonal(s, n))[i][j] >= 0.0
    ensures forall i, j :: 0 <= i < n && 0 <= j < n ==>
      (Squares(OffDiagonal(s, n))[i][j] == 0.0 <==> i == j || s[i][j] == 0.0)
  {
    var o := OffDiagonal(s, n);
    forall i, j | 0 <= i < n && 0 <= j < n
      ensures Squares(o)[i][j] >= 0.0 && (Squares(o)[i][j] == 0.0 <==> i == j || s[i][j] == 0.0)
    {
      assert o[i][j] == if i == j then 0.0 else s[i][j];
      SquareZero(o[i][j]);
    }
  }

  lemma SquareZero(v: real)
    ensures Square(v) >= 0.0 && (Square(v) == 0.0 <==> v == 0.0)
  {
    if v > 0.0 {
      PositiveProduct(v, v, Square(v));
    } else if v < 0.0 {
      NegativeProduct(v, v, Square(v));
    }
  }

  lemma PositiveProduct(a: real, b: real, p: real)
    requires a > 0.0 && b > 0.0 && p == a * b
    ensures p > 0.0
  {
  }

  lemma NegativeProduct(a: real, b: real, p: real)
    requires a < 0.0 && b < 0.0 && p == a * b
    ensures p > 0.0
  {
    assert p == (-a) * (-b);
  }

  lemma ScaleZero(c: real, v: real)
    requires c > 0.0
    ensures c * v == 0.0 <==> v == 0.0
  {
  }

  /** d vanishes exactly when the sample covariance has no off-diagonal mass. */
  lemma DZeroIffDiagonal(s: Matrix, n: nat)
    requires IsMatrix(s, n, n) && n > 0
    ensures DParam(s, n) == 0.0 <==> forall i, j :: 0 <= i < n && 0 <= j < n && i != j ==> s[i][j] == 0.0
  {
    var sq := Squares(OffDiagonal(s, n));
    OffDiagonalSquares(s, n);
    SumAllZeroNonNeg(sq);
    ScaleZero(1.0 / (n as real), SumAll(sq));
    if SumAll(sq) == 0.0 {
      forall i, j | 0 <= i < n && 0 <= j < n && i != j ensures s[i][j] == 0.0 {
        assert sq[i][j] == 0.0;
      }
    } else {
      var i, j :| 0 <= i < |sq| && 0 <= j < |sq[i]| && sq[i][j] != 0.0;
      assert i != j && s[i][j] != 0.0;
    }
  }

  /** A matrix with d == 0 is its own prior. */
  lemma DegenerateIsDiagonal(s: Matrix, n: nat)
    requires IsMatrix(s, n, n) && n > 0
    requires DParam(s, n) == 0.0
    ensures Prior(s, n) == s
  {
    DZeroIffDiagonal(s, n);
    forall i | 0 <= i < n ensures Prior(s, n)[i] == s[i] {
      assert forall j :: 0 <= j < n ==> Prior(s, n)[i][j] == s[i][j];
    }
  }

  /** Blending a matrix with itself returns it, whatever the weight. */
  lemma BlendSame(s: Matrix, n: nat, a: real)
    requires IsMatrix(s, n, n)
    ensures Blend(s, s, a, n) == s
  {
    forall i | 0 <= i < n ensures Blend(s, s, a, n)[i] == s[i] {
      forall j | 0 <= j < n ensures Blend(s, s, a, n)[i][j] == s[i][j] {
        MixSame(a, s[i][j]);
      }
    }
  }

  /** When d == 0 the sample covariance equals its own prior, so every intensity
      gives the same estimate: covdiag returns the sample covariance. */
  lemma DegenerateSample(x: Matrix, n: nat)
    requires IsMatrix(x, |x|, n) && |x| >= 2 && n >= 2
    requires DParam(SampleCov(Demean(x, n), n), n) == 0.0
    ensures CovDiag(x, n) == Ok(SampleCov(Demean(x, n), n))
  {
    var s := SampleCov(Demean(x, n), n);
    CovDiagIsBlend(x, n);
    DegenerateIsDiagonal(s, n);
    BlendSame(s, n, Intensity(x, n));
  }

  // ---------------------------------------------------------------------------
  // Positive semi-definiteness

  /** The inner product of two equally long vectors. */
  function Dot(a: seq<real>, b: seq<real>): real
    requires |a| == |b|
  {
    Sum(Products(a, b))
  }

  /** The quadratic form v^T m v. */
  function Quad(v: seq<real>, m: Matrix, n: nat): real
    requires IsMatrix(m, n, n) && |v| == n
  {
    Sum(QuadTerms(v, m, n))
  }

  /** m is positive semi-definite: v^T m v >= 0 for every vector v. */
  ghost predicate PositiveSemiDefinite(m: Matrix, n: nat)
    requires IsMatrix(m, n, n)
  {
    forall v: seq<real> :: |v| == n ==> Quad(v, m, n) >= 0.0
  }

  /** The outer product r r^T. */
  function Outer(r: seq<real>, n: nat): (m: Matrix)
    requires |r| == n
    ensures IsMatrix(m, n, n)
  {
    seq(n, i requires 0 <= i < n => seq(n, j requires 0 <= j < n => r[i] * r[j]))
  }

  lemma MulDistributesLeft(w: real, p: real, q: real, x: real, y: real)
    ensures w * (x * p + y * q) == x * (w * p) + y * (w * q)
  {
  }

  lemma MulDistributesRight(w: real, p: real, q: real, x: real, y: real)
    ensures (x * p + y * q) * w == x * (p * w) + y * (q * w)
  {
  }

  /** The inner product with v is linear in the other vector. */
  lemma DotCombine(v: seq<real>, a: seq<real>, b: seq<real>, c: seq<real>, x: real, y: real)
    requires |a| == |b| == |c| == |v|
    requires forall j :: 0 <= j < |c| ==> c[j] == x * a[j] + y * b[j]
    ensures Dot(c, v) == x * Dot(a, v) + y * Dot(b, v)
  {
    var pa, pb, pc := Products(a, v), Products(b, v), Products(c, v);
    forall j | 0 <= j < |c| ensures pc[j] == x * pa[j] + y * pb[j] {
      MulDistributesRight(v[j], a[j], b[j], x, y);
    }
    SumLinear(pc, pa, pb, x, y);
  }

  /** One term v[i] * (m[i] . v) of a quadratic form. */
  function QuadTerms(v: seq<real>, m: Matrix, n: nat): (t: seq<real>)
    requires IsMatrix(m, n, n) && |v| == n
    ensures |t| == n
  {
    seq(n, i requires 0 <= i < n => v[i] * Dot(m[i], v))
  }

  /** The matrix x * a + y * b. */
  function Combine(a: Matrix, b: Matrix, x: real, y: real, n: nat): (c: Matrix)
    requires IsMatrix(a, n, n) && IsMatrix(b, n, n)
    ensures IsMatrix(c, n, n)
  {
    seq(n, i requires 0 <= i < n => seq(n, j requires 0 <= j < n => x * a[i][j] + y * b[i][j]))
  }

  /** The vector x * a + y * b. */
  function LinComb(a: seq<real>, b: seq<real>, x: real, y: real): (c: seq<real>)
    requires |a| == |b|
    ensures |c| == |a|
  {
    seq(|a|, i requires 0 <= i < |a| => x * a[i] + y * b[i])
  }

  lemma SumLinComb(a: seq<real>, b: seq<real>, x: real, y: real)
    requires |a| == |b|
    ensures Sum(LinComb(a, b, x, y)) == x * Sum(a) + y * Sum(b)
  {
    SumLinear(LinComb(a, b, x, y), a, b, x, y);
  }

  /** Row i's term of the quadratic form is linear in the matrix row. */
  lemma QuadTermCombine(v: seq<real>, a: Matrix, b: Matrix, n: nat, x: real, y: real, i: nat)
    requires IsMatrix(a, n, n) && IsMatrix(b, n, n) && |v| == n && i < n
    ensures QuadTerms(v, Combine(a, b, x, y, n), n)[i] == x * QuadTerms(v, a, n)[i] + y * QuadTerms(v, b, n)[i]
  {
    DotCombine(v, a[i], b[i], Combine(a, b, x, y, n)[i], x, y);
    MulDistributesLeft(v[i], Dot(a[i], v), Dot(b[i], v), x, y);
  }

  /** The terms of the quadratic form are linear in the matrix. */
  lemma QuadTermsCombine(v: seq<real>, a: Matrix, b: Matrix, n: nat, x: real, y: real)
    requires IsMatrix(a, n, n) && IsMatrix(b, n, n) && |v| == n
    ensures QuadTerms(v, Combine(a, b, x, y, n), n) == LinComb(QuadTerms(v, a, n), QuadTerms(v, b, n), x, y)
  {
    forall i | 0 <= i < n
      ensures QuadTerms(v, Combine(a, b, x, y, n), n)[i] == LinComb(QuadTerms(v, a, n), QuadTerms(v, b, n), x, y)[i]
    {
      QuadTermCombine(v, a, b, n, x, y, i);
    }
  }

  /** The quadratic form is linear in the matrix. */
  lemma QuadCombine(v: seq<real>, a: Matrix, b: Matrix, n: nat, x: real, y: real)
    requires IsMatrix(a, n, n) && IsMatrix(b, n, n) && |v| == n
    ensures Quad(v, Combine(a, b, x, y, n), n) == x * Quad(v, a, n) + y * Quad(v, b, n)
  {
    QuadTermsCombine(v, a, b, n, x, y);
    SumLinComb(QuadTerms(v, a, n), QuadTerms(v, b, n), x, y);
  }

  /** Two matrices that agree entry by entry are equal. */
  lemma MatrixExt(m: Matrix, w: Matrix, n: nat)
    requires IsMatrix(m, n, n) && IsMatrix(w, n, n)
    requires forall i, j :: 0 <= i < n && 0 <= j < n ==> m[i][j] == w[i][j]
    ensures m == w
  {
    forall i | 0 <= i < n ensures m[i] == w[i] {
      assert forall j :: 0 <= j < n ==> m[i][j] == w[i][j];
    }
  }

  /** A matrix of zeros has the zero quadratic form. */
  lemma QuadZero(v: seq<real>, z: Matrix, n: nat)
    requires IsMatrix(z, n, n) && |v| == n
    requires forall i, j :: 0 <= i < n && 0 <= j < n ==> z[i][j] == 0.0
    ensures Quad(v, z, n) == 0.0
  {
    MatrixExt(z, Combine(z, z, 0.0, 0.0, n), n);
    QuadCombine(v, z, z, n, 0.0, 0.0);
  }

  lemma SquareOfProduct(d: real)
    ensures d * d >= 0.0
  {
    SquareZero(d);
  }

  lemma Regroup(vi: real, ri: real, d: real)
    ensures vi * (ri * d) == d * (ri * vi)
  {
  }

  lemma Reassociate(a: real, b: real, c: real)
    ensures (a * b) * c == a * (b * c) + 0.0 * (b * c)
  {
  }

  /** Row i of r r^T times v is r[i] times v . r. */
  lemma OuterRowDot(v: seq<real>, r: seq<real>, n: nat, i: nat)
    requires |v| == n && |r| == n && i < n
    ensures Dot(Outer(r, n)[i], v) == r[i] * Dot(r, v)
  {
    var o := Outer(r, n);
    var rv := Products(r, v);
    var p := Products(o[i], v);
    forall j | 0 <= j < n ensures p[j] == LinComb(rv, rv, r[i], 0.0)[j] {
      Reassociate(r[i], r[j], v[j]);
    }
    assert p == LinComb(rv, rv, r[i], 0.0);
    SumLinComb(rv, rv, r[i], 0.0);
  }

  /** Row i's term of the quadratic form of r r^T is (v . r) * r[i] * v[i]. */
  lemma OuterTerm(v: seq<real>, r: seq<real>, n: nat, i: nat)
    requires |v| == n && |r| == n && i < n
    ensures QuadTerms(v, Outer(r, n), n)[i] == Dot(r, v) * Products(r, v)[i]
  {
    OuterRowDot(v, r, n, i);
    Regroup(v[i], r[i], Dot(r, v));
  }

  /** The quadratic form of r r^T is the square of v . r. */
  lemma QuadOuter(v: seq<real>, r: seq<real>, n: nat)
    requires |v| == n && |r| == n
    ensures Quad(v, Outer(r, n), n) == Dot(r, v) * Dot(r, v)
    ensures Quad(v, Outer(r, n), n) >= 0.0
  {
    var d := Dot(r, v);
    var terms := QuadTerms(v, Outer(r, n), n);
    forall i | 0 <= i < n ensures terms[i] == d * Products(r, v)[i] {
      OuterTerm(v, r, n, i);
    }
    SumScale(terms, Products(r, v), d);
    SquareZero(d);
  }

  /** x^T x is positive semi-definite: each row adds an outer product. */
  lemma {:induction false} GramPSD(y: Matrix, n: nat, v: seq<real>)
    requires IsMatrix(y, |y|, n) && |v| == n
    ensures Quad(v, Gram(y, n), n) >= 0.0
  {
    var g := Gram(y, n);
    if |y| == 0 {
      QuadZero(v, g, n);
    } else {
      var k := |y| - 1;
      var front, r := y[..k], y[k];
      assert IsMatrix(front, k, n);
      var g0 := Gram(front, n);
      var o := Outer(r, n);
      forall i, j | 0 <= i < n && 0 <= j < n ensures g[i][j] == Combine(g0, o, 1.0, 1.0, n)[i][j] {
        var cp := ColumnProducts(y, n, i, j);
        forall m | 0 <= m < k ensures cp[..k][m] == ColumnProducts(front, n, i, j)[m] {
          assert front[m] == y[m];
        }
        assert cp[..k] == ColumnProducts(front, n, i, j);
        assert g[i][j] == Sum(cp[..k]) + cp[k];
      }
      MatrixExt(g, Combine(g0, o, 1.0, 1.0, n), n);
      QuadCombine(v, g0, o, n, 1.0, 1.0);
      GramPSD(front, n, v);
      QuadOuter(v, r, n);
    }
  }

  /** The diagonal of x^T x holds sums of squares, so it is non-negative. */
  lemma GramDiagonal(y: Matrix, n: nat, i: nat)
    requires IsMatrix(y, |y|, n) && i < n
    ensures Gram(y, n)[i][i] >= 0.0
  {
    var p := ColumnProducts(y, n, i, i);
    forall k | 0 <= k < |y| ensures p[k] >= 0.0 {
      SquareZero(y[k][i]);
    }
    SumZeroNonNeg(p);
  }

  /** A non-negative multiple of a positive semi-definite matrix is one too. */
  lemma ScaledPSD(g: Matrix, m: Matrix, n: nat, c: real, v: seq<real>)
    requires IsMatrix(g, n, n) && IsMatrix(m, n, n) && |v| == n && c >= 0.0
    requires forall i, j :: 0 <= i < n && 0 <= j < n ==> m[i][j] == c * g[i][j]
    requires Quad(v, g, n) >= 0.0
    ensures Quad(v, m, n) >= 0.0
  {
    MatrixExt(m, Combine(g, g, c, 0.0, n), n);
    QuadCombine(v, g, g, n, c, 0.0);
    NonNegProduct(c, Quad(v, g, n));
  }

  /** The entries of np.cov are those of x^T x (of the demeaned data) over t. */
  lemma SampleCovScaled(x: Matrix, n: nat)
    requires IsMatrix(x, |x|, n) && |x| > 0
    ensures forall i, j :: 0 <= i < n && 0 <= j < n ==>
      SampleCov(x, n)[i][j] == (1.0 / (|x| as real)) * Gram(Demean(x, n), n)[i][j]
  {
    var t := |x| as real;
    var g := Gram(Demean(x, n), n);
    forall i, j | 0 <= i < n && 0 <= j < n ensures SampleCov(x, n)[i][j] == (1.0 / t) * g[i][j] {
      DivAsMul(g[i][j], t);
    }
  }

  lemma DivAsMul(a: real, t: real)
    requires t > 0.0
    ensures a / t == (1.0 / t) * a
  {
  }

  /** The sample covariance is positive semi-definite. */
  lemma SampleCovPSD(x: Matrix, n: nat, v: seq<real>)
    requires IsMatrix(x, |x|, n) && |x| > 0 && |v| == n
    ensures Quad(v, SampleCov(x, n), n) >= 0.0
  {
    SampleCovScaled(x, n);
    GramPSD(Demean(x, n), n, v);
    ScaledPSD(Gram(Demean(x, n), n), SampleCov(x, n), n, 1.0 / (|x| as real), v);
  }

  /** The variances on the diagonal of the sample covariance are non-negative. */
  lemma SampleCovVariances(x: Matrix, n: nat)
    requires IsMatrix(x, |x|, n) && |x| > 0
    ensures forall i :: 0 <= i < n ==> SampleCov(x, n)[i][i] >= 0.0
  {
    SampleCovScaled(x, n);
    var c := 1.0 / (|x| as real);
    var g := Gram(Demean(x, n), n);
    forall i | 0 <= i < n ensures SampleCov(x, n)[i][i] >= 0.0 {
      GramDiagonal(Demean(x, n), n, i);
      NonNegProduct(c, g[i][i]);
    }
  }

  /** A vector that is zero off index i sums to its entry at i. */
  lemma {:induction false} SumSingle(a: seq<real>, i: nat)
    requires i < |a|
    requires forall j :: 0 <= j < |a| && j != i ==> a[j] == 0.0
    ensures Sum(a) == a[i]
  {
    var k := |a| - 1;
    if i < k {
      SumSingle(a[..k], i);
    } else {
      SumConst(a[..k], 0.0);
    }
  }

  /** The diagonal prior of a matrix with a non-negative diagonal is positive semi-definite. */
  lemma PriorPSD(s: Matrix, n: nat, v: seq<real>)
    requires IsMatrix(s, n, n) && |v| == n
    requires forall i :: 0 <= i < n ==> s[i][i] >= 0.0
    ensures Quad(v, Prior(s, n), n) >= 0.0
  {
    var p := Prior(s, n);
    var terms := seq(n, i requires 0 <= i < n => v[i] * Dot(p[i], v));
    forall i | 0 <= i < n ensures terms[i] >= 0.0 {
      var row := Products(p[i], v);
      SumSingle(row, i);
      assert terms[i] == s[i][i] * (v[i] * v[i]);
      SquareZero(v[i]);
      NonNegProduct(s[i][i], v[i] * v[i]);
    }
    SumZeroNonNeg(terms);
  }

  /** A blend with weight in [0, 1] of two positive semi-definite forms is one too. */
  lemma BlendPSD(p: Matrix, s: Matrix, a: real, n: nat, v: seq<real>)
    requires IsMatrix(p, n, n) && IsMatrix(s, n, n) && |v| == n && 0.0 <= a <= 1.0
    requires Quad(v, p, n) >= 0.0 && Quad(v, s, n) >= 0.0
    ensures Quad(v, Blend(p, s, a, n), n) >= 0.0
  {
    MatrixExt(Blend(p, s, a, n), Combine(p, s, a, 1.0 - a, n), n);
    QuadCombine(v, p, s, n, a, 1.0 - a);
    NonNegProduct(a, Quad(v, p, n));
    NonNegProduct(1.0 - a, Quad(v, s, n));
  }

  /** covdiag's estimate is positive semi-definite: a convex blend of the
      positive semi-definite sample covariance and its non-negative diagonal. */
  lemma CovDiagPSD(x: Matrix, n: nat)
    requires IsMatrix(x, |x|, n) && |x| >= 2 && n >= 2
    ensures PositiveSemiDefinite(CovDiag(x, n).value, n)
  {
    var xc := Demean(x, n);
    var s := SampleCov(xc, n);
    var a := Intensity(x, n);
    CovDiagIsBlend(x, n);
    SampleCovVariances(xc, n);
    forall v: seq<real> | |v| == n ensures Quad(v, Blend(Prior(s, n), s, a, n), n) >= 0.0 {
      SampleCovPSD(xc, n, v);
      PriorPSD(s, n, v);
      BlendPSD(Prior(s, n), s, a, n, v);
    }
  }
}
