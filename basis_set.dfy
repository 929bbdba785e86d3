/** `basis_set_fun`: every bin template is replaced by the average of all bin
    templates weighted by a smooth kernel centred on that bin. The kernel `cosfun`
    ((0.5 + 0.5 cos(theta - mu)) ** basis_smooth) is a parameter `w`, known only to
    be non-negative and positive at its own centre for a non-negative power. */
module BasisSet {
  import opened Numeric

  /** temp_kernel for bin ci: cosfun(u_theta, u_theta[ci], smooth). */
  function Kernel(w: (real, real, int) -> real, u: seq<real>, ci: nat, smooth: int): (k: seq<real>)
    requires ci < |u|
    ensures |k| == |u|
  {
    seq(|u|, j requires 0 <= j < |u| => w(u[j], u[ci], smooth))
  }

  /** np.sum(theta_bins*temp_kernel, axis=0)/sum(temp_kernel): the kernel-weighted
      mean of the bin templates, feature by feature. */
  function Smoothed(templates: Matrix, f: nat, k: seq<real>): (r: seq<real>)
    requires IsMatrix(templates, |templates|, f) && |k| == |templates|
    requires Sum(k) != 0.0
    ensures |r| == f
  {
    seq(f, c requires 0 <= c < f => Sum(Products(k, Column(templates, c))) / Sum(k))
  }

  /** basis_smooth='default': one less than the number of bins. */
  function DefaultSmooth(bins: nat): int
  {
    bins - 1
  }

  /** The kernel properties the model relies on, for the non-negative powers the
      model uses (a negative power would divide by zero where the cosine is -1). */
  ghost predicate ValidKernel(w: (real, real, int) -> real)
  {
    (forall x, y, p :: p >= 0 ==> w(x, y, p) >= 0.0) && (forall x, p :: p >= 0 ==> w(x, x, p) > 0.0)
  }

  /** The weights of a kernel centred on a bin have a positive total. */
  lemma KernelTotal(w: (real, real, int) -> real, u: seq<real>, ci: nat, smooth: int)
    requires ValidKernel(w) && ci < |u| && smooth >= 0
    ensures Sum(Kernel(w, u, ci, smooth)) > 0.0
  {
    var k := Kernel(w, u, ci, smooth);
    forall j | 0 <= j < |k| ensures k[j] >= 0.0 {
      assert k[j] == w(u[j], u[ci], smooth);
      NonNegative(w, u[j], u[ci], smooth);
    }
    assert k[ci] == w(u[ci], u[ci], smooth);
    Positive(w, u[ci], smooth);
    SumAtLeastTerm(k, ci);
  }

  lemma NonNegative(w: (real, real, int) -> real, x: real, y: real, p: int)
    requires ValidKernel(w) && p >= 0
    ensures w(x, y, p) >= 0.0
  {
  }

  lemma Positive(w: (real, real, int) -> real, x: real, p: int)
    requires ValidKernel(w) && p >= 0
    ensures w(x, x, p) > 0.0
  {
  }

  /** The loop over bins, writing smooth_bins[ci] in place. */
  method BasisSetFun(templates: Matrix, f: nat, u: seq<real>, w: (real, real, int) -> real)
    returns (smooth: array<seq<real>>)
    requires IsMatrix(templates, |templates|, f) && |u| == |templates|
    requires ValidKernel(w)
    ensures fresh(smooth) && smooth.Length == |templates|
    ensures forall ci :: 0 <= ci < |templates| ==>
      Sum(Kernel(w, u, ci, DefaultSmooth(|templates|))) > 0.0 &&
      smooth[ci] == Smoothed(templates, f, Kernel(w, u, ci, DefaultSmooth(|templates|)))
  {
    var p := DefaultSmooth(|templates|);
    smooth := new seq<real>[|templates|](_ => seq(f, _ => 0.0));
    var ci := 0;
    while ci < |templates|
      invariant 0 <= ci <= |templates|
      invariant forall cj :: 0 <= cj < ci ==>
        Sum(Kernel(w, u, cj, p)) > 0.0 && smooth[cj] == Smoothed(templates, f, Kernel(w, u, cj, p))
    {
      var k := Kernel(w, u, ci, p);
      KernelTotal(w, u, ci, p);
      smooth[ci] := Smoothed(templates, f, k);
      ci := ci + 1;
    }
  }

  // ---------------------------------------------------------------------------
  // What smoothing preserves

  /** With non-negative weights of positive total, each smoothed entry is a convex
      combination of that feature across bins, so it stays within any bounds the
      templates share. */
  lemma SmoothedBounds(templates: Matrix, f: nat, k: seq<real>, lo: real, hi: real)
    requires IsMatrix(templates, |templates|, f) && |k| == |templates|
    requires forall j :: 0 <= j < |k| ==> k[j] >= 0.0
    requires Sum(k) > 0.0
    requires forall j, c :: 0 <= j < |templates| && 0 <= c < f ==> lo <= templates[j][c] <= hi
    ensures forall c :: 0 <= c < f ==> lo <= Smoothed(templates, f, k)[c] <= hi
  {
    forall c | 0 <= c < f ensures lo <= Smoothed(templates, f, k)[c] <= hi {
      var col := Column(templates, c);
      WeightedMeanBounds(k, col, lo, hi);
    }
  }

  /** The weighted mean of values in [lo, hi] under non-negative weights of
      positive total lies in [lo, hi]. */
  lemma WeightedMeanBounds(k: seq<real>, x: seq<real>, lo: real, hi: real)
    requires |k| == |x| && Sum(k) > 0.0
    requires forall j :: 0 <= j < |k| ==> k[j] >= 0.0
    requires forall j :: 0 <= j < |x| ==> lo <= x[j] <= hi
    ensures lo <= Sum(Products(k, x)) / Sum(k) <= hi
  {
    RatioBounds(k, x, Sum(Products(k, x)), Sum(k), lo, hi);
  }

  /** The division step, with the two sums named. */
  lemma RatioBounds(k: seq<real>, x: seq<real>, s: real, n: real, lo: real, hi: real)
    requires |k| == |x| && s == Sum(Products(k, x)) && n == Sum(k) && n > 0.0
    requires forall j :: 0 <= j < |k| ==> k[j] >= 0.0
    requires forall j :: 0 <= j < |x| ==> lo <= x[j] <= hi
    ensures lo <= s / n <= hi
  {
    WeightedSumBounds(k, x, lo, hi);
    DivBounds(s, n, lo, hi);
  }

  /** lo * sum(k) <= sum(k * x) <= hi * sum(k) for weights k >= 0 and lo <= x <= hi. */
  lemma WeightedSumBounds(k: seq<real>, x: seq<real>, lo: real, hi: real)
    requires |k| == |x|
    requires forall j :: 0 <= j < |k| ==> k[j] >= 0.0
    requires forall j :: 0 <= j < |x| ==> lo <= x[j] <= hi
    ensures lo * Sum(k) <= Sum(Products(k, x)) <= hi * Sum(k)
  {
    TermBounds(k, x, lo, hi);
    SumMono(Scaled(k, lo), Products(k, x));
    SumMono(Products(k, x), Scaled(k, hi));
    SumScale(Scaled(k, lo), k, lo);
    SumScale(Scaled(k, hi), k, hi);
  }

  /** k with every entry multiplied by c. */
  function Scaled(k: seq<real>, c: real): (r: seq<real>)
    ensures |r| == |k| && forall j :: 0 <= j < |k| ==> r[j] == c * k[j]
  {
    seq(|k|, j requires 0 <= j < |k| => c * k[j])
  }

  /** Term by term, lo * k <= k * x <= hi * k. */
  lemma TermBounds(k: seq<real>, x: seq<real>, lo: real, hi: real)
    requires |k| == |x|
    requires forall j :: 0 <= j < |k| ==> k[j] >= 0.0
    requires forall j :: 0 <= j < |x| ==> lo <= x[j] <= hi
    ensures forall j :: 0 <= j < |k| ==> Scaled(k, lo)[j] <= Products(k, x)[j] <= Scaled(k, hi)[j]
  {
    forall j | 0 <= j < |k| ensures Scaled(k, lo)[j] <= Products(k, x)[j] <= Scaled(k, hi)[j] {
      WeightedTerm(k[j], x[j], lo, hi);
    }
  }

  /** One weighted term lies between the weighted bounds. */
  lemma WeightedTerm(w: real, v: real, lo: real, hi: real)
    requires w >= 0.0 && lo <= v <= hi
    ensures lo * w <= w * v <= hi * w
  {
    NonNegProduct(w, v - lo);
    NonNegProduct(w, hi - v);
  }

  /** Smoothing templates that are all the same returns that template. */
  lemma SmoothedConstant(templates: Matrix, f: nat, k: seq<real>, t: seq<real>)
    requires IsMatrix(templates, |templates|, f) && |k| == |templates| && |t| == f
    requires forall j :: 0 <= j < |k| ==> k[j] >= 0.0
    requires Sum(k) > 0.0
    requires forall j :: 0 <= j < |templates| ==> templates[j] == t
    ensures Smoothed(templates, f, k) == t
  {
    forall c | 0 <= c < f ensures Smoothed(templates, f, k)[c] == t[c] {
      WeightedMeanBounds(k, Column(templates, c), t[c], t[c]);
    }
  }
}
