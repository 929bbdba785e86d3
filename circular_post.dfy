/** After the split loops of the orientation decoders: centring the distances
    over the bins, merging the offset grids into one combined bin axis in Fortran
    order, the cosine-weighted decoding statistic `dec_cos`, and the per-trial
    `np.roll` that moves each trial's own bin to the position of angle 0.
    For one trial and time point the averaged distances form an
    ang_steps x bins matrix `d`, d[a][b] = distances[a, b, trl, tp]. */
module CircularPost {
  import opened Numeric
  import opened Reshape
  import opened AngularGrid
  import opened Binning

  /** v - np.mean(v): a vector shifted to mean zero. */
  function Centre(v: seq<real>): (r: seq<real>)
    requires |v| > 0
    ensures |r| == |v|
  {
    seq(|v|, k requires 0 <= k < |v| => v[k] - Mean(v))
  }

  /** A centred vector sums to zero. */
  lemma CentreSumsToZero(v: seq<real>)
    requires |v| > 0
    ensures Sum(Centre(v)) == 0.0
  {
    var ms := seq(|v|, _ => Mean(v));
    SumSub(Centre(v), v, ms);
    SumConst(ms, Mean(v));
  }

  /** Centring a vector whose sum is zero changes nothing. */
  lemma CentreZeroSum(v: seq<real>)
    requires |v| > 0 && Sum(v) == 0.0
    ensures Centre(v) == v
  {
    assert Mean(v) == 0.0;
  }

  /** Centring is idempotent. */
  lemma CentreIdempotent(v: seq<real>)
    requires |v| > 0
    ensures Centre(Centre(v)) == Centre(v)
  {
    CentreSumsToZero(v);
    CentreZeroSum(Centre(v));
  }

  /** distances - np.mean(distances, axis=1): every offset's row of distances
      shifted to mean zero over the bins. */
  function CentreOverBins(d: Matrix, steps: nat, bins: nat): (c: Matrix)
    requires Rectangular(d, steps, bins) && bins > 0
    ensures Rectangular(c, steps, bins)
  {
    seq(steps, a requires 0 <= a < steps => Centre(d[a]))
  }

  /** np.reshape(distances, (ang_steps*bins, ...), order='F'): offset a of bin b
      goes to a + b*ang_steps. */
  function Merge(d: Matrix, steps: nat, bins: nat): (flat: seq<real>)
    requires Rectangular(d, steps, bins)
    ensures |flat| == steps * bins
  {
    FlattenCLength(Transpose(d, steps, bins), bins, steps);
    assert bins * steps == steps * bins;
    FlattenF(d, steps, bins)
  }

  /** distances_flat after both centrings. */
  function CentredFlat(d: Matrix, steps: nat, bins: nat): (flat: seq<real>)
    requires Rectangular(d, steps, bins) && steps > 0 && bins > 0
  {
    FlattenCLength(Transpose(CentreOverBins(d, steps, bins), steps, bins), bins, steps);
    assert bins * steps > 0;
    Centre(Merge(CentreOverBins(d, steps, bins), steps, bins))
  }

  /** After centring over the bins, the distances of every offset sum to zero. */
  lemma CentredOverBins(d: Matrix, steps: nat, bins: nat, a: nat)
    requires Rectangular(d, steps, bins) && bins > 0 && a < steps
    ensures Sum(CentreOverBins(d, steps, bins)[a]) == 0.0
  {
    CentreSumsToZero(d[a]);
  }

  /** So the merged distances sum to zero, and the second centring along the
      combined axis is a no-op. */
  lemma SecondCentringNoOp(d: Matrix, steps: nat, bins: nat)
    requires Rectangular(d, steps, bins) && steps > 0 && bins > 0
    ensures Sum(Merge(CentreOverBins(d, steps, bins), steps, bins)) == 0.0
    ensures CentredFlat(d, steps, bins) == Merge(CentreOverBins(d, steps, bins), steps, bins)
  {
    var c := CentreOverBins(d, steps, bins);
    SumFlattenF(c, steps, bins);
    forall a | 0 <= a < steps ensures RowSums(c)[a] == 0.0 {
      CentredOverBins(d, steps, bins, a);
    }
    SumConst(RowSums(c), 0.0);
    FlattenFIndex(c, steps, bins, 0, 0);
    CentreZeroSum(Merge(c, steps, bins));
  }

  /** The merged distances and the merged grid angspace_full use the same map
      from (offset, bin) to combined index, so entry k of each refers to the same
      offset grid point. */
  lemma MergeAligned(d: Matrix, angspace: seq<real>, width: real, steps: nat, a: nat, b: nat)
    requires Rectangular(d, steps, |angspace|) && a < steps && b < |angspace|
    ensures |Merge(d, steps, |angspace|)| == |FullGrid(angspace, width, steps)| == steps * |angspace|
    ensures a + b * steps < steps * |angspace|
    ensures Merge(d, steps, |angspace|)[a + b * steps] == d[a][b]
    ensures FullGrid(angspace, width, steps)[a + b * steps] == OffsetGrid(angspace, width, a, steps)[b]
  {
    FlattenFIndex(d, steps, |angspace|, a, b);
    FullGridIndex(angspace, width, steps, a, b);
  }

  // ---------------------------------------------------------------------------
  // dec_cos

  /** -np.mean(np.cos(theta_dists2) * distances_flat, axis=0) for one trial and
      time point: `cosd[k]` is the cosine of the circular distance between bin k
      of angspace_full and the trial's orientation. */
  function DecCos(cosd: seq<real>, flat: seq<real>): (r: real)
    requires |cosd| == |flat| > 0
    ensures Sum(flat) == 0.0 && (forall k :: 0 <= k < |cosd| ==> cosd[k] == cosd[0]) ==> r == 0.0
  {
    UniformWeightsSum(cosd, flat);
    -Mean(Products(cosd, flat))
  }

  /** When every weight equals the first, the weighted sum is that weight times
      the plain sum. */
  lemma UniformWeightsSum(cosd: seq<real>, flat: seq<real>)
    requires |cosd| == |flat| > 0
    ensures (forall k :: 0 <= k < |cosd| ==> cosd[k] == cosd[0]) ==>
              Sum(Products(cosd, flat)) == cosd[0] * Sum(flat)
  {
    if forall k :: 0 <= k < |cosd| ==> cosd[k] == cosd[0] {
      UniformWeights(cosd, flat, cosd[0]);
    }
  }

  /** Weights that are all equal to c only scale the sum by c. */
  lemma {:induction false} UniformWeights(cosd: seq<real>, flat: seq<real>, c: real)
    requires |cosd| == |flat|
    requires forall k :: 0 <= k < |cosd| ==> cosd[k] == c
    ensures Sum(Products(cosd, flat)) == c * Sum(flat)
  {
    var p := Products(cosd, flat);
    forall k | 0 <= k < |p| ensures p[k] == c * flat[k] {
      SameFactor(cosd[k], c, flat[k]);
    }
    SumScale(p, flat, c);
  }

  lemma SameFactor(a: real, c: real, f: real)
    requires a == c
    ensures a * f == c * f
  {
  }

  /** With cosines in [-1, 1], dec_cos is no larger in size than the largest
      distance. */
  lemma DecCosBounded(cosd: seq<real>, flat: seq<real>, bound: real)
    requires |cosd| == |flat| > 0
    requires forall k :: 0 <= k < |cosd| ==> -1.0 <= cosd[k] <= 1.0
    requires forall k :: 0 <= k < |flat| ==> -bound <= flat[k] <= bound
    ensures -bound <= DecCos(cosd, flat) <= bound
  {
    var p := Products(cosd, flat);
    forall k | 0 <= k < |p| ensures -bound <= p[k] <= bound {
      ProductBound(cosd[k], flat[k], bound);
    }
    MeanBounds(p, -bound, bound);
  }

  lemma ProductBound(c: real, v: real, bound: real)
    requires -1.0 <= c <= 1.0 && -bound <= v <= bound
    ensures -bound <= c * v <= bound
  {
    if v >= 0.0 {
      NonNegProduct(1.0 - c, v);
      NonNegProduct(1.0 + c, v);
    } else {
      NonNegProduct(1.0 - c, -v);
      NonNegProduct(1.0 + c, -v);
    }
  }

  /** dec_cos is linear in the distances: scaling them scales it. */
  lemma DecCosScale(cosd: seq<real>, flat: seq<real>, x: real)
    requires |cosd| == |flat| > 0
    ensures DecCos(cosd, seq(|flat|, k requires 0 <= k < |flat| => x * flat[k])) == x * DecCos(cosd, flat)
  {
    var scaled := seq(|flat|, k requires 0 <= k < |flat| => x * flat[k]);
    var p, q := Products(cosd, scaled), Products(cosd, flat);
    forall k | 0 <= k < |p| ensures p[k] == x * q[k] {
      assert p[k] == cosd[k] * (x * flat[k]);
    }
    SumScale(p, q, x);
    ScaledMean(Sum(p), Sum(q), x, |p| as real);
  }

  /** dec_cos of one trial and time point as line 227 computes it: the cosine of
      the circular distance from every bin of angspace_full to the trial's
      orientation, weighting the twice-centred merged distances. `cos` is the
      cosine, a parameter. */
  function DecCosTrial(cos: real -> real, cd: (real, real) -> real, full: seq<real>, angle: real,
                       d: Matrix, steps: nat, bins: nat): real
    requires Rectangular(d, steps, bins) && steps > 0 && bins > 0 && |full| == steps * bins
  {
    var cosd := seq(|full|, k requires 0 <= k < |full| => cos(cd(full[k], angle)));
    DecCos(cosd, CentredFlat(d, steps, bins))
  }

  /** The distances with a constant added to every entry. */
  function Shifted(d: Matrix, c: real): (r: Matrix)
    ensures |r| == |d| && forall a :: 0 <= a < |d| ==> |r[a]| == |d[a]|
  {
    seq(|d|, a requires 0 <= a < |d| => seq(|d[a]|, b requires 0 <= b < |d[a]| => d[a][b] + c))
  }

  lemma MeanShift(s: real, n: real, c: real)
    requires n > 0.0
    ensures (s + n * c) / n == s / n + c
  {
  }

  /** Centring removes a constant added to every entry. */
  lemma CentreShift(v: seq<real>, w: seq<real>, c: real)
    requires |v| > 0 && |w| == |v|
    requires forall k :: 0 <= k < |v| ==> w[k] == v[k] + c
    ensures Centre(w) == Centre(v)
  {
    var cs := seq(|v|, _ => c);
    SumAdd(w, v, cs);
    SumConst(cs, c);
    MeanShift(Sum(v), |v| as real, c);
    assert Mean(w) == Mean(v) + c;
    forall k | 0 <= k < |v| ensures Centre(w)[k] == Centre(v)[k] {
    }
  }

  /** The twice-centred distances do not see a constant added to the distances. */
  lemma CentredFlatShift(d: Matrix, steps: nat, bins: nat, c: real)
    requires Rectangular(d, steps, bins) && steps > 0 && bins > 0
    ensures CentredFlat(Shifted(d, c), steps, bins) == CentredFlat(d, steps, bins)
  {
    var e := Shifted(d, c);
    forall a | 0 <= a < steps ensures CentreOverBins(e, steps, bins)[a] == CentreOverBins(d, steps, bins)[a] {
      CentreShift(d[a], e[a], c);
    }
    assert CentreOverBins(e, steps, bins) == CentreOverBins(d, steps, bins);
  }

  /** So dec_cos is unchanged when a constant is added to a trial's distances: it
      responds only to the shape of the distance profile across the bins. */
  lemma DecCosShift(cos: real -> real, cd: (real, real) -> real, full: seq<real>, angle: real,
                    d: Matrix, steps: nat, bins: nat, c: real)
    requires Rectangular(d, steps, bins) && steps > 0 && bins > 0 && |full| == steps * bins
    ensures DecCosTrial(cos, cd, full, angle, Shifted(d, c), steps, bins) == DecCosTrial(cos, cd, full, angle, d, steps, bins)
  {
    CentredFlatShift(d, steps, bins, c);
  }

  lemma ScaledMean(sp: real, sq: real, x: real, n: real)
    requires n > 0.0 && sp == x * sq
    ensures -(sp / n) == x * -(sq / n)
  {
  }

  // ---------------------------------------------------------------------------
  // Rolling each trial's distances

  /** np.roll(v, s) along its only axis: entry k moves to (k + s) mod n, so entry
      k of the result is entry (k - s) mod n of v (Python's %, which for a
      positive modulus agrees with Dafny's). */
  function Roll<T>(v: seq<T>, s: int): (r: seq<T>)
    ensures |r| == |v|
  {
    seq(|v|, k requires 0 <= k < |v| => v[(k - s) % |v|])
  }

  /** numpy computes the roll by joining two slices: the last s mod n entries,
      then the others. */
  lemma RollSlices<T>(v: seq<T>, s: int)
    requires |v| > 0
    ensures Roll(v, s) == v[|v| - s % |v|..] + v[..|v| - s % |v|]
  {
    var n := |v|;
    var m := s % n;
    var joined := v[n - m..] + v[..n - m];
    forall k | 0 <= k < n ensures Roll(v, s)[k] == joined[k] {
      if k < m {
        assert joined[k] == v[n - m + k];
        ModShift(k, s, n, n - m + k);
      } else {
        assert joined[k] == v[k - m];
        ModShift(k, s, n, k - m);
      }
    }
  }

  lemma ModShift(k: int, s: int, n: nat, j: nat)
    requires n > 0 && j < n && (j == n - s % n + k || j == k - s % n)
    ensures (k - s) % n == j
  {
    var q := s / n;
    assert s == q * n + s % n;
    if j == n - s % n + k {
      assert k - s == j + (-q - 1) * n;
    } else {
      assert k - s == j + (-q) * n;
    }
    ModUnique(k - s, n, j, if j == n - s % n + k then -q - 1 else -q);
  }

  /** The remainder is the only value in [0, n) congruent to x. */
  lemma ModUnique(x: int, n: nat, j: nat, q: int)
    requires n > 0 && j < n && x == j + q * n
    ensures x % n == j
  {
    var r, d := x % n, x / n;
    assert x == d * n + r;
    var k := d - q;
    assert k * n == d * n - q * n;
    ZeroMultiple(k, n, j - r);
  }

  /** The only multiple of n strictly between -n and n is 0. */
  lemma ZeroMultiple(k: int, n: nat, p: int)
    requires n > 0 && p == k * n && -(n as int) < p < n
    ensures k == 0
  {
    if k >= 1 {
      assert k * n == (k - 1) * n + n;
      NonNegInt(k - 1, n);
    } else if k <= -1 {
      assert k * n == -((-k - 1) * n) - n;
      NonNegInt(-k - 1, n);
    }
  }

  lemma NonNegInt(a: int, b: int)
    requires a >= 0 && b >= 0
    ensures a * b >= 0
  {
  }

  /** Rolling only reorders: it is a permutation. */
  lemma RollPermutation<T>(v: seq<T>, s: int)
    ensures multiset(Roll(v, s)) == multiset(v)
  {
    if |v| > 0 {
      var j := |v| - s % |v|;
      RollSlices(v, s);
      assert v == v[..j] + v[j..];
    }
  }

  /** Rolling back by the same amount undoes a roll. */
  lemma RollInverse<T>(v: seq<T>, s: int)
    ensures Roll(Roll(v, s), -s) == v
  {
    var n := |v|;
    var w := Roll(v, s);
    var u := Roll(w, -s);
    forall k | 0 <= k < n ensures u[k] == v[k] {
      var j := (k + s) % n;
      assert u[k] == w[j] by {
        assert k - -s == k + s;
      }
      assert w[j] == v[k] by {
        ModShiftBack(k, s, n, j);
      }
    }
    assert u == v;
  }

  lemma ModShiftBack(k: nat, s: int, n: nat, j: nat)
    requires k < n && j == (k + s) % n
    ensures (j - s) % n == k
  {
    var q := (k + s) / n;
    assert k + s == q * n + j;
    ModUnique(j - s, n, k, -q);
  }

  /** Rolling by shift_to - own moves entry `own` to position shift_to. */
  lemma RollOwnBin<T>(v: seq<T>, shiftTo: nat, own: nat)
    requires shiftTo < |v| && own < |v|
    ensures Roll(v, shiftTo - own)[shiftTo] == v[own]
  {
    ModUnique(shiftTo - (shiftTo - own), |v|, own, 0);
  }

  /** Entry k moves to (k + s) mod n: the circular order is kept. */
  lemma RollMoves<T>(v: seq<T>, s: int, k: nat)
    requires k < |v|
    ensures (k + s) % |v| < |v|
    ensures Roll(v, s)[(k + s) % |v|] == v[k]
  {
    ModShiftBack(k, s, |v|, (k + s) % |v|);
  }

  /** The combined-bin column of one trial: distances_flat[:, trl, :]. */
  function TrialColumn(flat: seq<seq<seq<real>>>, trl: nat): (col: seq<seq<real>>)
    requires forall k :: 0 <= k < |flat| ==> trl < |flat[k]|
    ensures |col| == |flat|
  {
    seq(|flat|, k requires 0 <= k < |flat| => flat[k][trl])
  }

  /** The loop that fills distances_ordered trial by trial:
      distances_ordered[:, trl, :] = np.roll(distances_flat[:, trl, :],
      shift_to - own[trl], axis=0). Entry [k, trl] holds the time course of
      combined bin k. */
  method Reorder(flat: seq<seq<seq<real>>>, ntrls: nat, own: seq<nat>, shiftTo: nat)
    returns (ordered: array2<seq<real>>)
    requires forall k :: 0 <= k < |flat| ==> |flat[k]| == ntrls
    requires |own| == ntrls
    ensures fresh(ordered) && ordered.Length0 == |flat| && ordered.Length1 == ntrls
    ensures forall k, trl :: 0 <= k < |flat| && 0 <= trl < ntrls ==>
      ordered[k, trl] == Roll(TrialColumn(flat, trl), shiftTo - own[trl])[k]
  {
    ordered := new seq<real>[|flat|, ntrls]((_, _) => []);
    var trl := 0;
    while trl < ntrls
      invariant 0 <= trl <= ntrls
      invariant forall k, t :: 0 <= k < |flat| && 0 <= t < trl ==>
        ordered[k, t] == Roll(TrialColumn(flat, t), shiftTo - own[t])[k]
    {
      var rolled := Roll(TrialColumn(flat, trl), shiftTo - own[trl]);
      forall k | 0 <= k < |flat| {
        ordered[k, trl] := rolled[k];
      }
      trl := trl + 1;
    }
  }

  /** The own bin of a trial: theta_bin_dists_min_ind, the first combined bin at
      the smallest absolute circular distance from the trial's binned angle. */
  function OwnBin(cd: (real, real) -> real, full: seq<real>, binAngle: real): (k: nat)
    requires |full| > 0
    ensures k < |full|
    ensures IsFirstMin(GridOffsets(cd, full, binAngle), k)
  {
    NearestBin(cd, full, binAngle)
  }

  /** After reordering, every trial's own bin sits at shift_to, the position of
      angle 0 in angspace_full (RollMoves and RollPermutation say where the other
      bins go). */
  lemma ReorderedOwnBin(flat: seq<seq<seq<real>>>, ntrls: nat, own: seq<nat>, shiftTo: nat,
                        ordered: array2<seq<real>>, trl: nat)
    requires forall k :: 0 <= k < |flat| ==> |flat[k]| == ntrls
    requires |own| == ntrls && trl < ntrls && shiftTo < |flat| && own[trl] < |flat|
    requires ordered.Length0 == |flat| && ordered.Length1 == ntrls
    requires forall k, t :: 0 <= k < |flat| && 0 <= t < ntrls ==>
      ordered[k, t] == Roll(TrialColumn(flat, t), shiftTo - own[t])[k]
    ensures ordered[shiftTo, trl] == flat[own[trl]][trl]
  {
    RollOwnBin(TrialColumn(flat, trl), shiftTo, own[trl]);
  }

  /** A trial whose binned angle lies on the merged grid has its own bin at a grid
      point at circular distance zero from it, since circ_dist(x, x) == 0. */
  lemma OwnBinAtZeroDistance(cd: (real, real) -> real, full: seq<real>, code: nat)
    requires forall x :: cd(x, x) == 0.0
    requires code < |full|
    ensures cd(full[OwnBin(cd, full, full[code])], full[code]) == 0.0
    ensures OwnBin(cd, full, full[code]) <= code
  {
    OnGridAngle(cd, full, full[code], code);
  }

  /** theta_bins: every trial's orientation replaced by the angle of its nearest
      bin on angspace_full. */
  function ThetaBins(cd: (real, real) -> real, full: seq<real>, theta: seq<real>): (y: seq<real>)
    requires |full| > 0
    ensures |y| == |theta|
  {
    BinAngles(full, NearestBins(cd, full, theta))
  }

  /** theta_bin_dists_min_ind: the own bin of every trial, found from its binned
      angle. */
  function OwnBins(cd: (real, real) -> real, full: seq<real>, theta: seq<real>): (own: seq<nat>)
    requires |full| > 0
    ensures |own| == |theta|
    ensures forall t :: 0 <= t < |theta| ==> own[t] < |full|
  {
    var bins := ThetaBins(cd, full, theta);
    seq(|theta|, t requires 0 <= t < |theta| => OwnBin(cd, full, bins[t]))
  }

  /** On a merged grid whose points circ_dist tells apart, the second argmin gives
      back the first: each trial's own bin is the bin its orientation was
      assigned to. */
  lemma OwnBinsAreNearestBins(cd: (real, real) -> real, full: seq<real>, theta: seq<real>)
    requires forall x :: cd(x, x) == 0.0
    requires SeparatedGrid(cd, full)
    requires |full| > 0
    ensures OwnBins(cd, full, theta) == NearestBins(cd, full, theta)
  {
    var codes := NearestBins(cd, full, theta);
    forall t | 0 <= t < |theta| ensures OwnBins(cd, full, theta)[t] == codes[t] {
      OnSeparatedGridAngle(cd, full, codes[t]);
    }
  }

  /** After the reordering loop, each trial's entry at shift_to (the position of
      angle 0) is its distance to the bin nearest its own orientation. */
  lemma ReorderedNearestBin(cd: (real, real) -> real, full: seq<real>, theta: seq<real>,
                            flat: seq<seq<seq<real>>>, shiftTo: nat, ordered: array2<seq<real>>, trl: nat)
    requires forall x :: cd(x, x) == 0.0
    requires SeparatedGrid(cd, full)
    requires |full| > 0 && |flat| == |full| && shiftTo < |full| && trl < |theta|
    requires forall k :: 0 <= k < |flat| ==> |flat[k]| == |theta|
    requires ordered.Length0 == |flat| && ordered.Length1 == |theta|
    requires forall k, t :: 0 <= k < |flat| && 0 <= t < |theta| ==>
      ordered[k, t] == Roll(TrialColumn(flat, t), shiftTo - OwnBins(cd, full, theta)[t])[k]
    ensures ordered[shiftTo, trl] == flat[NearestBins(cd, full, theta)[trl]][trl]
  {
    OwnBinsAreNearestBins(cd, full, theta);
    ReorderedOwnBin(flat, |theta|, OwnBins(cd, full, theta), shiftTo, ordered, trl);
  }
}
