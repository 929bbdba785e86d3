/** The cross-validation loop of the decoders: the splits that
    RepeatedStratifiedKFold yields, the repetition slot `irep` each split writes
    its test distances into, and the average over repetitions. The distances of
    one test trial (every class and time point) are one vector; the splits and
    the distances are inputs. */
module Folds {
  import opened Numeric
  import opened Outcomes
  import opened Reshape

  /** One train/test split, as indices into the trials. */
  datatype Split = Split(train: seq<nat>, test: seq<nat>)

  /** A slot of distances_temp[:, trial, irep, ...]: NaN until a split writes it. */
  datatype Slot = Unwritten | Written(v: seq<real>)

  /** irep = int(np.floor(split_counter / n_folds)). */
  function Rep(counter: nat, nFolds: nat): nat
    requires nFolds > 0
  {
    counter / nFolds
  }

  /** Indices below n, none repeated. */
  predicate DistinctBelow(idx: seq<nat>, n: nat)
  {
    (forall j :: 0 <= j < |idx| ==> idx[j] < n)
    && (forall j, l :: 0 <= j < l < |idx| ==> idx[j] != idx[l])
  }

  /** What RepeatedStratifiedKFold promises: n_folds * n_reps splits, taken
      n_folds at a time, whose test sets in each repetition cover every trial
      exactly once. */
  predicate ValidSplits(splits: seq<Split>, nFolds: nat, nReps: nat, n: nat)
  {
    nFolds > 0
    && |splits| == nFolds * nReps
    && (forall s :: 0 <= s < |splits| ==> DistinctBelow(splits[s].test, n))
    && (forall r, i :: 0 <= r < nReps && 0 <= i < n ==> Covered(splits, nFolds, r, i))
    && (forall s, s', i ::
          (0 <= s < |splits| && 0 <= s' < |splits| && Rep(s, nFolds) == Rep(s', nFolds)
           && i in splits[s].test && i in splits[s'].test) ==> s == s')
  }

  /** Some split of repetition r tests trial i. */
  predicate Covered(splits: seq<Split>, nFolds: nat, r: nat, i: nat)
    requires nFolds > 0
  {
    exists s :: 0 <= s < |splits| && Rep(s, nFolds) == r && i in splits[s].test
  }

  /** Where a trial sits in a test set. */
  function IndexIn(test: seq<nat>, i: nat): (t: nat)
    requires i in test
    ensures t < |test| && test[t] == i
    ensures forall l :: 0 <= l < t ==> test[l] != i
  {
    if test[0] == i then 0 else 1 + IndexIn(test[1..], i)
  }

  /** The slot of trial i in repetition r once the first `upTo` splits have
      written their test distances: the last split to write it wins. */
  function SlotAfter(splits: seq<Split>, dists: seq<seq<seq<real>>>, nFolds: nat, upTo: nat, i: nat, r: nat): Slot
    requires nFolds > 0 && upTo <= |splits| == |dists|
    requires forall s :: 0 <= s < |splits| ==> |dists[s]| == |splits[s].test|
  {
    if upTo == 0 then Unwritten
    else
      var s := upTo - 1;
      if Rep(s, nFolds) == r && i in splits[s].test then Written(dists[s][IndexIn(splits[s].test, i)])
      else SlotAfter(splits, dists, nFolds, s, i, r)
  }

  /** The split loop: `distances_temp[:, test_index, irep, tp] = ...` for every
      split, with irep advancing every n_folds splits. `dists[s][t]` is what the
      distance computation gives for the t-th test trial of split s. */
  method FillRepetitions(splits: seq<Split>, dists: seq<seq<seq<real>>>, nFolds: nat, nReps: nat, n: nat)
    returns (temp: array2<Slot>)
    requires nFolds > 0 && |splits| == nFolds * nReps && |dists| == |splits|
    requires forall s :: 0 <= s < |splits| ==> |dists[s]| == |splits[s].test| && DistinctBelow(splits[s].test, n)
    ensures fresh(temp) && temp.Length0 == n && temp.Length1 == nReps
    ensures forall i, r :: 0 <= i < n && 0 <= r < nReps ==>
      temp[i, r] == SlotAfter(splits, dists, nFolds, |splits|, i, r)
  {
    temp := new Slot[n, nReps]((_, _) => Unwritten);
    var counter := 0;
    while counter < |splits|
      invariant 0 <= counter <= |splits|
      invariant forall i, r :: 0 <= i < n && 0 <= r < nReps ==>
        temp[i, r] == SlotAfter(splits, dists, nFolds, counter, i, r)
    {
      var irep := counter / nFolds;
      RepBelow(counter, nFolds, nReps);
      var test := splits[counter].test;
      var t := 0;
      while t < |test|
        invariant 0 <= t <= |test|
        invariant forall i, r :: 0 <= i < n && 0 <= r < nReps && !(r == irep && i in test[..t]) ==>
          temp[i, r] == SlotAfter(splits, dists, nFolds, counter, i, r)
        invariant forall i :: 0 <= i < n && i in test[..t] ==>
          temp[i, irep] == Written(dists[counter][IndexIn(test, i)])
      {
        FirstIndex(test, t, n);
        temp[test[t], irep] := Written(dists[counter][t]);
        assert test[..t + 1] == test[..t] + [test[t]];
        t := t + 1;
      }
      assert test[..t] == test;
      counter := counter + 1;
    }
  }

  lemma RepBelow(counter: nat, nFolds: nat, nReps: nat)
    requires nFolds > 0 && counter < nFolds * nReps
    ensures Rep(counter, nFolds) < nReps
  {
    if counter / nFolds >= nReps {
      MulMono(nReps, counter / nFolds, nFolds);
      assert nReps * nFolds == nFolds * nReps;
    }
  }

  /** In a test set without repeats, position t is where test[t] is found. */
  lemma FirstIndex(test: seq<nat>, t: nat, n: nat)
    requires DistinctBelow(test, n) && t < |test|
    ensures IndexIn(test, test[t]) == t
  {
  }

  // ---------------------------------------------------------------------------
  // Every slot written exactly once

  /** A split writes a slot and no later split of the same repetition touches
      it: the slot keeps that split's distances. */
  lemma {:induction false} SlotKeepsWriter(splits: seq<Split>, dists: seq<seq<seq<real>>>, nFolds: nat,
                                           upTo: nat, s: nat, i: nat)
    requires nFolds > 0 && upTo <= |splits| == |dists|
    requires forall s :: 0 <= s < |splits| ==> |dists[s]| == |splits[s].test|
    requires s < upTo && i in splits[s].test
    requires forall s' :: s < s' < upTo && Rep(s', nFolds) == Rep(s, nFolds) ==> i !in splits[s'].test
    ensures SlotAfter(splits, dists, nFolds, upTo, i, Rep(s, nFolds))
      == Written(dists[s][IndexIn(splits[s].test, i)])
  {
    if upTo - 1 != s {
      SlotKeepsWriter(splits, dists, nFolds, upTo - 1, s, i);
    }
  }

  /** With splits that RepeatedStratifiedKFold could yield, every trial's slot of
      every repetition ends up written, by the one split of that repetition whose
      test set holds the trial. */
  lemma EverySlotWritten(splits: seq<Split>, dists: seq<seq<seq<real>>>, nFolds: nat, nReps: nat, n: nat,
                         s: nat, i: nat)
    requires ValidSplits(splits, nFolds, nReps, n) && |dists| == |splits|
    requires forall s :: 0 <= s < |splits| ==> |dists[s]| == |splits[s].test|
    requires s < |splits| && i in splits[s].test
    ensures SlotAfter(splits, dists, nFolds, |splits|, i, Rep(s, nFolds))
      == Written(dists[s][IndexIn(splits[s].test, i)])
  {
    SlotKeepsWriter(splits, dists, nFolds, |splits|, s, i);
  }

  /** No slot of a trial inside the data and a repetition that ran stays NaN. */
  lemma NoSlotUnwritten(splits: seq<Split>, dists: seq<seq<seq<real>>>, nFolds: nat, nReps: nat, n: nat,
                        i: nat, r: nat)
    requires ValidSplits(splits, nFolds, nReps, n) && |dists| == |splits|
    requires forall s :: 0 <= s < |splits| ==> |dists[s]| == |splits[s].test|
    requires i < n && r < nReps
    ensures SlotAfter(splits, dists, nFolds, |splits|, i, r).Written?
  {
    assert Covered(splits, nFolds, r, i);
    var s :| 0 <= s < |splits| && Rep(s, nFolds) == r && i in splits[s].test;
    EverySlotWritten(splits, dists, nFolds, nReps, n, s, i);
  }

  // ---------------------------------------------------------------------------
  // The average over repetitions

  /** The distances of every repetition, when all were written. */
  function Values(slots: seq<Slot>): (vs: Result<Matrix>)
    ensures vs.Ok? <==> forall r :: 0 <= r < |slots| ==> slots[r].Written?
    ensures vs.Ok? ==> |vs.value| == |slots| && forall r :: 0 <= r < |slots| ==> vs.value[r] == slots[r].v
  {
    if |slots| == 0 then Ok([])
    else
      match Values(slots[..|slots| - 1])
      case Err(e) => Err(e)
      case Ok(front) =>
        if slots[|slots| - 1].Unwritten? then Err(UnfilledSlot)
        else Ok(front + [slots[|slots| - 1].v])
  }

  /** np.mean(distances_temp, axis=2) for one trial: the entry-by-entry mean of
      its repetitions' distances; a NaN slot, or no repetition at all, gives NaN. */
  function RepMean(slots: seq<Slot>, width: nat): (r: Result<seq<real>>)
    requires forall k :: 0 <= k < |slots| && slots[k].Written? ==> |slots[k].v| == width
    ensures r.Ok? <==> |slots| > 0 && forall k :: 0 <= k < |slots| ==> slots[k].Written?
    ensures r.Err? ==> r.error == UnfilledSlot
    ensures r.Ok? ==> |r.value| == width
  {
    var vs := Values(slots);
    if vs.Err? || |slots| == 0 then Err(UnfilledSlot)
    else Ok(ColumnMeans(vs.value, width))
  }

  /** The average lies between the smallest and largest value any repetition gave. */
  lemma RepMeanBounds(slots: seq<Slot>, width: nat, k: nat, lo: real, hi: real)
    requires forall q :: 0 <= q < |slots| && slots[q].Written? ==> |slots[q].v| == width
    requires RepMean(slots, width).Ok? && k < width
    requires forall q :: 0 <= q < |slots| ==> lo <= slots[q].v[k] <= hi
    ensures lo <= RepMean(slots, width).value[k] <= hi
  {
    var vs := Values(slots).value;
    var col := Column(vs, k);
    assert forall q :: 0 <= q < |col| ==> col[q] == slots[q].v[k];
    MeanBounds(col, lo, hi);
  }

  /** When every repetition gave the same distances, the average is those distances. */
  lemma RepMeanConstant(slots: seq<Slot>, width: nat, v: seq<real>)
    requires |slots| > 0 && |v| == width
    requires forall q :: 0 <= q < |slots| ==> slots[q] == Written(v)
    ensures RepMean(slots, width) == Ok(v)
  {
    assert RepMean(slots, width).Ok?;
    var m := RepMean(slots, width).value;
    forall k | 0 <= k < width ensures m[k] == v[k] {
      RepMeanBounds(slots, width, k, v[k], v[k]);
    }
    assert m == v;
  }

  /** The repetition slots of one trial, in order. */
  function TrialSlots(temp: array2<Slot>, i: nat): (slots: seq<Slot>)
    requires i < temp.Length0
    reads temp
    ensures |slots| == temp.Length1
  {
    seq(temp.Length1, r requires 0 <= r < temp.Length1 reads temp => temp[i, r])
  }

  /** After the split loop over valid splits, every trial of the data has an
      average when there is at least one repetition. */
  lemma FilledTrialsAverage(splits: seq<Split>, dists: seq<seq<seq<real>>>, nFolds: nat, nReps: nat, n: nat,
                            width: nat, temp: array2<Slot>, i: nat)
    requires ValidSplits(splits, nFolds, nReps, n) && |dists| == |splits| && nReps > 0
    requires forall s :: 0 <= s < |splits| ==> |dists[s]| == |splits[s].test|
    requires forall s, t :: 0 <= s < |splits| && 0 <= t < |dists[s]| ==> |dists[s][t]| == width
    requires temp.Length0 == n && temp.Length1 == nReps && i < n
    requires forall i, r :: 0 <= i < n && 0 <= r < nReps ==>
      temp[i, r] == SlotAfter(splits, dists, nFolds, |splits|, i, r)
    ensures forall r :: 0 <= r < nReps ==> TrialSlots(temp, i)[r].Written? && |TrialSlots(temp, i)[r].v| == width
    ensures RepMean(TrialSlots(temp, i), width).Ok?
  {
    var slots := TrialSlots(temp, i);
    forall r | 0 <= r < nReps ensures slots[r].Written? && |slots[r].v| == width {
      assert Covered(splits, nFolds, r, i);
      var s :| 0 <= s < |splits| && Rep(s, nFolds) == r && i in splits[s].test;
      EverySlotWritten(splits, dists, nFolds, nReps, n, s, i);
    }
  }

  // ---------------------------------------------------------------------------
  // Cross-temporal test data

  /** distance.cdist(a, b, metric) for a pairwise metric `dist`. */
  function CDist(dist: (seq<real>, seq<real>) -> real, a: Matrix, b: Matrix): (d: Matrix)
    ensures Rectangular(d, |a|, |b|)
  {
    seq(|a|, c requires 0 <= c < |a| => seq(|b|, k requires 0 <= k < |b| => dist(a[c], b[k])))
  }

  /** The cross-temporal decoders stack every (test trial, test time) vector into
      one row, C order: np.moveaxis then np.reshape(..., order='C'). Reshaping a
      class's distances back to (test trial, time) pairs every entry with the test
      trial and time point it was computed from. */
  lemma CrossTemporalPairing(dist: (seq<real>, seq<real>) -> real, m: Matrix, xtest: seq<Matrix>,
                             nTest: nat, ntps: nat, c: nat, j: nat, t: nat)
    requires Rectangular(xtest, nTest, ntps) && c < |m| && j < nTest && t < ntps
    ensures |CDist(dist, m, FlattenC(xtest))[c]| == nTest * ntps
    ensures Unflatten(CDist(dist, m, FlattenC(xtest))[c], nTest, ntps)[j][t] == dist(m[c], xtest[j][t])
  {
    var rows := FlattenC(xtest);
    FlattenCIndex(xtest, nTest, ntps, j, t);
    PieceEntry(CDist(dist, m, rows)[c], nTest, ntps, j, t);
  }
}
