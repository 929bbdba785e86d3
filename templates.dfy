/** Class templates of one training fold: for every class, the mean over the
    class's training trials (all of them, or `count_min` of them drawn by
    `random.sample`), and the trials handed on to the covariance estimate.
    A trial is one feature vector (channels and time points laid end to end);
    the class of a trial is found by comparing its key (its bin angle, or its
    integer condition code) with the class's key, as the boolean masks
    `y_train == angspace_temp[c]` and `y_train == u_conds[c]` do. */
module Templates {
  import opened Numeric
  import opened Outcomes
  import opened Binning

  /** The trials selected by the mask `keys == key`, in trial order. */
  function Members<T(==)>(keys: seq<T>, key: T): (idx: seq<nat>)
    ensures forall j :: 0 <= j < |idx| ==> idx[j] < |keys| && keys[idx[j]] == key
    ensures forall i :: 0 <= i < |keys| ==> (keys[i] == key <==> i in idx)
    ensures forall j, l :: 0 <= j < l < |idx| ==> idx[j] < idx[l]
  {
    if |keys| == 0 then []
    else
      var n := |keys| - 1;
      var front := Members(keys[..n], key);
      assert forall i :: 0 <= i < n ==> keys[..n][i] == keys[i];
      if keys[n] == key then front + [n] else front
  }

  /** The rows of x at the given indices: x[idx]. */
  function Select(x: Matrix, idx: seq<nat>): (r: Matrix)
    requires forall j :: 0 <= j < |idx| ==> idx[j] < |x|
    ensures |r| == |idx|
    ensures forall j :: 0 <= j < |idx| ==> r[j] == x[idx[j]]
  {
    seq(|idx|, j requires 0 <= j < |idx| => x[idx[j]])
  }

  /** What random.sample(range(n), count) returns: count distinct indices below n. */
  predicate IsSample(ind: seq<nat>, n: nat, count: nat)
  {
    |ind| == count
    && (forall j :: 0 <= j < |ind| ==> ind[j] < n)
    && (forall j, l :: 0 <= j < l < |ind| ==> ind[j] != ind[l])
  }

  /** The number of training trials of class c. */
  function ClassSize<T(==)>(keys: seq<T>, classKeys: seq<T>, c: nat): nat
    requires c < |classKeys|
  {
    |Members(keys, classKeys[c])|
  }

  /** The draws fit the classes before `upTo`: non-empty, and inside the class. */
  predicate DrawsFit<T(==)>(keys: seq<T>, classKeys: seq<T>, draws: seq<seq<nat>>, upTo: nat)
    requires upTo <= |classKeys| <= |draws|
  {
    forall c :: 0 <= c < upTo ==>
      |draws[c]| > 0 && forall j :: 0 <= j < |draws[c]| ==> draws[c][j] < ClassSize(keys, classKeys, c)
  }

  /** temp_dat[ind]: the drawn trials of class c. */
  function Drawn<T(==)>(x: Matrix, keys: seq<T>, classKeys: seq<T>, draws: seq<seq<nat>>, c: nat): (r: Matrix)
    requires |keys| == |x| && c < |classKeys| <= |draws|
    requires forall j :: 0 <= j < |draws[c]| ==> draws[c][j] < ClassSize(keys, classKeys, c)
    ensures |r| == |draws[c]|
  {
    var classRows := Select(x, Members(keys, classKeys[c]));
    assert |classRows| == ClassSize(keys, classKeys, c);
    Select(classRows, draws[c])
  }

  /** m_temp[c] in the balanced branch: the mean of the drawn trials. */
  function DrawnMean<T(==)>(x: Matrix, f: nat, keys: seq<T>, classKeys: seq<T>, draws: seq<seq<nat>>, c: nat): (t: seq<real>)
    requires IsMatrix(x, |x|, f) && |keys| == |x| && c < |classKeys| <= |draws|
    requires |draws[c]| > 0 && forall j :: 0 <= j < |draws[c]| ==> draws[c][j] < ClassSize(keys, classKeys, c)
    ensures |t| == f
  {
    ColumnMeans(Drawn(x, keys, classKeys, draws, c), f)
  }

  /** The trials one class adds to the covariance data: the drawn trials, or with
      residual_cov their deviations from the class template. */
  function Block(picked: Matrix, f: nat, residual: bool): (r: Matrix)
    requires IsMatrix(picked, |picked|, f) && |picked| > 0
    ensures IsMatrix(r, |picked|, f)
  {
    if residual then Demean(picked, f) else picked
  }

  /** Blocks of rows stacked in order, as repeated np.append along axis 0 does. */
  function Stack(blocks: seq<Matrix>, f: nat): (r: Matrix)
    requires Blocks(blocks, f)
    ensures IsMatrix(r, |r|, f)
  {
    if |blocks| == 0 then [] else Stack(blocks[..|blocks| - 1], f) + blocks[|blocks| - 1]
  }

  /** Every block is a matrix of f columns. */
  predicate Blocks(bs: seq<Matrix>, f: nat)
  {
    forall c :: 0 <= c < |bs| ==> IsMatrix(bs[c], |bs[c]|, f)
  }

  /** The block each class before `upTo` adds to the covariance data. */
  function ClassBlocks<T(==)>(x: Matrix, f: nat, keys: seq<T>, classKeys: seq<T>, draws: seq<seq<nat>>,
                              residual: bool, upTo: nat): (bs: seq<Matrix>)
    requires IsMatrix(x, |x|, f) && |keys| == |x|
    requires upTo <= |classKeys| <= |draws| && DrawsFit(keys, classKeys, draws, upTo)
    ensures |bs| == upTo && Blocks(bs, f)
    ensures forall c :: 0 <= c < upTo ==> |bs[c]| == |draws[c]|
  {
    seq(upTo, c requires 0 <= c < upTo => Block(Drawn(x, keys, classKeys, draws, c), f, residual))
  }

  /** train_dat_cov after the classes before `upTo` have appended their blocks. */
  function CovBlocks<T(==)>(x: Matrix, f: nat, keys: seq<T>, classKeys: seq<T>, draws: seq<seq<nat>>,
                            residual: bool, upTo: nat): (r: Matrix)
    requires IsMatrix(x, |x|, f) && |keys| == |x|
    requires upTo <= |classKeys| <= |draws| && DrawsFit(keys, classKeys, draws, upTo)
    ensures IsMatrix(r, |r|, f)
  {
    Stack(ClassBlocks(x, f, keys, classKeys, draws, residual, upTo), f)
  }

  lemma CovBlocksStep<T>(x: Matrix, f: nat, keys: seq<T>, classKeys: seq<T>, draws: seq<seq<nat>>,
                             residual: bool, c: nat)
    requires IsMatrix(x, |x|, f) && |keys| == |x|
    requires c < |classKeys| <= |draws| && DrawsFit(keys, classKeys, draws, c + 1)
    ensures DrawsFit(keys, classKeys, draws, c)
    ensures CovBlocks(x, f, keys, classKeys, draws, residual, c + 1)
      == CovBlocks(x, f, keys, classKeys, draws, residual, c) + Block(Drawn(x, keys, classKeys, draws, c), f, residual)
  {
    var bs := ClassBlocks(x, f, keys, classKeys, draws, residual, c + 1);
    assert bs[..c] == ClassBlocks(x, f, keys, classKeys, draws, residual, c);
  }

  /** Whether class c can be averaged over `count` drawn trials: random.sample
      refuses a count above the class size, and the mean of no trials is NaN. */
  predicate Drawable(count: nat, size: nat)
  {
    0 < count <= size
  }

  function DrawError(c: nat, count: nat, size: nat): Error
  {
    if count > size then SampleLargerThanPopulation(c) else EmptyClass(c)
  }

  /** The first class that cannot be drawn from, or the number of classes. */
  function FirstBlocked<T(==)>(count: nat, keys: seq<T>, classKeys: seq<T>, from: nat): (b: nat)
    requires from <= |classKeys|
    ensures from <= b <= |classKeys|
    ensures forall c :: from <= c < b ==> Drawable(count, ClassSize(keys, classKeys, c))
    ensures b < |classKeys| ==> !Drawable(count, ClassSize(keys, classKeys, b))
    decreases |classKeys| - from
  {
    if from == |classKeys| then from
    else if !Drawable(count, ClassSize(keys, classKeys, from)) then from
    else FirstBlocked(count, keys, classKeys, from + 1)
  }

  /** The first `upTo` templates are the means of their classes' drawn trials. */
  predicate Templated<T(==)>(ms: seq<seq<real>>, x: Matrix, f: nat, keys: seq<T>, classKeys: seq<T>,
                             draws: seq<seq<nat>>, upTo: nat)
  {
    IsMatrix(x, |x|, f) && |keys| == |x| && upTo <= |ms| && upTo <= |classKeys| <= |draws|
    && DrawsFit(keys, classKeys, draws, upTo)
    && forall c :: 0 <= c < upTo ==> ms[c] == DrawnMean(x, f, keys, classKeys, draws, c)
  }

  /** `cov` is train_dat_cov once the first `upTo` classes have appended their blocks. */
  predicate Appended<T(==)>(cov: Matrix, x: Matrix, f: nat, keys: seq<T>, classKeys: seq<T>,
                            draws: seq<seq<nat>>, residual: bool, upTo: nat)
  {
    IsMatrix(x, |x|, f) && |keys| == |x| && upTo <= |classKeys| <= |draws|
    && DrawsFit(keys, classKeys, draws, upTo)
    && cov == CovBlocks(x, f, keys, classKeys, draws, residual, upTo)
  }

  /** The balanced branch of one training fold. `m` holds the templates (m_temp,
      or m in the nominal decoders) and keeps its rows between folds; `codes`
      are the training codes whose bincount gives count_min; `draws[c]` is what
      random.sample returns for class c. On success the result is train_dat_cov:
      the appended blocks with balanced_cov, all training trials without. */
  method BalancedTemplates<T(==)>(m: array<seq<real>>, x: Matrix, f: nat, keys: seq<T>, codes: seq<nat>,
                                  classKeys: seq<T>, draws: seq<seq<nat>>, balancedCov: bool, residualCov: bool)
    returns (r: Result<Matrix>)
    modifies m
    requires IsMatrix(x, |x|, f) && |keys| == |x| && |codes| == |x|
    requires m.Length == |classKeys| == |draws|
    requires CountMin(codes).Ok? ==> forall c :: 0 <= c < |classKeys| ==>
      CountMin(codes).value <= ClassSize(keys, classKeys, c) ==>
      IsSample(draws[c], ClassSize(keys, classKeys, c), CountMin(codes).value)
    ensures CountMin(codes).Err? ==> r == Err(CountMin(codes).error) && unchanged(m)
    ensures CountMin(codes).Ok? ==>
      var count := CountMin(codes).value;
      var b := FirstBlocked(count, keys, classKeys, 0);
      (r.Ok? <==> b == |classKeys|)
      && (r.Err? ==> r.error == DrawError(b, count, ClassSize(keys, classKeys, b)))
      && Templated(m[..], x, f, keys, classKeys, draws, b)
      && (forall c :: b <= c < m.Length ==> m[c] == old(m[c]))
      && (r.Ok? && balancedCov ==> Appended(r.value, x, f, keys, classKeys, draws, residualCov, b))
      && (r.Ok? && !balancedCov ==> r.value == x)
  {
    var cm := CountMin(codes);
    if cm.Err? {
      return Err(cm.error);
    }
    r := DrawClasses(m, x, f, keys, classKeys, draws, cm.value, balancedCov, residualCov);
  }

  /** The loop over classes of the balanced branch, once count_min is known. */
  method DrawClasses<T(==)>(m: array<seq<real>>, x: Matrix, f: nat, keys: seq<T>, classKeys: seq<T>,
                            draws: seq<seq<nat>>, count: nat, balancedCov: bool, residualCov: bool)
    returns (r: Result<Matrix>)
    modifies m
    requires IsMatrix(x, |x|, f) && |keys| == |x|
    requires m.Length == |classKeys| == |draws|
    requires forall c :: 0 <= c < |classKeys| ==>
      count <= ClassSize(keys, classKeys, c) ==> IsSample(draws[c], ClassSize(keys, classKeys, c), count)
    ensures var b := FirstBlocked(count, keys, classKeys, 0);
      (r.Ok? <==> b == |classKeys|)
      && (r.Err? ==> r.error == DrawError(b, count, ClassSize(keys, classKeys, b)))
      && Templated(m[..], x, f, keys, classKeys, draws, b)
      && (forall c :: b <= c < m.Length ==> m[c] == old(m[c]))
      && (r.Ok? && balancedCov ==> Appended(r.value, x, f, keys, classKeys, draws, residualCov, b))
      && (r.Ok? && !balancedCov ==> r.value == x)
  {
    ghost var b := FirstBlocked(count, keys, classKeys, 0);
    var cov: Matrix := [];
    var c := 0;
    while c < |classKeys| && Drawable(count, |Members(keys, classKeys[c])|)
      invariant 0 <= c <= b
      invariant Templated(m[..], x, f, keys, classKeys, draws, c)
      invariant forall j :: c <= j < m.Length ==> m[j] == old(m[j])
      invariant balancedCov ==> Appended(cov, x, f, keys, classKeys, draws, residualCov, c)
      invariant !balancedCov ==> cov == []
    {
      assert c < b by {
        assert Drawable(count, ClassSize(keys, classKeys, c));
      }
      DrawStep(m[..], x, f, keys, classKeys, draws, count, c);
      var picked := Drawn(x, keys, classKeys, draws, c);
      if balancedCov {
        AppendStep(cov, x, f, keys, classKeys, draws, residualCov, c);
        cov := cov + Block(picked, f, residualCov);
      }
      m[c] := ColumnMeans(picked, f);
      c := c + 1;
    }
    assert c == b by {
      if c < |classKeys| {
        assert !Drawable(count, ClassSize(keys, classKeys, c));
      }
    }
    if c < |classKeys| {
      // random.sample refuses a count above the class size; a count of zero
      // leaves the template as the mean of nothing
      r := Err(DrawError(c, count, |Members(keys, classKeys[c])|));
    } else if balancedCov {
      r := Ok(cov);
    } else {
      r := Ok(x);
    }
  }

  /** Drawing one more class: its draws fit, its drawn trials form a matrix the
      template can average, and writing that template extends the templates. */
  lemma DrawStep<T>(ms: seq<seq<real>>, x: Matrix, f: nat, keys: seq<T>, classKeys: seq<T>,
                    draws: seq<seq<nat>>, count: nat, c: nat)
    requires Templated(ms, x, f, keys, classKeys, draws, c) && c < |ms| && c < |classKeys|
    requires 0 < count && IsSample(draws[c], ClassSize(keys, classKeys, c), count)
    ensures DrawsFit(keys, classKeys, draws, c + 1)
    ensures IsMatrix(Drawn(x, keys, classKeys, draws, c), count, f) && count > 0
    ensures Templated(ms[c := ColumnMeans(Drawn(x, keys, classKeys, draws, c), f)], x, f, keys, classKeys, draws, c + 1)
  {
    assert DrawsFit(keys, classKeys, draws, c + 1);
    DrawnShape(x, f, keys, classKeys, draws, c);
    var ms' := ms[c := ColumnMeans(Drawn(x, keys, classKeys, draws, c), f)];
    assert forall j :: 0 <= j < c + 1 ==> ms'[j] == DrawnMean(x, f, keys, classKeys, draws, j);
  }

  /** Appending one more class's block extends the covariance data. */
  lemma AppendStep<T>(cov: Matrix, x: Matrix, f: nat, keys: seq<T>, classKeys: seq<T>,
                      draws: seq<seq<nat>>, residual: bool, c: nat)
    requires Appended(cov, x, f, keys, classKeys, draws, residual, c) && c < |classKeys|
    requires DrawsFit(keys, classKeys, draws, c + 1)
    ensures IsMatrix(Drawn(x, keys, classKeys, draws, c), |draws[c]|, f) && |draws[c]| > 0
    ensures Appended(cov + Block(Drawn(x, keys, classKeys, draws, c), f, residual), x, f, keys, classKeys,
                     draws, residual, c + 1)
  {
    DrawnShape(x, f, keys, classKeys, draws, c);
    CovBlocksStep(x, f, keys, classKeys, draws, residual, c);
  }

  /** The first class with no training trials, or the number of classes. */
  function FirstEmpty<T(==)>(keys: seq<T>, classKeys: seq<T>, from: nat): (b: nat)
    requires from <= |classKeys|
    ensures from <= b <= |classKeys|
    ensures forall c :: from <= c < b ==> ClassSize(keys, classKeys, c) > 0
    ensures b < |classKeys| ==> ClassSize(keys, classKeys, b) == 0
    decreases |classKeys| - from
  {
    if from == |classKeys| then from
    else if ClassSize(keys, classKeys, from) == 0 then from
    else FirstEmpty(keys, classKeys, from + 1)
  }

  /** All training trials of class c: X_train[y_train == key]. */
  function ClassTrials<T(==)>(x: Matrix, keys: seq<T>, key: T): (r: Matrix)
    requires |keys| == |x|
    ensures |r| == |Members(keys, key)|
  {
    Select(x, Members(keys, key))
  }

  /** m_temp[c] in the unbalanced branch: the mean of all the class's trials. */
  function ClassMean<T(==)>(x: Matrix, f: nat, keys: seq<T>, classKeys: seq<T>, c: nat): (t: seq<real>)
    requires IsMatrix(x, |x|, f) && |keys| == |x| && c < |classKeys|
    requires ClassSize(keys, classKeys, c) > 0
    ensures |t| == f
  {
    ColumnMeans(ClassTrials(x, keys, classKeys[c]), f)
  }

  /** The unbalanced branch: every template is the mean of all its class's trials.
      Nothing is appended to train_dat_cov here, so with balanced_cov it stays
      empty; without, it is all training trials. */
  method UnbalancedTemplates<T(==)>(m: array<seq<real>>, x: Matrix, f: nat, keys: seq<T>, classKeys: seq<T>,
                                    balancedCov: bool)
    returns (r: Result<Matrix>)
    modifies m
    requires IsMatrix(x, |x|, f) && |keys| == |x| && m.Length == |classKeys|
    ensures var b := FirstEmpty(keys, classKeys, 0);
      (r.Ok? <==> b == |classKeys|)
      && (r.Err? ==> r.error == EmptyClass(b))
      && (forall c :: 0 <= c < b ==> m[c] == ClassMean(x, f, keys, classKeys, c))
      && (forall c :: b <= c < m.Length ==> m[c] == old(m[c]))
      && (r.Ok? ==> r.value == if balancedCov then [] else x)
  {
    ghost var b := FirstEmpty(keys, classKeys, 0);
    var c := 0;
    while c < |classKeys|
      invariant 0 <= c <= b
      invariant forall j :: 0 <= j < c ==> m[j] == ClassMean(x, f, keys, classKeys, j)
      invariant forall j :: c <= j < m.Length ==> m[j] == old(m[j])
    {
      var tempDat := Select(x, Members(keys, classKeys[c]));
      assert |tempDat| == ClassSize(keys, classKeys, c);
      if |tempDat| == 0 {
        return Err(EmptyClass(c));
      }
      assert c < b;
      ghost var before := m[..];
      m[c] := ColumnMeans(tempDat, f);
      assert m[c] == ClassMean(x, f, keys, classKeys, c);
      assert forall j :: 0 <= j < m.Length && j != c ==> m[j] == before[j];
      c := c + 1;
    }
    if balancedCov {
      return Ok([]);
    }
    return Ok(x);
  }

  // ---------------------------------------------------------------------------
  // What the balanced branch promises

  /** The training trials drawn for class c, as indices into the fold. */
  function Picks<T(==)>(keys: seq<T>, classKeys: seq<T>, draws: seq<seq<nat>>, c: nat): (p: seq<nat>)
    requires c < |classKeys| <= |draws|
    requires forall j :: 0 <= j < |draws[c]| ==> draws[c][j] < ClassSize(keys, classKeys, c)
    ensures |p| == |draws[c]|
  {
    var members := Members(keys, classKeys[c]);
    assert |members| == ClassSize(keys, classKeys, c);
    seq(|draws[c]|, j requires 0 <= j < |draws[c]| => members[draws[c][j]])
  }

  /** A balanced template is the mean of exactly `count` distinct training trials,
      all of class c. */
  lemma BalancedTemplateIsMeanOfDistinct<T>(x: Matrix, f: nat, keys: seq<T>, classKeys: seq<T>,
                                                draws: seq<seq<nat>>, c: nat, count: nat)
    requires IsMatrix(x, |x|, f) && |keys| == |x| && c < |classKeys| <= |draws|
    requires count > 0 && IsSample(draws[c], ClassSize(keys, classKeys, c), count)
    ensures var p := Picks(keys, classKeys, draws, c);
      |p| == count
      && (forall j :: 0 <= j < |p| ==> p[j] < |x| && keys[p[j]] == classKeys[c])
      && (forall j, l :: 0 <= j < l < |p| ==> p[j] != p[l])
      && Drawn(x, keys, classKeys, draws, c) == Select(x, p)
      && DrawnMean(x, f, keys, classKeys, draws, c) == ColumnMeans(Select(x, p), f)
  {
    var members := Members(keys, classKeys[c]);
    var p := Picks(keys, classKeys, draws, c);
    var d := draws[c];
    forall j, l | 0 <= j < l < |p| ensures p[j] != p[l] {
      assert d[j] != d[l];
      if d[j] < d[l] {
        assert members[d[j]] < members[d[l]];
      } else {
        assert members[d[l]] < members[d[j]];
      }
    }
    assert Drawn(x, keys, classKeys, draws, c) == Select(x, p);
  }

  /** The mask selects as many trials as the key occurs: the size of a class is
      its bincount entry. */
  lemma {:induction false} MembersCount<T>(keys: seq<T>, key: T)
    ensures |Members(keys, key)| == multiset(keys)[key]
  {
    if |keys| > 0 {
      var n := |keys| - 1;
      MembersCount(keys[..n], key);
      assert keys == keys[..n] + [keys[n]];
      assert multiset(keys) == multiset(keys[..n]) + multiset{keys[n]};
    }
  }

  /** In the orientation decoders the key of a trial is its bin angle
      angspace_temp[code]; as long as the grid angles are distinct, comparing
      angles selects the same trials as comparing codes. */
  lemma {:induction false} MembersByAngle(angles: seq<real>, codes: seq<nat>, grid: seq<real>, c: nat)
    requires |angles| == |codes| && c < |grid|
    requires forall i :: 0 <= i < |codes| ==> codes[i] < |grid| && angles[i] == grid[codes[i]]
    requires forall a, b :: 0 <= a < b < |grid| ==> grid[a] != grid[b]
    ensures Members(angles, grid[c]) == Members(codes, c)
  {
    if |codes| > 0 {
      var n := |codes| - 1;
      MembersByAngle(angles[..n], codes[..n], grid, c);
      assert angles[n] == grid[c] <==> codes[n] == c by {
        if codes[n] < c {
          assert grid[codes[n]] != grid[c];
        } else if codes[n] > c {
          assert grid[c] != grid[codes[n]];
        }
      }
    }
  }

  /** count_min never exceeds the number of training trials of any class up to
      the largest code, so random.sample can draw from all of them. */
  lemma CountMinWithinClasses(codes: seq<nat>, c: nat)
    requires CountMin(codes).Ok? && c <= MaxLabel(codes)
    ensures CountMin(codes).value <= |Members(codes, c)|
  {
    MembersCount(codes, c);
  }

  /** With balanced_cov every class contributes exactly count_min trials to the
      covariance data. */
  lemma CovBlocksSize<T>(x: Matrix, f: nat, keys: seq<T>, classKeys: seq<T>,
                         draws: seq<seq<nat>>, residual: bool, upTo: nat, count: nat)
    requires IsMatrix(x, |x|, f) && |keys| == |x|
    requires upTo <= |classKeys| <= |draws| && DrawsFit(keys, classKeys, draws, upTo)
    requires forall c :: 0 <= c < upTo ==> |draws[c]| == count
    ensures |CovBlocks(x, f, keys, classKeys, draws, residual, upTo)| == upTo * count
  {
    StackSize(ClassBlocks(x, f, keys, classKeys, draws, residual, upTo), f, count);
  }

  /** Stacking blocks of `count` rows each gives |bs| * count rows. */
  lemma {:induction false} StackSize(bs: seq<Matrix>, f: nat, count: nat)
    requires Blocks(bs, f) && forall c :: 0 <= c < |bs| ==> |bs[c]| == count
    ensures |Stack(bs, f)| == |bs| * count
  {
    if |bs| > 0 {
      var n := |bs| - 1;
      StackSize(bs[..n], f, count);
      assert n * count + count == |bs| * count;
    }
  }

  /** With residual_cov every feature of the covariance data sums to zero over
      the trials, because each class block is centred on its own template. */
  lemma ResidualCovCentred<T>(x: Matrix, f: nat, keys: seq<T>, classKeys: seq<T>,
                              draws: seq<seq<nat>>, upTo: nat, j: nat)
    requires IsMatrix(x, |x|, f) && |keys| == |x| && j < f
    requires upTo <= |classKeys| <= |draws| && DrawsFit(keys, classKeys, draws, upTo)
    ensures Sum(Column(CovBlocks(x, f, keys, classKeys, draws, true, upTo), j)) == 0.0
  {
    var bs := ClassBlocks(x, f, keys, classKeys, draws, true, upTo);
    forall c | 0 <= c < upTo ensures Sum(Column(bs[c], j)) == 0.0 {
      DrawnShape(x, f, keys, classKeys, draws, c);
      DemeanedColumnSum(Drawn(x, keys, classKeys, draws, c), f, j);
    }
    StackCentred(bs, f, j);
  }

  /** Stacking blocks whose column j sums to zero gives a column j that sums to zero. */
  lemma {:induction false} StackCentred(bs: seq<Matrix>, f: nat, j: nat)
    requires j < f && Blocks(bs, f)
    requires forall c :: 0 <= c < |bs| ==> Sum(Column(bs[c], j)) == 0.0
    ensures Sum(Column(Stack(bs, f), j)) == 0.0
  {
    if |bs| > 0 {
      var n := |bs| - 1;
      StackCentred(bs[..n], f, j);
      ColumnSumAppend(Stack(bs[..n], f), bs[n], f, j);
    }
  }

  /** The drawn trials of a class form a non-empty block of feature vectors. */
  lemma DrawnShape<T>(x: Matrix, f: nat, keys: seq<T>, classKeys: seq<T>, draws: seq<seq<nat>>, c: nat)
    requires IsMatrix(x, |x|, f) && |keys| == |x|
    requires c < |classKeys| <= |draws| && DrawsFit(keys, classKeys, draws, c + 1)
    ensures IsMatrix(Drawn(x, keys, classKeys, draws, c), |draws[c]|, f) && |draws[c]| > 0
  {
  }

  /** Stacking two blocks of rows adds their column sums. */
  lemma ColumnSumAppend(a: Matrix, b: Matrix, f: nat, j: nat)
    requires IsMatrix(a, |a|, f) && IsMatrix(b, |b|, f) && j < f
    ensures Sum(Column(a + b, j)) == Sum(Column(a, j)) + Sum(Column(b, j))
  {
    assert Column(a + b, j) == Column(a, j) + Column(b, j);
    SumAppend(Column(a, j), Column(b, j));
  }
}
