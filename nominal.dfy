/** The nominal decoders' own logic: encoding the conditions as integer codes
    0..k-1, and turning the averaged distances into a predicted condition, a
    hit or miss, and a distance margin. For one time point `d[c][i]` is the
    averaged distance of trial i to the template of condition c. */
module Nominal {
  import opened Numeric
  import opened Outcomes
  import opened Binning

  predicate StrictlyIncreasing(u: seq<int>)
  {
    forall i, j :: 0 <= i < j < |u| ==> u[i] < u[j]
  }

  /** x inserted into a strictly increasing vector, unless already there. */
  function Insert(u: seq<int>, x: int): (r: seq<int>)
    requires StrictlyIncreasing(u)
    ensures StrictlyIncreasing(r)
    ensures forall y :: y in r <==> y in u || y == x
  {
    if |u| == 0 then [x]
    else if x < u[0] then [x] + u
    else if x == u[0] then u
    else
      var rest := Insert(u[1..], x);
      assert forall y :: y in u <==> y == u[0] || y in u[1..];
      forall k | 0 <= k < |rest| ensures rest[k] > u[0] {
        assert rest[k] in rest;
        if rest[k] != x {
          ElementsAfterFirst(u, rest[k]);
          var p :| 1 <= p < |u| && u[p] == rest[k];
          assert u[0] < u[p];
        }
      }
      [u[0]] + rest
  }

  /** np.unique: the distinct values, sorted. */
  function Unique(xs: seq<int>): (u: seq<int>)
    ensures StrictlyIncreasing(u)
    ensures forall y :: y in u <==> y in xs
  {
    if |xs| == 0 then []
    else
      var front := xs[..|xs| - 1];
      assert forall y :: y in xs <==> y in front || y == xs[|xs| - 1] by {
        assert xs == front + [xs[|xs| - 1]];
      }
      Insert(Unique(front), xs[|xs| - 1])
  }

  /** 0, 1, ..., k-1. */
  function Range(k: nat): (r: seq<int>)
    ensures |r| == k && forall c :: 0 <= c < k ==> r[c] == c
  {
    seq(k, c requires 0 <= c < k => c)
  }

  /** Two strictly increasing vectors with the same values are equal: np.unique
      has exactly one possible result. */
  lemma {:induction false} SortedUnique(a: seq<int>, b: seq<int>)
    requires StrictlyIncreasing(a) && StrictlyIncreasing(b)
    requires forall y :: y in a <==> y in b
    ensures a == b
  {
    FirstIsMember(a);
    FirstIsMember(b);
    if |a| > 0 {
      var i :| 0 <= i < |b| && b[i] == a[0];
      var j :| 0 <= j < |a| && a[j] == b[0];
      assert b[0] <= b[i] && a[0] <= a[j];
      forall y ensures y in a[1..] <==> y in b[1..] {
        if y in a[1..] {
          var p :| 1 <= p < |a| && a[p] == y;
          assert y in b && y != b[0];
        }
        if y in b[1..] {
          var p :| 1 <= p < |b| && b[p] == y;
          assert y in a && y != a[0];
        }
        ElementsAfterFirst(a, y);
        ElementsAfterFirst(b, y);
      }
      SortedUnique(a[1..], b[1..]);
      assert a == [a[0]] + a[1..] && b == [b[0]] + b[1..];
    }
  }

  lemma FirstIsMember(a: seq<int>)
    ensures |a| > 0 ==> a[0] in a
  {
  }

  lemma ElementsAfterFirst(a: seq<int>, y: int)
    requires |a| > 0
    ensures y in a[1..] <==> exists p :: 1 <= p < |a| && a[p] == y
  {
    if y in a[1..] {
      var q :| 0 <= q < |a| - 1 && a[1..][q] == y;
      assert a[q + 1] == y;
    }
  }

  /** The condition encoding: y_subst[conditions == u_conds[c]] = c for every c,
      then u_conds = np.unique(y_subst). Each mask write is one parallel
      assignment. */
  method EncodeConditions(conditions: seq<int>) returns (codes: array<nat>, uConds: seq<int>)
    ensures fresh(codes) && codes.Length == |conditions|
    ensures forall i :: 0 <= i < |conditions| ==>
      codes[i] < |Unique(conditions)| && Unique(conditions)[codes[i]] == conditions[i]
    ensures uConds == Range(|Unique(conditions)|)
  {
    var u := Unique(conditions);
    codes := new nat[|conditions|](_ => 0);
    var c := 0;
    while c < |u|
      invariant 0 <= c <= |u|
      invariant forall i :: 0 <= i < |conditions| && conditions[i] in u[..c] ==>
        codes[i] < c && u[codes[i]] == conditions[i]
    {
      forall i | 0 <= i < |conditions| && conditions[i] == u[c] {
        codes[i] := c;
      }
      assert forall i :: 0 <= i < |conditions| && conditions[i] in u[..c + 1] ==>
        conditions[i] in u[..c] || conditions[i] == u[c];
      c := c + 1;
    }
    assert u[..c] == u;
    uConds := Unique(codes[..]);
    CodesCoverRange(conditions, codes[..]);
  }

  /** Codes that name every condition by its position in np.unique(conditions)
      take exactly the values 0..k-1, so np.unique of them is 0..k-1. */
  lemma CodesCoverRange(conditions: seq<int>, codes: seq<nat>)
    requires |codes| == |conditions|
    requires forall i :: 0 <= i < |conditions| ==>
      codes[i] < |Unique(conditions)| && Unique(conditions)[codes[i]] == conditions[i]
    ensures Unique(codes) == Range(|Unique(conditions)|)
  {
    var u := Unique(conditions);
    var k := |u|;
    forall y ensures y in Unique(codes) <==> y in Range(k) {
      if y in Range(k) {
        var c := y;
        assert 0 <= c < k && Range(k)[c] == c;
        assert u[c] in conditions;
        var i :| 0 <= i < |conditions| && conditions[i] == u[c];
        RankUnique(u, codes[i], c);
        assert codes[i] == y;
      }
      if y in Unique(codes) {
        var i :| 0 <= i < |codes| && codes[i] == y;
        assert Range(k)[y] == y;
      }
    }
    SortedUnique(Unique(codes), Range(k));
  }

  /** In a strictly increasing vector every value sits at one position. */
  lemma RankUnique(u: seq<int>, a: nat, b: nat)
    requires StrictlyIncreasing(u) && a < |u| && b < |u| && u[a] == u[b]
    ensures a == b
  {
  }

  /** The encoding keeps the order of the conditions: a smaller condition gets
      a smaller code, and equal conditions the same code. */
  lemma EncodingKeepsOrder(conditions: seq<int>, codes: seq<nat>, i: nat, j: nat)
    requires |codes| == |conditions| && i < |codes| && j < |codes|
    requires forall i :: 0 <= i < |conditions| ==>
      codes[i] < |Unique(conditions)| && Unique(conditions)[codes[i]] == conditions[i]
    ensures conditions[i] < conditions[j] <==> codes[i] < codes[j]
    ensures conditions[i] == conditions[j] <==> codes[i] == codes[j]
  {
    var u := Unique(conditions);
    assert u[codes[i]] == conditions[i] && u[codes[j]] == conditions[j];
  }

  // ---------------------------------------------------------------------------
  // Prediction, accuracy, margin

  /** The distances of trial i to every condition's template: distances[:, i]. */
  function Profile(d: Matrix, i: nat): (col: seq<real>)
    requires forall c :: 0 <= c < |d| ==> i < |d[c]|
    ensures |col| == |d|
  {
    seq(|d|, c requires 0 <= c < |d| => d[c][i])
  }

  /** pred_cond = np.argmin(distances, axis=0) for one trial. */
  function Predict(col: seq<real>): (p: nat)
    requires |col| > 0
    ensures p < |col|
    ensures forall c :: 0 <= c < |col| ==> col[p] <= col[c]
    ensures forall c :: 0 <= c < p ==> col[c] > col[p]
  {
    ArgMin(col)
  }

  /** dec_acc: whether the prediction is the trial's own code. */
  function Hit(col: seq<real>, code: nat): bool
    requires |col| > 0
  {
    Predict(col) == code
  }

  /** A trial is decoded correctly exactly when its own template is the nearest
      and no earlier template is as near. */
  lemma HitIffNearest(col: seq<real>, code: nat)
    requires code < |col|
    ensures Hit(col, code) <==>
      (forall c :: 0 <= c < |col| ==> col[code] <= col[c]) && (forall c :: 0 <= c < code ==> col[c] > col[code])
  {
    if (forall c :: 0 <= c < |col| ==> col[code] <= col[c]) && (forall c :: 0 <= c < code ==> col[c] > col[code]) {
      FirstMinUnique(col, Predict(col), code);
    }
  }

  /** The distances to every condition but `own`: distances[np.setdiff1d(u_conds, cond)]. */
  function Others(col: seq<real>, own: nat): (r: seq<real>)
    requires own < |col|
    ensures |r| == |col| - 1
    ensures forall c :: 0 <= c < own ==> r[c] == col[c]
    ensures forall c :: own < c < |col| ==> r[c - 1] == col[c]
  {
    col[..own] + col[own + 1..]
  }

  /** distance_difference for one trial: the mean distance to the other
      conditions minus the distance to its own; NaN with a single condition. */
  function Margin(col: seq<real>, own: nat): (r: Result<real>)
    requires own < |col|
    ensures r.Ok? <==> |col| >= 2
    ensures r.Err? ==> r.error == SingleCondition
  {
    if |col| < 2 then Err(SingleCondition) else Ok(Mean(Others(col, own)) - col[own])
  }

  /** A correctly decoded trial has a margin of at least zero: its own template
      is no further than any other. */
  lemma HitMarginNonNegative(col: seq<real>, code: nat)
    requires code < |col| && |col| >= 2 && Hit(col, code)
    ensures Margin(col, code).value >= 0.0
  {
    var others := Others(col, code);
    forall c | 0 <= c < |others| ensures col[code] <= others[c] {
      if c < code {
        assert others[c] == col[c];
      } else {
        assert others[c] == col[c + 1];
      }
    }
    MeanBounds(others, col[code], MaxOf(others));
  }

  /** The largest entry of a non-empty vector. */
  function MaxOf(s: seq<real>): (m: real)
    requires |s| > 0
    ensures forall k :: 0 <= k < |s| ==> s[k] <= m
  {
    if |s| == 1 then s[0]
    else
      var m := MaxOf(s[..|s| - 1]);
      assert forall k :: 0 <= k < |s| - 1 ==> s[..|s| - 1][k] == s[k];
      if s[|s| - 1] > m then s[|s| - 1] else m
  }

  /** A negative margin means the trial was decoded wrongly. */
  lemma NegativeMarginIsMiss(col: seq<real>, code: nat)
    requires code < |col| && |col| >= 2 && Margin(col, code).value < 0.0
    ensures !Hit(col, code)
  {
    if Hit(col, code) {
      HitMarginNonNegative(col, code);
    }
  }

  /** The loop over conditions filling distance_difference:
      distance_difference[y_subst == cond] = mean(others) - own for each cond.
      `d` holds the averaged distances, `codes` the trials' codes 0..k-1. */
  method DistanceDifference(d: Matrix, codes: seq<nat>) returns (r: Result<seq<real>>)
    requires |d| > 0 && forall c :: 0 <= c < |d| ==> |d[c]| == |codes|
    requires forall i :: 0 <= i < |codes| ==> codes[i] < |d|
    ensures r.Ok? <==> |d| >= 2
    ensures r.Err? ==> r.error == SingleCondition
    ensures r.Ok? ==> |r.value| == |codes| && forall i :: 0 <= i < |codes| ==>
      Margin(Profile(d, i), codes[i]) == Ok(r.value[i])
  {
    if |d| < 2 {
      return Err(SingleCondition);
    }
    var dd := new real[|codes|](_ => 0.0);
    var cond := 0;
    while cond < |d|
      invariant 0 <= cond <= |d|
      invariant forall i :: 0 <= i < |codes| && codes[i] < cond ==>
        Margin(Profile(d, i), codes[i]) == Ok(dd[i])
    {
      forall i | 0 <= i < |codes| && codes[i] == cond {
        dd[i] := Mean(Others(Profile(d, i), cond)) - d[cond][i];
      }
      cond := cond + 1;
    }
    return Ok(dd[..]);
  }
}
