/** Assigning angles to grid bins and counting the trials of each class: the
    argmin over absolute circular distances, `np.bincount` and the balancing
    count `min(np.bincount(...))`. */
module Binning {
  import opened Outcomes

  function Abs(x: real): (r: real)
    ensures r >= 0.0 && (r == x || r == -x)
  {
    if x < 0.0 then -x else x
  }

  /** i is where np.argmin stops: a smallest entry, and the first one. */
  predicate IsFirstMin(s: seq<real>, i: nat)
  {
    i < |s|
    && (forall j :: 0 <= j < |s| ==> s[i] <= s[j])
    && (forall j :: 0 <= j < i ==> s[j] > s[i])
  }

  /** np.argmin of a non-empty vector. */
  function ArgMin(s: seq<real>): (i: nat)
    requires |s| > 0
    ensures IsFirstMin(s, i)
  {
    if |s| == 1 then 0
    else
      var k := ArgMin(s[..|s| - 1]);
      if s[|s| - 1] < s[k] then |s| - 1 else k
  }

  /** The first minimum is unique, so IsFirstMin determines np.argmin. */
  lemma FirstMinUnique(s: seq<real>, i: nat, j: nat)
    requires IsFirstMin(s, i) && IsFirstMin(s, j)
    ensures i == j
  {
    assert s[i] <= s[j] && s[j] <= s[i];
  }

  /** Row `angle` of abs(circ_dist(grid, theta, all_pairs=True)): the absolute
      circular offset of the angle from every grid point. `cd(x, y)` is circ_dist
      of a single pair, the angle of e^{ix}/e^{iy}. */
  function GridOffsets(cd: (real, real) -> real, grid: seq<real>, angle: real): (r: seq<real>)
    ensures |r| == |grid|
  {
    seq(|grid|, j requires 0 <= j < |grid| => Abs(cd(grid[j], angle)))
  }

  /** The bin of one angle: the first grid point at the smallest absolute offset. */
  function NearestBin(cd: (real, real) -> real, grid: seq<real>, angle: real): (b: nat)
    requires |grid| > 0
    ensures b < |grid|
  {
    ArgMin(GridOffsets(cd, grid, angle))
  }

  /** np.argmin(abs(circ_dist(grid, theta, all_pairs=True)), axis=1): the bin code
      of every trial. */
  function NearestBins(cd: (real, real) -> real, grid: seq<real>, theta: seq<real>): (codes: seq<nat>)
    requires |grid| > 0
    ensures |codes| == |theta|
    ensures forall i :: 0 <= i < |theta| ==> codes[i] < |grid|
    ensures forall i :: 0 <= i < |theta| ==> IsFirstMin(GridOffsets(cd, grid, theta[i]), codes[i])
  {
    seq(|theta|, i requires 0 <= i < |theta| => NearestBin(cd, grid, theta[i]))
  }

  /** ang_bin_temp[:, temp][0, :]: the grid angle of each trial's bin. */
  function BinAngles(grid: seq<real>, codes: seq<nat>): (y: seq<real>)
    requires forall i :: 0 <= i < |codes| ==> codes[i] < |grid|
    ensures |y| == |codes|
  {
    seq(|codes|, i requires 0 <= i < |codes| => grid[codes[i]])
  }

  /** Each trial's bin is a grid point at least as close as every other one, and
      strictly closer than every earlier one. */
  lemma NearestBinsAreNearest(cd: (real, real) -> real, grid: seq<real>, theta: seq<real>, i: nat, j: nat)
    requires |grid| > 0 && i < |theta| && j < |grid|
    ensures Abs(cd(grid[NearestBins(cd, grid, theta)[i]], theta[i])) <= Abs(cd(grid[j], theta[i]))
    ensures j < NearestBins(cd, grid, theta)[i] ==>
      Abs(cd(grid[j], theta[i])) > Abs(cd(grid[NearestBins(cd, grid, theta)[i]], theta[i]))
  {
    var offs := GridOffsets(cd, grid, theta[i]);
    var b := NearestBins(cd, grid, theta)[i];
    assert b == ArgMin(offs);
    assert offs[j] == Abs(cd(grid[j], theta[i]));
    assert offs[b] == Abs(cd(grid[b], theta[i]));
  }

  /** An angle that lies on the grid is binned at zero offset, at or before the
      first grid point equal to it, since circ_dist(x, x) == 0. */
  lemma OnGridAngle(cd: (real, real) -> real, grid: seq<real>, angle: real, j: nat)
    requires forall x :: cd(x, x) == 0.0
    requires j < |grid| && grid[j] == angle
    ensures cd(grid[NearestBin(cd, grid, angle)], angle) == 0.0
    ensures NearestBin(cd, grid, angle) <= j
  {
    var offs := GridOffsets(cd, grid, angle);
    assert offs[j] == 0.0;
  }

  /** Grid points are told apart by circ_dist: two of them are at circular
      distance zero only when they are the same point. */
  ghost predicate SeparatedGrid(cd: (real, real) -> real, grid: seq<real>)
  {
    forall i, j :: 0 <= i < |grid| && 0 <= j < |grid| && cd(grid[i], grid[j]) == 0.0 ==> i == j
  }

  /** On a grid whose points circ_dist tells apart, an angle equal to grid point j
      is binned at j itself. */
  lemma OnSeparatedGridAngle(cd: (real, real) -> real, grid: seq<real>, j: nat)
    requires forall x :: cd(x, x) == 0.0
    requires SeparatedGrid(cd, grid)
    requires j < |grid|
    ensures NearestBin(cd, grid, grid[j]) == j
  {
    var b := NearestBin(cd, grid, grid[j]);
    var offs := GridOffsets(cd, grid, grid[j]);
    assert offs[j] == 0.0;
    assert offs[b] <= offs[j];
    assert cd(grid[b], grid[j]) == 0.0;
  }

  // ---------------------------------------------------------------------------
  // Class counts

  /** The largest label; 0 for no labels. */
  function MaxLabel(labels: seq<nat>): (m: nat)
    ensures forall i :: 0 <= i < |labels| ==> labels[i] <= m
    ensures |labels| > 0 ==> m in labels
  {
    if |labels| == 0 then 0
    else
      var m := MaxLabel(labels[..|labels| - 1]);
      assert forall i :: 0 <= i < |labels| - 1 ==> labels[..|labels| - 1][i] == labels[i];
      if labels[|labels| - 1] > m then labels[|labels| - 1] else m
  }

  /** np.bincount(labels): the number of occurrences of 0, 1, ..., max(labels);
      empty for no labels. */
  function BinCount(labels: seq<nat>): (counts: seq<nat>)
    ensures |labels| == 0 ==> counts == []
    ensures |labels| > 0 ==> |counts| == MaxLabel(labels) + 1
    ensures forall c :: 0 <= c < |counts| ==> counts[c] == multiset(labels)[c]
  {
    if |labels| == 0 then [] else seq(MaxLabel(labels) + 1, c => multiset(labels)[c])
  }

  /** Python's min over a non-empty vector of counts. */
  function MinCount(s: seq<nat>): (m: nat)
    requires |s| > 0
    ensures forall c :: 0 <= c < |s| ==> m <= s[c]
    ensures m in s
  {
    if |s| == 1 then s[0]
    else
      var m := MinCount(s[..|s| - 1]);
      assert forall c :: 0 <= c < |s| - 1 ==> s[..|s| - 1][c] == s[c];
      assert m in s[..|s| - 1];
      if s[|s| - 1] < m then s[|s| - 1] else m
  }

  /** count_min = min(np.bincount(labels)); Python's min raises ValueError for the
      empty bincount of no labels. */
  function CountMin(labels: seq<nat>): (r: Result<nat>)
    ensures r.Ok? <==> |labels| > 0
    ensures r.Err? ==> r.error == EmptyLabels
    ensures r.Ok? ==> forall c :: 0 <= c <= MaxLabel(labels) ==> r.value <= multiset(labels)[c]
    ensures r.Ok? ==> exists c :: 0 <= c <= MaxLabel(labels) && r.value == multiset(labels)[c]
  {
    if |labels| == 0 then Err(EmptyLabels)
    else
      var counts := BinCount(labels);
      Ok(MinCount(counts))
  }

  /** count_min is positive exactly when every class from 0 to the largest label
      occurs; a class missing in between makes it 0. */
  lemma CountMinPositive(labels: seq<nat>)
    requires |labels| > 0
    ensures CountMin(labels).value > 0 <==> forall c :: 0 <= c <= MaxLabel(labels) ==> c in labels
  {
    var m := CountMin(labels).value;
    if m > 0 {
      forall c | 0 <= c <= MaxLabel(labels) ensures c in labels {
        assert multiset(labels)[c] > 0;
      }
    } else {
      var c :| 0 <= c <= MaxLabel(labels) && multiset(labels)[c] == 0;
      assert c !in labels;
    }
  }
}
