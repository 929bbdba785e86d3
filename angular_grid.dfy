/** The orientation grids of the circular decoders: the default 16-bin grid, the
    `ang_steps` copies shifted by fractions of the bin width, their Fortran-order
    merge `angspace_full`, and `shift_to`, the merged index of angle 0. */
module AngularGrid {
  import opened Outcomes
  import opened Reshape

  /** np.arange(-pi, pi, pi/8): 16 bins starting at -pi, pi/8 apart. */
  function DefaultAngspace(pi: real): (g: seq<real>)
    ensures |g| == 16
  {
    seq(16, i requires 0 <= i < 16 => -pi + (i as real) * (pi / 8.0))
  }

  /** np.diff(angspace)[0]; IndexError on fewer than two bins. */
  function BinWidth(angspace: seq<real>): (r: Result<real>)
    ensures r.Ok? <==> |angspace| >= 2
    ensures r.Ok? ==> angspace[0] + r.value == angspace[1]
    ensures r.Err? ==> r.error == NoBinWidth
  {
    if |angspace| < 2 then Err(NoBinWidth) else Ok(angspace[1] - angspace[0])
  }

  /** angspace + ans*bin_width/ang_steps: the grid of offset `ans`. */
  function OffsetGrid(angspace: seq<real>, width: real, ans: nat, steps: nat): (g: seq<real>)
    requires steps > 0
    ensures |g| == |angspace|
  {
    seq(|angspace|, b requires 0 <= b < |angspace| => angspace[b] + (ans as real) * width / (steps as real))
  }

  /** The offset grids as the rows of one array. */
  function OffsetGrids(angspace: seq<real>, width: real, steps: nat): (gs: seq<seq<real>>)
    requires steps > 0
    ensures Rectangular(gs, steps, |angspace|)
  {
    seq(steps, a requires 0 <= a < steps => OffsetGrid(angspace, width, a, steps))
  }

  /** The rows of a two-dimensional array. */
  function Rows(m: array2<real>): (r: seq<seq<real>>)
    reads m
    ensures Rectangular(r, m.Length0, m.Length1)
  {
    seq(m.Length0, a requires 0 <= a < m.Length0 reads m =>
      seq(m.Length1, b requires 0 <= b < m.Length1 reads m => m[a, b]))
  }

  /** The loop that fills `angspaces` row by row. */
  method BuildAngspaces(angspace: seq<real>, width: real, steps: nat) returns (angspaces: array2<real>)
    requires steps > 0
    ensures fresh(angspaces)
    ensures angspaces.Length0 == steps && angspaces.Length1 == |angspace|
    ensures Rows(angspaces) == OffsetGrids(angspace, width, steps)
  {
    angspaces := new real[steps, |angspace|]((_, _) => 0.0);
    var ans := 0;
    while ans < steps
      invariant 0 <= ans <= steps
      invariant forall a, b :: 0 <= a < ans && 0 <= b < |angspace| ==>
        angspaces[a, b] == OffsetGrid(angspace, width, a, steps)[b]
    {
      var temp := OffsetGrid(angspace, width, ans, steps);
      var b := 0;
      while b < |angspace|
        invariant 0 <= b <= |angspace|
        invariant forall a, b' :: 0 <= a < ans && 0 <= b' < |angspace| ==>
          angspaces[a, b'] == OffsetGrid(angspace, width, a, steps)[b']
        invariant forall b' :: 0 <= b' < b ==> angspaces[ans, b'] == temp[b']
      {
        angspaces[ans, b] := temp[b];
        b := b + 1;
      }
      ans := ans + 1;
    }
    GridRows(angspaces, angspace, width, steps);
  }

  lemma GridRows(m: array2<real>, angspace: seq<real>, width: real, steps: nat)
    requires steps > 0 && m.Length0 == steps && m.Length1 == |angspace|
    requires forall a, b :: 0 <= a < steps && 0 <= b < |angspace| ==> m[a, b] == OffsetGrid(angspace, width, a, steps)[b]
    ensures Rows(m) == OffsetGrids(angspace, width, steps)
  {
    forall a | 0 <= a < steps ensures Rows(m)[a] == OffsetGrids(angspace, width, steps)[a] {
      assert forall b :: 0 <= b < |angspace| ==> Rows(m)[a][b] == OffsetGrids(angspace, width, steps)[a][b];
    }
  }

  /** np.reshape(angspaces, ang_steps*len(angspace), order='F'). */
  function FullGrid(angspace: seq<real>, width: real, steps: nat): (full: seq<real>)
    requires steps > 0
  {
    FlattenF(OffsetGrids(angspace, width, steps), steps, |angspace|)
  }

  /** The merged grid lists bin 0 at every offset, then bin 1 at every offset, and
      so on: offset `ans` of bin `b` sits at ans + b*ang_steps. */
  lemma FullGridIndex(angspace: seq<real>, width: real, steps: nat, ans: nat, b: nat)
    requires steps > 0 && ans < steps && b < |angspace|
    ensures |FullGrid(angspace, width, steps)| == steps * |angspace|
    ensures ans + b * steps < steps * |angspace|
    ensures FullGrid(angspace, width, steps)[ans + b * steps] == angspace[b] + (ans as real) * width / (steps as real)
  {
    FlattenFIndex(OffsetGrids(angspace, width, steps), steps, |angspace|, ans, b);
  }

  /** shift_to = np.where(angspace_full == 0)[0][0]: the first index holding angle
      0; IndexError when there is none. */
  function ShiftTo(full: seq<real>): (r: Result<nat>)
    ensures r.Ok? <==> 0.0 in full
    ensures r.Err? ==> r.error == NoZeroBin
    ensures r.Ok? ==> r.value < |full| && full[r.value] == 0.0
    ensures r.Ok? ==> forall k :: 0 <= k < r.value ==> full[k] != 0.0
  {
    if |full| == 0 then Err(NoZeroBin)
    else if full[0] == 0.0 then Ok(0)
    else
      match ShiftTo(full[1..])
      case Ok(k) => Ok(k + 1)
      case Err(e) => Err(e)
  }

  // ---------------------------------------------------------------------------
  // Evenly spaced grids

  /** The grid starts at `start` and steps by `width`. */
  predicate EvenlySpaced(g: seq<real>, start: real, width: real)
  {
    forall b :: 0 <= b < |g| ==> g[b] == start + (b as real) * width
  }

  /** Merging the offset copies of an evenly spaced grid gives the fine grid with
      step width/ang_steps, in increasing order when the width is positive. */
  lemma FullGridEvenlySpaced(angspace: seq<real>, start: real, width: real, steps: nat)
    requires steps > 0 && EvenlySpaced(angspace, start, width)
    ensures |FullGrid(angspace, width, steps)| == steps * |angspace|
    ensures EvenlySpaced(FullGrid(angspace, width, steps), start, width / (steps as real))
  {
    var full := FullGrid(angspace, width, steps);
    FlattenFLength(OffsetGrids(angspace, width, steps), steps, |angspace|);
    forall a, b | 0 <= a < steps && 0 <= b < |angspace|
      ensures Pos(a, b, steps) < |full|
      ensures full[Pos(a, b, steps)] == angspace[b] + (a as real) * width / (steps as real)
    {
      FullGridIndex(angspace, width, steps, a, b);
    }
    MergedEvenlySpaced(full, angspace, start, width, steps);
  }

  /** Where offset a of bin b lands in the merged grid. */
  function Pos(a: nat, b: nat, steps: nat): nat
  {
    a + b * steps
  }

  lemma MergedEvenlySpaced(full: seq<real>, angspace: seq<real>, start: real, width: real, steps: nat)
    requires steps > 0 && EvenlySpaced(angspace, start, width) && |full| == steps * |angspace|
    requires forall a, b :: 0 <= a < steps && 0 <= b < |angspace| ==>
      Pos(a, b, steps) < |full| && full[Pos(a, b, steps)] == angspace[b] + (a as real) * width / (steps as real)
    ensures EvenlySpaced(full, start, width / (steps as real))
  {
    forall k | 0 <= k < |full| ensures full[k] == start + (k as real) * (width / (steps as real)) {
      MergedAt(full, angspace, start, width, steps, k);
    }
  }

  /** One entry of the merged grid: entry k is shift k % steps of grid point k / steps. */
  lemma MergedAt(full: seq<real>, angspace: seq<real>, start: real, width: real, steps: nat, k: nat)
    requires steps > 0 && EvenlySpaced(angspace, start, width) && |full| == steps * |angspace| && k < |full|
    requires forall a, b :: 0 <= a < steps && 0 <= b < |angspace| ==>
      Pos(a, b, steps) < |full| && full[Pos(a, b, steps)] == angspace[b] + (a as real) * width / (steps as real)
    ensures full[k] == start + (k as real) * (width / (steps as real))
  {
    var a, b := Decompose(steps, |angspace|, k);
    assert full[k] == angspace[b] + (a as real) * width / (steps as real);
    MergedEntry(full[k], angspace[b], start, width, a, b, steps, k);
  }

  /** Every position below steps * cols is Pos(a, b, steps) of one shift a and one grid point b. */
  lemma Decompose(steps: nat, cols: nat, k: nat) returns (a: nat, b: nat)
    requires k < steps * cols
    ensures a < steps && b < cols && Pos(a, b, steps) == k
  {
    FlattenFSource(steps, cols, k);
    a, b := k % steps, k / steps;
  }

  lemma FlattenFLength(m: seq<seq<real>>, rows: nat, cols: nat)
    requires Rectangular(m, rows, cols)
    ensures |FlattenF(m, rows, cols)| == rows * cols
  {
    FlattenCLength(Transpose(m, rows, cols), cols, rows);
    assert cols * rows == rows * cols;
  }

  lemma MergedEntry(x: real, g: real, start: real, width: real, a: nat, b: nat, steps: nat, k: nat)
    requires steps > 0 && k == a + b * steps
    requires g == start + (b as real) * width
    requires x == g + (a as real) * width / (steps as real)
    ensures x == start + (k as real) * (width / (steps as real))
  {
    CastSum(a, b, steps, k);
    FineStep(x, start, a as real, b as real, steps as real, k as real, width);
  }

  lemma CastSum(a: nat, b: nat, s: nat, k: nat)
    requires k == a + b * s
    ensures k as real == a as real + (b as real) * (s as real)
  {
  }

  lemma FineStep(x: real, start: real, a: real, b: real, s: real, k: real, w: real)
    requires s > 0.0 && k == a + b * s
    requires x == start + b * w + a * w / s
    ensures x == start + k * (w / s)
  {
    assert b * w + a * w / s == (a + b * s) * (w / s);
  }

  /** On the default grid with positive pi, angle 0 is the centre of the merged
      grid: shift_to == 8 * ang_steps, so np.roll moves each trial's own bin to the
      middle. */
  lemma DefaultShiftTo(pi: real, steps: nat)
    requires pi > 0.0 && steps > 0
    ensures ShiftTo(FullGrid(DefaultAngspace(pi), pi / 8.0, steps)) == Ok(8 * steps)
  {
    var full := FullGrid(DefaultAngspace(pi), pi / 8.0, steps);
    FullGridEvenlySpaced(DefaultAngspace(pi), -pi, pi / 8.0, steps);
    var fine := pi / 8.0 / (steps as real);
    assert full[8 * steps] == -pi + ((8 * steps) as real) * fine;
    CentreIsZero(pi, steps as real, (8 * steps) as real);
    forall k | 0 <= k < 8 * steps ensures full[k] != 0.0 {
      BeforeCentre(pi, steps as real, k as real);
    }
    ShiftToFirst(full, 8 * steps);
  }

  lemma CentreIsZero(pi: real, s: real, k: real)
    requires s > 0.0 && k == 8.0 * s
    ensures -pi + k * (pi / 8.0 / s) == 0.0
  {
  }

  lemma BeforeCentre(pi: real, s: real, k: real)
    requires pi > 0.0 && s > 0.0 && 0.0 <= k < 8.0 * s
    ensures -pi + k * (pi / 8.0 / s) < 0.0
  {
  }

  /** ShiftTo finds the first zero. */
  lemma ShiftToFirst(full: seq<real>, k: nat)
    requires k < |full| && full[k] == 0.0
    requires forall j :: 0 <= j < k ==> full[j] != 0.0
    ensures ShiftTo(full) == Ok(k)
  {
  }
}
