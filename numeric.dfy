/** Sums and means over real sequences, the arithmetic that every stage of the
    decoders (np.sum, np.mean along one axis) is built from. */
module Numeric {

  /** Sum of a sequence, accumulated from the left. */
  function Sum(s: seq<real>): real
  {
    if |s| == 0 then 0.0 else Sum(s[..|s| - 1]) + s[|s| - 1]
  }

  /** Arithmetic mean; numpy returns NaN for an empty slice, which callers exclude. */
  function Mean(s: seq<real>): real
    requires |s| > 0
  {
    Sum(s) / (|s| as real)
  }

  lemma {:induction false} SumAppend(a: seq<real>, b: seq<real>)
    ensures Sum(a + b) == Sum(a) + Sum(b)
  {
    if |b| == 0 {
      assert a + b == a;
    } else {
      assert (a + b)[..|a + b| - 1] == a + b[..|b| - 1];
      SumAppend(a, b[..|b| - 1]);
    }
  }

  /** The sum is linear in the summands. */
  lemma {:induction false} SumLinear(c: seq<real>, a: seq<real>, b: seq<real>, x: real, y: real)
    requires |c| == |a| == |b|
    requires forall i :: 0 <= i < |c| ==> c[i] == x * a[i] + y * b[i]
    ensures Sum(c) == x * Sum(a) + y * Sum(b)
  {
    if |c| > 0 {
      var n := |c| - 1;
      SumLinear(c[..n], a[..n], b[..n], x, y);
      calc {
        Sum(c);
        Sum(c[..n]) + c[n];
        x * Sum(a[..n]) + y * Sum(b[..n]) + x * a[n] + y * b[n];
        x * (Sum(a[..n]) + a[n]) + y * (Sum(b[..n]) + b[n]);
      }
    }
  }

  lemma {:induction false} SumAdd(c: seq<real>, a: seq<real>, b: seq<real>)
    requires |c| == |a| == |b|
    requires forall i :: 0 <= i < |c| ==> c[i] == a[i] + b[i]
    ensures Sum(c) == Sum(a) + Sum(b)
  {
    forall i | 0 <= i < |c| ensures c[i] == 1.0 * a[i] + 1.0 * b[i] { }
    SumLinear(c, a, b, 1.0, 1.0);
  }

  lemma {:induction false} SumSub(c: seq<real>, a: seq<real>, b: seq<real>)
    requires |c| == |a| == |b|
    requires forall i :: 0 <= i < |c| ==> c[i] == a[i] - b[i]
    ensures Sum(c) == Sum(a) - Sum(b)
  {
    forall i | 0 <= i < |c| ensures c[i] == 1.0 * a[i] + -1.0 * b[i] { }
    SumLinear(c, a, b, 1.0, -1.0);
  }

  lemma {:induction false} SumScale(c: seq<real>, a: seq<real>, x: real)
    requires |c| == |a|
    requires forall i :: 0 <= i < |c| ==> c[i] == x * a[i]
    ensures Sum(c) == x * Sum(a)
  {
    forall i | 0 <= i < |c| ensures c[i] == x * a[i] + 0.0 * a[i] { }
    SumLinear(c, a, a, x, 0.0);
  }

  /** A sequence of n copies of v sums to n * v. */
  lemma {:induction false} SumConst(a: seq<real>, v: real)
    requires forall i :: 0 <= i < |a| ==> a[i] == v
    ensures Sum(a) == (|a| as real) * v
  {
    if |a| > 0 {
      SumConst(a[..|a| - 1], v);
    }
  }

  /** Summation is monotone. */
  lemma {:induction false} SumMono(a: seq<real>, b: seq<real>)
    requires |a| == |b|
    requires forall i :: 0 <= i < |a| ==> a[i] <= b[i]
    ensures Sum(a) <= Sum(b)
  {
    if |a| > 0 {
      SumMono(a[..|a| - 1], b[..|b| - 1]);
    }
  }

  /** A sum of non-negative terms is zero only when every term is. */
  lemma {:induction false} SumZeroNonNeg(a: seq<real>)
    requires forall i :: 0 <= i < |a| ==> a[i] >= 0.0
    ensures Sum(a) >= 0.0
    ensures Sum(a) == 0.0 <==> forall i :: 0 <= i < |a| ==> a[i] == 0.0
  {
    if |a| > 0 {
      var n := |a| - 1;
      SumZeroNonNeg(a[..n]);
      if Sum(a) == 0.0 {
        forall i | 0 <= i < |a| ensures a[i] == 0.0 {
          if i < n { assert a[..n][i] == a[i]; }
        }
      } else {
        assert !(forall i :: 0 <= i < |a| ==> a[i] == 0.0) by {
          if forall i :: 0 <= i < |a| ==> a[i] == 0.0 {
            SumConst(a, 0.0);
          }
        }
      }
    }
  }

  /** A sum of non-negative terms is at least each of its terms. */
  lemma {:induction false} SumAtLeastTerm(a: seq<real>, i: nat)
    requires i < |a|
    requires forall j :: 0 <= j < |a| ==> a[j] >= 0.0
    ensures Sum(a) >= a[i]
  {
    var n := |a| - 1;
    SumZeroNonNeg(a[..n]);
    if i < n {
      SumAtLeastTerm(a[..n], i);
    }
  }

  /** Every mean lies between a lower and an upper bound of its terms. */
  lemma {:induction false} MeanBounds(a: seq<real>, lo: real, hi: real)
    requires |a| > 0
    requires forall i :: 0 <= i < |a| ==> lo <= a[i] <= hi
    ensures lo <= Mean(a) <= hi
  {
    var los := seq(|a|, _ => lo);
    var his := seq(|a|, _ => hi);
    SumMono(los, a);
    SumMono(a, his);
    SumConst(los, lo);
    SumConst(his, hi);
    DivBounds(Sum(a), |a| as real, lo, hi);
  }

  /** n * lo <= s <= n * hi with n > 0 bounds s / n. */
  /** The product of two non-negative reals is non-negative. */
  lemma NonNegProduct(a: real, b: real)
    requires a >= 0.0 && b >= 0.0
    ensures a * b >= 0.0
  {
  }

  lemma DivBounds(s: real, n: real, lo: real, hi: real)
    requires n > 0.0
    requires n * lo <= s <= n * hi
    ensures lo <= s / n <= hi
  {
    assert s / n - lo == (s - n * lo) / n;
    assert hi - s / n == (n * hi - s) / n;
  }

  /** Entry-by-entry products of two equally long vectors. */
  function Products(a: seq<real>, b: seq<real>): (r: seq<real>)
    requires |a| == |b|
    ensures |r| == |a|
  {
    seq(|a|, j requires 0 <= j < |a| => a[j] * b[j])
  }

  /** The sum of each row of a matrix. */
  function RowSums(m: seq<seq<real>>): (r: seq<real>)
    ensures |r| == |m|
  {
    seq(|m|, i requires 0 <= i < |m| => Sum(m[i]))
  }

  function Column(m: seq<seq<real>>, j: nat): (r: seq<real>)
    requires forall i :: 0 <= i < |m| ==> j < |m[i]|
    ensures |r| == |m|
  {
    seq(|m|, i requires 0 <= i < |m| => m[i][j])
  }

  function ColumnSums(m: seq<seq<real>>, cols: nat): (r: seq<real>)
    requires forall i :: 0 <= i < |m| ==> |m[i]| == cols
    ensures |r| == cols
  {
    seq(cols, j requires 0 <= j < cols => Sum(Column(m, j)))
  }

  /** The sum of a matrix's column sums equals the sum of its row sums: the two
      orders of a double sum agree. */
  lemma {:induction false} SumSwap(m: seq<seq<real>>, cols: nat)
    requires forall i :: 0 <= i < |m| ==> |m[i]| == cols
    ensures Sum(RowSums(m)) == Sum(ColumnSums(m, cols))
  {
    if |m| == 0 {
      SumConst(ColumnSums(m, cols), 0.0);
    } else {
      var n := |m| - 1;
      var front := m[..n];
      SumSwap(front, cols);
      assert RowSums(m)[..n] == RowSums(front);
      // each column of m is the column of front extended by the last row's entry
      var prev := ColumnSums(front, cols);
      forall j | 0 <= j < cols ensures ColumnSums(m, cols)[j] == prev[j] + m[n][j] {
        assert Column(m, j)[..n] == Column(front, j);
      }
      SumAdd(ColumnSums(m, cols), prev, m[n]);
    }
  }

  /** Sum of every entry of a matrix (np.sum of a two-dimensional array). */
  function SumAll(m: seq<seq<real>>): real
  {
    Sum(RowSums(m))
  }

  /** A matrix of non-negative entries sums to zero exactly when all its entries are zero. */
  lemma {:induction false} SumAllZeroNonNeg(m: seq<seq<real>>)
    requires forall i, j :: 0 <= i < |m| && 0 <= j < |m[i]| ==> m[i][j] >= 0.0
    ensures SumAll(m) >= 0.0
    ensures SumAll(m) == 0.0 <==> forall i, j :: 0 <= i < |m| && 0 <= j < |m[i]| ==> m[i][j] == 0.0
  {
    forall i | 0 <= i < |m| ensures RowSums(m)[i] >= 0.0
      && (RowSums(m)[i] == 0.0 <==> forall j :: 0 <= j < |m[i]| ==> m[i][j] == 0.0) {
      SumZeroNonNeg(m[i]);
    }
    SumZeroNonNeg(RowSums(m));
  }

  /** A dense matrix stored by rows. */
  type Matrix = seq<seq<real>>

  predicate IsMatrix(m: Matrix, rows: nat, cols: nat)
  {
    |m| == rows && forall k :: 0 <= k < rows ==> |m[k]| == cols
  }

  /** np.mean(x, axis=0): the mean of every column. */
  function ColumnMeans(x: Matrix, n: nat): (r: seq<real>)
    requires IsMatrix(x, |x|, n) && |x| > 0
    ensures |r| == n
  {
    seq(n, j requires 0 <= j < n => Mean(Column(x, j)))
  }

  /** x - np.mean(x, axis=0): every column shifted to mean zero. */
  function Demean(x: Matrix, n: nat): (r: Matrix)
    requires IsMatrix(x, |x|, n) && |x| > 0
    ensures IsMatrix(r, |x|, n)
  {
    var mu := ColumnMeans(x, n);
    seq(|x|, k requires 0 <= k < |x| =>
      seq(n, j requires 0 <= j < n => x[k][j] - mu[j]))
  }

  /** Subtracting column means leaves columns of mean zero. */
  lemma {:induction false} DemeanedColumnSum(x: Matrix, n: nat, j: nat)
    requires IsMatrix(x, |x|, n) && |x| > 0 && j < n
    ensures Sum(Column(Demean(x, n), j)) == 0.0
  {
    var col := Column(x, j);
    var dcol := Column(Demean(x, n), j);
    var m := Mean(col);
    var ms := seq(|x|, _ => m);
    SumSub(dcol, col, ms);
    SumConst(ms, m);
    CountTimesMean(Sum(col), |x| as real);
  }

  lemma CountTimesMean(s: real, n: real)
    requires n > 0.0
    ensures n * (s / n) == s
  {
  }

  /** Demeaning twice is demeaning once: a second centring changes nothing. */
  lemma {:induction false} DemeanIdempotent(x: Matrix, n: nat)
    requires IsMatrix(x, |x|, n) && |x| > 0
    ensures Demean(Demean(x, n), n) == Demean(x, n)
  {
    var d := Demean(x, n);
    forall j | 0 <= j < n ensures Mean(Column(d, j)) == 0.0 {
      DemeanedColumnSum(x, n, j);
    }
    forall k | 0 <= k < |x| ensures Demean(d, n)[k] == d[k] {
      assert forall j :: 0 <= j < n ==> Demean(d, n)[k][j] == d[k][j] - Mean(Column(d, j));
    }
  }
}
