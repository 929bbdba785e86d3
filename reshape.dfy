/** The two ways numpy lays a two-axis block out along one axis: C order (rows
    end to end, `np.reshape(..., order='C')`) and Fortran order (columns end to end,
    `order='F'`), with the index maps that say where each entry lands. */
module Reshape {
  import opened Numeric

  /** m has `rows` rows of `cols` entries each. */
  predicate Rectangular<T>(m: seq<seq<T>>, rows: nat, cols: nat)
  {
    |m| == rows && forall a :: 0 <= a < rows ==> |m[a]| == cols
  }

  /** Rows laid end to end: C order. */
  function FlattenC<T>(m: seq<seq<T>>): seq<T>
  {
    if |m| == 0 then [] else m[0] + FlattenC(m[1..])
  }

  /** Swap the two axes. */
  function Transpose<T>(m: seq<seq<T>>, rows: nat, cols: nat): (t: seq<seq<T>>)
    requires Rectangular(m, rows, cols)
    ensures Rectangular(t, cols, rows)
  {
    seq(cols, b requires 0 <= b < cols => seq(rows, a requires 0 <= a < rows => m[a][b]))
  }

  /** Columns laid end to end: Fortran order. */
  function FlattenF<T>(m: seq<seq<T>>, rows: nat, cols: nat): seq<T>
    requires Rectangular(m, rows, cols)
  {
    FlattenC(Transpose(m, rows, cols))
  }

  /** Cut a vector into `rows` consecutive pieces of `cols` entries: the C-order
      reshape of one axis into two. */
  function Unflatten<T>(v: seq<T>, rows: nat, cols: nat): (m: seq<seq<T>>)
    requires |v| == rows * cols
    ensures Rectangular(m, rows, cols)
  {
    seq(rows, j requires 0 <= j < rows => Piece(v, rows, cols, j))
  }

  function Piece<T>(v: seq<T>, rows: nat, cols: nat, j: nat): (p: seq<T>)
    requires |v| == rows * cols && j < rows
    ensures |p| == cols
  {
    PieceBounds(rows, cols, j);
    v[j * cols..j * cols + cols]
  }

  lemma PieceBounds(rows: nat, cols: nat, j: nat)
    requires j < rows
    ensures 0 <= j * cols && j * cols + cols <= rows * cols
  {
    assert j * cols + cols == (j + 1) * cols;
    MulMono(j + 1, rows, cols);
  }

  lemma PieceEntry<T>(v: seq<T>, rows: nat, cols: nat, j: nat, a: nat)
    requires |v| == rows * cols && j < rows && a < cols
    ensures j * cols + a < |v|
    ensures Unflatten(v, rows, cols)[j][a] == v[j * cols + a]
  {
    PieceBounds(rows, cols, j);
  }

  lemma MulMono(a: nat, b: nat, c: nat)
    requires a <= b
    ensures a * c <= b * c
  {
  }

  // ---------------------------------------------------------------------------
  // Index maps

  /** C order puts entry (b, a) at b * cols + a. */
  lemma {:induction false} FlattenCIndex<T>(m: seq<seq<T>>, rows: nat, cols: nat, b: nat, a: nat)
    requires Rectangular(m, rows, cols) && b < rows && a < cols
    ensures |FlattenC(m)| == rows * cols
    ensures b * cols + a < rows * cols
    ensures FlattenC(m)[b * cols + a] == m[b][a]
  {
    FlattenCLength(m, rows, cols);
    PieceBounds(rows, cols, b);
    if b > 0 {
      var rest := m[1..];
      FlattenCIndex(rest, rows - 1, cols, b - 1, a);
      assert (b - 1) * cols + a + cols == b * cols + a;
      assert FlattenC(m)[b * cols + a] == FlattenC(rest)[(b - 1) * cols + a];
    }
  }

  lemma {:induction false} FlattenCLength<T>(m: seq<seq<T>>, rows: nat, cols: nat)
    requires Rectangular(m, rows, cols)
    ensures |FlattenC(m)| == rows * cols
  {
    if rows > 0 {
      FlattenCLength(m[1..], rows - 1, cols);
      assert (rows - 1) * cols + cols == rows * cols;
    }
  }

  /** Fortran order puts entry (a, b) at a + b * rows: the first axis varies fastest. */
  lemma FlattenFIndex<T>(m: seq<seq<T>>, rows: nat, cols: nat, a: nat, b: nat)
    requires Rectangular(m, rows, cols) && a < rows && b < cols
    ensures |FlattenF(m, rows, cols)| == rows * cols
    ensures a + b * rows < rows * cols
    ensures FlattenF(m, rows, cols)[a + b * rows] == m[a][b]
  {
    var t := Transpose(m, rows, cols);
    FlattenCIndex(t, cols, rows, b, a);
    assert cols * rows == rows * cols;
  }

  /** Every position of a Fortran-order vector comes from exactly one (a, b). */
  lemma FlattenFSource(rows: nat, cols: nat, k: nat)
    requires k < rows * cols
    ensures rows > 0
    ensures k % rows < rows && k / rows < cols
    ensures k == k % rows + (k / rows) * rows
  {
    if k / rows >= cols {
      MulMono(cols, k / rows, rows);
    }
  }

  /** Cutting a C-order vector back into rows recovers the rows. */
  lemma UnflattenFlatten<T>(m: seq<seq<T>>, rows: nat, cols: nat)
    requires Rectangular(m, rows, cols)
    ensures |FlattenC(m)| == rows * cols
    ensures Unflatten(FlattenC(m), rows, cols) == m
  {
    FlattenCLength(m, rows, cols);
    var u := Unflatten(FlattenC(m), rows, cols);
    forall j | 0 <= j < rows ensures u[j] == m[j] {
      forall a | 0 <= a < cols ensures u[j][a] == m[j][a] {
        PieceEntry(FlattenC(m), rows, cols, j, a);
        FlattenCIndex(m, rows, cols, j, a);
      }
    }
  }

  /** Laying the pieces end to end again gives back the vector. */
  lemma FlattenUnflatten<T>(v: seq<T>, rows: nat, cols: nat)
    requires |v| == rows * cols
    ensures FlattenC(Unflatten(v, rows, cols)) == v
  {
    var m := Unflatten(v, rows, cols);
    FlattenCLength(m, rows, cols);
    forall k | 0 <= k < |v| ensures FlattenC(m)[k] == v[k] {
      FlattenFSource(cols, rows, k);
      var b, a := k / cols, k % cols;
      assert cols * rows == rows * cols;
      FlattenCIndex(m, rows, cols, b, a);
      PieceBounds(rows, cols, b);
    }
  }

  // ---------------------------------------------------------------------------
  // Sums over a flattened block

  /** The entries of a C-order vector sum to the sum of the row sums. */
  lemma {:induction false} SumFlattenC(m: seq<seq<real>>)
    ensures Sum(FlattenC(m)) == Sum(RowSums(m))
  {
    if |m| > 0 {
      SumFlattenC(m[1..]);
      SumAppend(m[0], FlattenC(m[1..]));
      assert RowSums(m) == [Sum(m[0])] + RowSums(m[1..]);
      SumAppend([Sum(m[0])], RowSums(m[1..]));
      assert Sum([Sum(m[0])]) == Sum(m[0]) by {
        assert [Sum(m[0])][..0] == [];
      }
    } else {
      assert RowSums(m) == [];
    }
  }

  /** The entries of a Fortran-order vector sum to the sum of the row sums too. */
  lemma SumFlattenF(m: seq<seq<real>>, rows: nat, cols: nat)
    requires Rectangular(m, rows, cols)
    ensures Sum(FlattenF(m, rows, cols)) == Sum(RowSums(m))
  {
    var t := Transpose(m, rows, cols);
    SumFlattenC(t);
    SumSwap(m, cols);
    forall b | 0 <= b < cols ensures RowSums(t)[b] == ColumnSums(m, cols)[b] {
      assert t[b] == Column(m, b);
    }
    assert RowSums(t) == ColumnSums(m, cols);
  }
}
