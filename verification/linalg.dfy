/** The two linear-algebra primitives every other kernel is built on:
    a materialising transpose and a dense matrix product, both over flat
    row-major buffers. */
module LinAlg {
  import opened Buffers
  import opened Sums

  /** Copy of the `rows` x `cols` buffer `a` laid out as a `cols` x `rows`
      buffer: input cell (i, j) lands in output cell (j, i). */
  function Transpose(a: seq<real>, rows: nat, cols: nat): (t: seq<real>)
    requires |a| == rows * cols
    ensures |t| == rows * cols
    ensures forall i, j :: 0 <= i < rows && 0 <= j < cols ==> t[Cell(j, i, cols, rows)] == a[Cell(i, j, rows, cols)]
  {
    seq(rows * cols, p requires 0 <= p < rows * cols =>
      OffsetToCell(p, cols, rows);
      a[Cell(p % rows, p / rows, rows, cols)])
  }

  /** Product of the `m` x `n` buffer `in1` and the `n` x `l` buffer `in2`,
      written into the first `m * l` cells of `out`. Cell (i, j) becomes the
      inner product of row i of `in1` and column j of `in2`; what `out` held
      there before plays no part, and cells past `m * l` keep their contents. */
  function MatMul(in1: seq<real>, in2: seq<real>, out: seq<real>, m: nat, n: nat, l: nat): (r: seq<real>)
    requires |in1| == m * n && |in2| == n * l && m * l <= |out|
    ensures |r| == |out|
    ensures forall i, j :: 0 <= i < m && 0 <= j < l ==>
              r[Cell(i, j, m, l)] == Inner(Row(in1, m, n, i), Column(in2, n, l, j))
    ensures forall p :: m * l <= p < |out| ==> r[p] == out[p]
  {
    seq(|out|, p requires 0 <= p < |out| =>
      if p < m * l then
        OffsetToCell(p, m, l);
        Inner(Row(in1, m, n, p / l), Column(in2, n, l, p % l))
      else
        out[p])
  }

  /** Row j of a transposed buffer is column j of the original. */
  lemma {:induction false} RowOfTranspose(a: seq<real>, rows: nat, cols: nat, j: nat)
    requires |a| == rows * cols && j < cols
    ensures Row(Transpose(a, rows, cols), cols, rows, j) == Column(a, rows, cols, j)
  {
  }

  /** Column i of a transposed buffer is row i of the original. */
  lemma {:induction false} ColumnOfTranspose(a: seq<real>, rows: nat, cols: nat, i: nat)
    requires |a| == rows * cols && i < rows
    ensures Column(Transpose(a, rows, cols), cols, rows, i) == Row(a, rows, cols, i)
  {
  }

  /** Transposing twice, with the dimensions swapped the second time, gives
      back the original buffer. */
  lemma {:induction false} TransposeInvolution(a: seq<real>, rows: nat, cols: nat)
    requires |a| == rows * cols
    ensures Transpose(Transpose(a, rows, cols), cols, rows) == a
  {
    var t := Transpose(a, rows, cols);
    var tt := Transpose(t, cols, rows);
    forall i, j | 0 <= i < rows && 0 <= j < cols
      ensures tt[Cell(i, j, rows, cols)] == a[Cell(i, j, rows, cols)]
    {
      assert tt[Cell(i, j, rows, cols)] == t[Cell(j, i, cols, rows)];
    }
    CellwiseEqual(tt, a, rows, cols);
  }

  /** The earlier contents of the first `m * l` cells of `out` do not affect the product. */
  lemma {:induction false} MatMulOverwrites(in1: seq<real>, in2: seq<real>, out1: seq<real>, out2: seq<real>, m: nat, n: nat, l: nat)
    requires |in1| == m * n && |in2| == n * l && m * l <= |out1| && |out1| == |out2|
    requires forall p :: m * l <= p < |out1| ==> out1[p] == out2[p]
    ensures MatMul(in1, in2, out1, m, n, l) == MatMul(in1, in2, out2, m, n, l)
  {
  }

  /** The transpose of a product is the product of the transposes in reverse
      order: (A B)^T == B^T A^T. */
  lemma {:induction false} TransposeOfProduct(a: seq<real>, b: seq<real>, m: nat, n: nat, l: nat)
    requires |a| == m * n && |b| == n * l
    ensures Transpose(MatMul(a, b, Zeros(m * l), m, n, l), m, l)
         == MatMul(Transpose(b, n, l), Transpose(a, m, n), Zeros(l * m), l, n, m)
  {
    var ab := MatMul(a, b, Zeros(m * l), m, n, l);
    var lhs := Transpose(ab, m, l);
    var rhs := MatMul(Transpose(b, n, l), Transpose(a, m, n), Zeros(l * m), l, n, m);
    forall j, i | 0 <= j < l && 0 <= i < m
      ensures lhs[Cell(j, i, l, m)] == rhs[Cell(j, i, l, m)]
    {
      RowOfTranspose(b, n, l, j);
      ColumnOfTranspose(a, m, n, i);
      InnerSymmetric(Row(a, m, n, i), Column(b, n, l, j));
    }
    CellwiseEqual(lhs, rhs, l, m);
  }

  /** Multiplying by a twice-transposed left operand is multiplying by the
      operand itself. */
  lemma {:induction false} MatMulOfDoubleTranspose(a: seq<real>, b: seq<real>, out: seq<real>, m: nat, n: nat, l: nat)
    requires |a| == m * n && |b| == n * l && m * l <= |out|
    ensures MatMul(Transpose(Transpose(a, m, n), n, m), b, out, m, n, l) == MatMul(a, b, out, m, n, l)
  {
    TransposeInvolution(a, m, n);
  }
}
