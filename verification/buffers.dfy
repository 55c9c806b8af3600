/** Flat row-major buffers.

    Every kernel of the library works on a contiguous buffer of `rows * cols`
    values in which cell (i, j) lives at offset `i * cols + j`. This module
    defines that addressing once, together with the facts that make it a
    bijection between in-range cells and in-range offsets, and the row and
    column views used to state what the kernels compute.
 */
module Buffers {

  /** Offset of cell (i, j) in a row-major `rows` x `cols` buffer. The offset is
      inside the buffer, and division and remainder by `cols` recover the cell. */
  function Cell(i: nat, j: nat, rows: nat, cols: nat): (p: nat)
    requires i < rows && j < cols
    ensures p < rows * cols
    ensures p / cols == i && p % cols == j
  {
    CellInRange(i, j, rows, cols);
    CellDivMod(i, j, cols);
    i * cols + j
  }

  lemma {:induction false} MulMonotone(a: nat, b: nat, c: nat)
    requires a <= b
    ensures a * c <= b * c
  {
  }

  lemma {:induction false} CellInRange(i: nat, j: nat, rows: nat, cols: nat)
    requires i < rows && j < cols
    ensures i * cols + j < rows * cols
  {
    MulMonotone(i + 1, rows, cols);
  }

  lemma {:induction false} CellDivMod(i: nat, j: nat, cols: nat)
    requires j < cols
    ensures (i * cols + j) / cols == i
    ensures (i * cols + j) % cols == j
  {
    var p := i * cols + j;
    var q := p / cols;
    var r := p % cols;
    assert q * cols + r == i * cols + j;
    if q > i {
      MulMonotone(i + 1, q, cols);
    } else if q < i {
      MulMonotone(q + 1, i, cols);
    }
  }

  /** Every offset inside a `rows` x `cols` buffer is the offset of exactly
      one in-range cell. */
  lemma {:induction false} OffsetToCell(p: nat, rows: nat, cols: nat)
    requires p < rows * cols
    ensures 0 < rows && 0 < cols
    ensures p / cols < rows && p % cols < cols
    ensures Cell(p / cols, p % cols, rows, cols) == p
  {
    assert cols != 0;
    var q := p / cols;
    if q >= rows {
      MulMonotone(rows, q, cols);
    }
  }

  /** A buffer of `n` zeros (the source's `initializer::zeros`). */
  function Zeros(n: nat): (z: seq<real>)
    ensures |z| == n
    ensures forall k :: 0 <= k < n ==> z[k] == 0.0
  {
    seq(n, k => 0.0)
  }

  /** Row i of a `rows` x `cols` buffer. */
  function Row(a: seq<real>, rows: nat, cols: nat, i: nat): (r: seq<real>)
    requires |a| == rows * cols && i < rows
    ensures |r| == cols
    ensures forall j :: 0 <= j < cols ==> r[j] == a[Cell(i, j, rows, cols)]
  {
    seq(cols, j requires 0 <= j < cols => a[Cell(i, j, rows, cols)])
  }

  /** Column j of a `rows` x `cols` buffer. */
  function Column(a: seq<real>, rows: nat, cols: nat, j: nat): (c: seq<real>)
    requires |a| == rows * cols && j < cols
    ensures |c| == rows
    ensures forall i :: 0 <= i < rows ==> c[i] == a[Cell(i, j, rows, cols)]
  {
    seq(rows, i requires 0 <= i < rows => a[Cell(i, j, rows, cols)])
  }

  /** Two buffers of the same shape are equal when they agree on every cell. */
  lemma {:induction false} CellwiseEqual(a: seq<real>, b: seq<real>, rows: nat, cols: nat)
    requires |a| == rows * cols && |b| == rows * cols
    requires forall i, j :: 0 <= i < rows && 0 <= j < cols ==> a[Cell(i, j, rows, cols)] == b[Cell(i, j, rows, cols)]
    ensures a == b
  {
    forall p | 0 <= p < rows * cols
      ensures a[p] == b[p]
    {
      OffsetToCell(p, rows, cols);
    }
  }
}
