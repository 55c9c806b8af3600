/** The affine (Linear) layer kernels: Y = X W^T + b and its gradients.
    X is `batch` x `inFeatures`, W is `outFeatures` x `inFeatures`, b and
    the bias gradient have `outFeatures` entries. */
module Linear {
  import opened Buffers
  import opened Sums
  import opened LinAlg

  /** X W^T, computed as in the source by transposing W and multiplying:
      output cell (b, o) is the inner product of sample b with row o of W. */
  function LinearForward(x: seq<real>, w: seq<real>, result: seq<real>, batch: nat, inFeatures: nat, outFeatures: nat): (r: seq<real>)
    requires |x| == batch * inFeatures && |w| == outFeatures * inFeatures
    requires |result| == batch * outFeatures
    ensures |r| == batch * outFeatures
    ensures forall b, o :: 0 <= b < batch && 0 <= o < outFeatures ==>
              r[Cell(b, o, batch, outFeatures)] == Inner(Row(x, batch, inFeatures, b), Row(w, outFeatures, inFeatures, o))
  {
    var wt := Transpose(w, outFeatures, inFeatures);
    var r := MatMul(x, wt, result, batch, inFeatures, outFeatures);
    assert forall o :: 0 <= o < outFeatures ==>
        Column(wt, inFeatures, outFeatures, o) == Row(w, outFeatures, inFeatures, o) by {
      forall o | 0 <= o < outFeatures {
        ColumnOfTranspose(w, outFeatures, inFeatures, o);
      }
    }
    r
  }

  /** Broadcast-adds the bias to every sample: cell (s, i) grows by b[i]. */
  function LinearAddBias(bias: seq<real>, result: seq<real>, batch: nat, outFeatures: nat): (r: seq<real>)
    requires |bias| == outFeatures && |result| == batch * outFeatures
    ensures |r| == |result|
    ensures forall s, i :: 0 <= s < batch && 0 <= i < outFeatures ==>
              r[Cell(s, i, batch, outFeatures)] == result[Cell(s, i, batch, outFeatures)] + bias[i]
  {
    seq(|result|, p requires 0 <= p < |result| =>
      OffsetToCell(p, batch, outFeatures);
      result[p] + bias[p % outFeatures])
  }

  /** Forward followed by the bias add is the affine map X W^T + b. */
  lemma {:induction false} AffineForward(x: seq<real>, w: seq<real>, bias: seq<real>, result: seq<real>, batch: nat, inFeatures: nat, outFeatures: nat)
    requires |x| == batch * inFeatures && |w| == outFeatures * inFeatures
    requires |bias| == outFeatures && |result| == batch * outFeatures
    ensures var y := LinearAddBias(bias, LinearForward(x, w, result, batch, inFeatures, outFeatures), batch, outFeatures);
            forall b, o :: 0 <= b < batch && 0 <= o < outFeatures ==>
              y[Cell(b, o, batch, outFeatures)] == Inner(Row(x, batch, inFeatures, b), Row(w, outFeatures, inFeatures, o)) + bias[o]
  {
  }

  /** The two gradients of the Linear layer. */
  datatype LinearGrads = LinearGrads(dW: seq<real>, gradInput: seq<real>)

  /** dW = grad_output^T X and grad_input = grad_output W. Both buffers are
      overwritten: the kernel computes them with `MatMul`, which resets each
      cell, so nothing is accumulated into the earlier `dW`. */
  function LinearBackward(input: seq<real>, w: seq<real>, gradOutput: seq<real>, dW: seq<real>, gradInput: seq<real>,
                          batch: nat, inFeatures: nat, outFeatures: nat): (g: LinearGrads)
    requires |input| == batch * inFeatures && |w| == outFeatures * inFeatures
    requires |gradOutput| == batch * outFeatures
    requires |dW| == outFeatures * inFeatures && |gradInput| == batch * inFeatures
    ensures |g.dW| == outFeatures * inFeatures && |g.gradInput| == batch * inFeatures
    ensures forall o, k :: 0 <= o < outFeatures && 0 <= k < inFeatures ==>
              g.dW[Cell(o, k, outFeatures, inFeatures)]
                == Inner(Column(gradOutput, batch, outFeatures, o), Column(input, batch, inFeatures, k))
    ensures forall b, k :: 0 <= b < batch && 0 <= k < inFeatures ==>
              g.gradInput[Cell(b, k, batch, inFeatures)]
                == Inner(Row(gradOutput, batch, outFeatures, b), Column(w, outFeatures, inFeatures, k))
  {
    var goT := Transpose(gradOutput, batch, outFeatures);
    var newDW := MatMul(goT, input, dW, outFeatures, batch, inFeatures);
    assert forall o :: 0 <= o < outFeatures ==>
        Row(goT, outFeatures, batch, o) == Column(gradOutput, batch, outFeatures, o) by {
      forall o | 0 <= o < outFeatures {
        RowOfTranspose(gradOutput, batch, outFeatures, o);
      }
    }
    LinearGrads(newDW, MatMul(gradOutput, w, gradInput, batch, outFeatures, inFeatures))
  }

  /** The weight and input gradients do not depend on what the output
      buffers held before the call. */
  lemma {:induction false} LinearBackwardOverwrites(input: seq<real>, w: seq<real>, gradOutput: seq<real>,
                                 dW1: seq<real>, gradInput1: seq<real>, dW2: seq<real>, gradInput2: seq<real>,
                                 batch: nat, inFeatures: nat, outFeatures: nat)
    requires |input| == batch * inFeatures && |w| == outFeatures * inFeatures
    requires |gradOutput| == batch * outFeatures
    requires |dW1| == outFeatures * inFeatures && |gradInput1| == batch * inFeatures
    requires |dW2| == outFeatures * inFeatures && |gradInput2| == batch * inFeatures
    ensures LinearBackward(input, w, gradOutput, dW1, gradInput1, batch, inFeatures, outFeatures)
         == LinearBackward(input, w, gradOutput, dW2, gradInput2, batch, inFeatures, outFeatures)
  {
    var g1 := LinearBackward(input, w, gradOutput, dW1, gradInput1, batch, inFeatures, outFeatures);
    var g2 := LinearBackward(input, w, gradOutput, dW2, gradInput2, batch, inFeatures, outFeatures);
    CellwiseEqual(g1.dW, g2.dW, outFeatures, inFeatures);
    CellwiseEqual(g1.gradInput, g2.gradInput, batch, inFeatures);
  }

  /** Bias gradient: db[j] is set to the sum of column j of `gradOutput`.
      The loops follow the source: one running sum per column, started at 0
      and stored over whatever `db` held. */
  method LinearBiasBackward(gradOutput: seq<real>, db: seq<real>, batch: nat, outFeatures: nat) returns (r: seq<real>)
    requires |gradOutput| == batch * outFeatures && |db| == outFeatures
    ensures |r| == outFeatures
    ensures forall j :: 0 <= j < outFeatures ==> r[j] == Sum(Column(gradOutput, batch, outFeatures, j))
  {
    r := db;
    for j := 0 to outFeatures
      invariant |r| == outFeatures
      invariant forall j' :: 0 <= j' < j ==> r[j'] == Sum(Column(gradOutput, batch, outFeatures, j'))
    {
      var column := Column(gradOutput, batch, outFeatures, j);
      var sum := 0.0;
      for i := 0 to batch
        invariant sum == Sum(column[..i])
      {
        SumPrefix(column, i);
        sum := sum + gradOutput[Cell(i, j, batch, outFeatures)];
      }
      assert column[..batch] == column;
      r := r[j := sum];
    }
  }
}
