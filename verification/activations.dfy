/** Elementwise and row-wise activation kernels: ReLU forward and backward,
    and the softmax backward pass (the softmax forward pass needs `exp` and
    is not part of this model). */
module Activations {
  import opened Buffers
  import opened Sums

  /** ReLU: positive entries pass through, every other entry becomes 0. */
  function ReLUForward(input: seq<real>): (out: seq<real>)
    ensures |out| == |input|
    ensures forall i :: 0 <= i < |input| && input[i] > 0.0 ==> out[i] == input[i]
    ensures forall i :: 0 <= i < |input| && input[i] <= 0.0 ==> out[i] == 0.0
    ensures forall i :: 0 <= i < |out| ==> out[i] >= 0.0
  {
    seq(|input|, i requires 0 <= i < |input| => if input[i] > 0.0 then input[i] else 0.0)
  }

  /** Applying ReLU to its own output changes nothing. */
  lemma {:induction false} ReLUForwardIdempotent(input: seq<real>)
    ensures ReLUForward(ReLUForward(input)) == ReLUForward(input)
  {
  }

  /** ReLU backward over a `batch` x `features` buffer: the gradient flows
      exactly where the pre-activation input was positive. */
  function ReLUBackward(input: seq<real>, gradOutput: seq<real>, batch: nat, features: nat): (gradInput: seq<real>)
    requires |input| == batch * features && |gradOutput| == batch * features
    ensures |gradInput| == batch * features
    ensures forall i :: 0 <= i < |input| && input[i] > 0.0 ==> gradInput[i] == gradOutput[i]
    ensures forall i :: 0 <= i < |input| && input[i] <= 0.0 ==> gradInput[i] == 0.0
  {
    seq(batch * features, i requires 0 <= i < batch * features => if input[i] > 0.0 then gradOutput[i] else 0.0)
  }

  /** Masking by the forward output instead of the input gives the same
      gradient: ReLU's output is positive exactly where its input is. */
  lemma {:induction false} ReLUBackwardMaskFromOutput(input: seq<real>, gradOutput: seq<real>, batch: nat, features: nat)
    requires |input| == batch * features && |gradOutput| == batch * features
    ensures ReLUBackward(ReLUForward(input), gradOutput, batch, features) == ReLUBackward(input, gradOutput, batch, features)
  {
  }

  /** The softmax Jacobian-vector product for one cell: y * (g - k). */
  function SoftmaxCellGrad(y: real, g: real, k: real): real
  {
    y * (g - k)
  }

  /** Softmax backward, row by row: with k_i the inner product of row i of
      `gradOutput` and row i of `output`, cell (i, j) becomes
      output[i, j] * (gradOutput[i, j] - k_i). */
  function SoftmaxBackward(gradOutput: seq<real>, output: seq<real>, batch: nat, inFeatures: nat): (gradInput: seq<real>)
    requires |gradOutput| == batch * inFeatures && |output| == batch * inFeatures
    ensures |gradInput| == batch * inFeatures
    ensures forall i, j :: 0 <= i < batch && 0 <= j < inFeatures ==>
              gradInput[Cell(i, j, batch, inFeatures)]
                == SoftmaxCellGrad(output[Cell(i, j, batch, inFeatures)], gradOutput[Cell(i, j, batch, inFeatures)],
                                   Inner(Row(gradOutput, batch, inFeatures, i), Row(output, batch, inFeatures, i)))
  {
    var k := seq(batch, i requires 0 <= i < batch =>
      Inner(Row(gradOutput, batch, inFeatures, i), Row(output, batch, inFeatures, i)));
    seq(batch * inFeatures, p requires 0 <= p < batch * inFeatures =>
      OffsetToCell(p, batch, inFeatures);
      SoftmaxCellGrad(output[p], gradOutput[p], k[p / inFeatures]))
  }

  /** When a row of the softmax output sums to 1, as a softmax row does,
      the matching row of the input gradient sums to 0. */
  lemma {:induction false} SoftmaxBackwardRowSumZero(gradOutput: seq<real>, output: seq<real>, batch: nat, inFeatures: nat, i: nat)
    requires |gradOutput| == batch * inFeatures && |output| == batch * inFeatures && i < batch
    requires Sum(Row(output, batch, inFeatures, i)) == 1.0
    ensures Sum(Row(SoftmaxBackward(gradOutput, output, batch, inFeatures), batch, inFeatures, i)) == 0.0
  {
    var gi := Row(SoftmaxBackward(gradOutput, output, batch, inFeatures), batch, inFeatures, i);
    var go := Row(gradOutput, batch, inFeatures, i);
    var out := Row(output, batch, inFeatures, i);
    var k := Inner(go, out);
    forall j | 0 <= j < inFeatures
      ensures gi[j] == SoftmaxCellGrad(out[j], go[j], k)
    {
      SoftmaxBackwardRowEntry(gradOutput, output, batch, inFeatures, i, j);
    }
    SumSoftmaxCellGrads(out, go, gi, k);
  }

  /** Summing y * (g - k) over a row gives <g, y> - k * sum(y). */
  lemma {:induction false} SumSoftmaxCellGrads(y: seq<real>, g: seq<real>, gi: seq<real>, k: real)
    requires |y| == |g| && |gi| == |g|
    requires forall j :: 0 <= j < |gi| ==> gi[j] == SoftmaxCellGrad(y[j], g[j], k)
    ensures Sum(gi) == Inner(g, y) - k * Sum(y)
  {
    var prod := Products(g, y);
    forall j | 0 <= j < |gi|
      ensures gi[j] == 1.0 * prod[j] + (-k) * y[j]
    {
      SoftmaxCellGradExpanded(y[j], g[j], k, prod[j]);
    }
    SumLinear(prod, y, gi, 1.0, -k);
  }

  /** Entry j of row i of the softmax input gradient, read through the row views. */
  lemma {:induction false} SoftmaxBackwardRowEntry(gradOutput: seq<real>, output: seq<real>, batch: nat, inFeatures: nat, i: nat, j: nat)
    requires |gradOutput| == batch * inFeatures && |output| == batch * inFeatures && i < batch && j < inFeatures
    ensures var go := Row(gradOutput, batch, inFeatures, i);
            var out := Row(output, batch, inFeatures, i);
            Row(SoftmaxBackward(gradOutput, output, batch, inFeatures), batch, inFeatures, i)[j]
              == SoftmaxCellGrad(out[j], go[j], Inner(go, out))
  {
  }

  /** y * (g - k) written as a linear combination of g * y and y. */
  lemma SoftmaxCellGradExpanded(y: real, g: real, k: real, gy: real)
    requires gy == g * y
    ensures SoftmaxCellGrad(y, g, k) == 1.0 * gy + (-k) * y
  {
  }
}
