/** One-dimensional batch normalisation over a `rows` x `cols` buffer: one
    sample per row, one feature per column.

    `std::sqrt` is not modelled; the kernels take it as the parameter `sqrt`,
    of which they assume only that a positive argument has a positive root.
    The source divides by sqrt(var + eps); where var + eps <= 0 that quotient
    is infinite or NaN, so every kernel here requires var + eps > 0. */
module BatchNorm {
  import opened Buffers
  import opened Sums

  /** What is assumed of `std::sqrt`: a positive argument has a positive root. */
  ghost predicate PositiveRoot(sqrt: real -> real)
  {
    forall v :: 0.0 < v ==> 0.0 < sqrt(v)
  }

  /** std = sqrt(var + eps) is taken of a positive value in every column. */
  predicate StdDefined(variance: seq<real>, eps: real)
  {
    forall j :: 0 <= j < |variance| ==> 0.0 < variance[j] + eps
  }

  // ---------------------------------------------------------------------------
  // Reference statistics
  // ---------------------------------------------------------------------------

  /** Mean of column j; 0 for an empty batch. */
  function ColumnMean(a: seq<real>, rows: nat, cols: nat, j: nat): real
    requires |a| == rows * cols && j < cols
  {
    if rows == 0 then 0.0 else Sum(Column(a, rows, cols, j)) / rows as real
  }

  /** The mean of every column. */
  function ColumnMeans(a: seq<real>, rows: nat, cols: nat): (m: seq<real>)
    requires |a| == rows * cols
    ensures |m| == cols
    ensures forall j :: 0 <= j < cols ==> m[j] == ColumnMean(a, rows, cols, j)
  {
    seq(cols, j requires 0 <= j < cols => ColumnMean(a, rows, cols, j))
  }

  /** Deviations of column j from its mean. */
  function Deviations(a: seq<real>, rows: nat, cols: nat, j: nat): (d: seq<real>)
    requires |a| == rows * cols && j < cols
    ensures |d| == rows
    ensures forall i :: 0 <= i < rows ==> d[i] == a[Cell(i, j, rows, cols)] - ColumnMean(a, rows, cols, j)
  {
    seq(rows, i requires 0 <= i < rows => a[Cell(i, j, rows, cols)] - ColumnMean(a, rows, cols, j))
  }

  /** Every entry squared. Callers need only that squares are not negative,
      and that the squares of equal sequences are equal, so the product
      itself is not exported. */
  function Squares(s: seq<real>): (sq: seq<real>)
    ensures |sq| == |s|
    ensures forall k :: 0 <= k < |sq| ==> 0.0 <= sq[k]
  {
    seq(|s|, k requires 0 <= k < |s| => s[k] * s[k])
  }

  /** Biased variance of column j: the mean squared deviation, dividing by
      the number of rows; 0 for an empty batch. */
  function ColumnVariance(a: seq<real>, rows: nat, cols: nat, j: nat): (v: real)
    requires |a| == rows * cols && j < cols
    ensures 0.0 <= v
  {
    if rows == 0 then 0.0
    else
      var squares := Squares(Deviations(a, rows, cols, j));
      SumNonNegative(squares);
      Sum(squares) / rows as real
  }

  /** The biased variance of every column. */
  function ColumnVariances(a: seq<real>, rows: nat, cols: nat): (v: seq<real>)
    requires |a| == rows * cols
    ensures |v| == cols
    ensures forall j :: 0 <= j < cols ==> v[j] == ColumnVariance(a, rows, cols, j)
    ensures forall j :: 0 <= j < cols ==> 0.0 <= v[j]
  {
    seq(cols, j requires 0 <= j < cols => ColumnVariance(a, rows, cols, j))
  }

  // ---------------------------------------------------------------------------
  // Forward pass, step by step as the kernel computes it
  // ---------------------------------------------------------------------------

  /** input_mean: every sample adds x / rows into the mean of its column. */
  function BatchMean(input: seq<real>, rows: nat, cols: nat): (mean: seq<real>)
    requires |input| == rows * cols
    ensures mean == ColumnMeans(input, rows, cols)
  {
    var mean := seq(cols, j requires 0 <= j < cols => Sum(Quotients(Column(input, rows, cols, j), rows as real)));
    forall j | 0 <= j < cols
      ensures mean[j] == ColumnMeans(input, rows, cols)[j]
    {
      if rows > 0 {
        SumDivide(Column(input, rows, cols, j), Quotients(Column(input, rows, cols, j), rows as real), rows as real);
      }
    }
    mean
  }

  /** input_centered: `center[j]` subtracted from every cell of column j. */
  function Center(input: seq<real>, center: seq<real>, rows: nat, cols: nat): (c: seq<real>)
    requires |input| == rows * cols && |center| == cols
    ensures |c| == rows * cols
    ensures forall i, j :: 0 <= i < rows && 0 <= j < cols ==>
              c[Cell(i, j, rows, cols)] == input[Cell(i, j, rows, cols)] - center[j]
  {
    seq(rows * cols, p requires 0 <= p < rows * cols =>
      OffsetToCell(p, rows, cols);
      input[p] - center[p % cols])
  }

  /** input_var: every sample adds c * c / rows into the variance of its column. */
  function BatchVariance(centered: seq<real>, rows: nat, cols: nat): (v: seq<real>)
    requires |centered| == rows * cols
    ensures |v| == cols
    ensures forall j :: 0 <= j < cols ==> 0.0 <= v[j]
  {
    seq(cols, j requires 0 <= j < cols => MeanSquare(Column(centered, rows, cols, j), rows))
  }

  /** One column of input_var: the sum of c * c / rows over the column. */
  function MeanSquare(c: seq<real>, rows: nat): (v: real)
    requires |c| == rows
    ensures 0.0 <= v
  {
    var terms := Quotients(Squares(c), rows as real);
    NonNegativeQuotients(Squares(c), rows as real);
    SumNonNegative(terms);
    Sum(terms)
  }

  /** Non-negative entries divided by a positive number stay non-negative. */
  lemma {:induction false} NonNegativeQuotients(s: seq<real>, d: real)
    requires 0.0 < d || |s| == 0
    requires forall k :: 0 <= k < |s| ==> 0.0 <= s[k]
    ensures forall k :: 0 <= k < |s| ==> 0.0 <= Quotients(s, d)[k]
  {
    forall k | 0 <= k < |s|
      ensures 0.0 <= Quotients(s, d)[k]
    {
      NonNegativeQuotient(s[k], d);
    }
  }

  lemma NonNegativeQuotient(x: real, d: real)
    requires 0.0 <= x && 0.0 < d
    ensures 0.0 <= x / d
  {
  }

  /** The kernel's variance of the batch-centred input is the biased column variance. */
  lemma {:induction false} BatchVarianceIsColumnVariance(input: seq<real>, rows: nat, cols: nat)
    requires |input| == rows * cols
    ensures BatchVariance(Center(input, BatchMean(input, rows, cols), rows, cols), rows, cols)
         == ColumnVariances(input, rows, cols)
  {
    var centered := Center(input, BatchMean(input, rows, cols), rows, cols);
    var variance := BatchVariance(centered, rows, cols);
    forall j | 0 <= j < cols
      ensures variance[j] == ColumnVariances(input, rows, cols)[j]
    {
      var c := Column(centered, rows, cols, j);
      assert c == Deviations(input, rows, cols, j);
      if rows > 0 {
        SumDivide(Squares(c), Quotients(Squares(c), rows as real), rows as real);
      }
    }
  }

  /** std: sqrt(var + eps) per column. */
  function Std(variance: seq<real>, eps: real, sqrt: real -> real): (s: seq<real>)
    requires PositiveRoot(sqrt)
    ensures |s| == |variance|
    ensures forall j :: 0 <= j < |s| ==> s[j] == sqrt(variance[j] + eps)
    ensures StdDefined(variance, eps) ==> forall j :: 0 <= j < |s| ==> 0.0 < s[j]
  {
    seq(|variance|, j requires 0 <= j < |variance| => sqrt(variance[j] + eps))
  }

  /** One output cell: the value centred on `mean`, scaled by 1 / std, then
      by gamma, plus beta. */
  function NormalizeCell(x: real, mean: real, std: real, gamma: real, beta: real): real
    requires std != 0.0
  {
    (x - mean) / std * gamma + beta
  }

  /** The output buffer: every cell of column j normalised with mean[j],
      std[j], gamma[j] and beta[j]. The kernel stores the centred values in
      a scratch buffer first; here they are computed in place. */
  function Normalize(input: seq<real>, mean: seq<real>, std: seq<real>, gamma: seq<real>, beta: seq<real>,
                     rows: nat, cols: nat): (out: seq<real>)
    requires |input| == rows * cols && |mean| == cols && |std| == cols && |gamma| == cols && |beta| == cols
    requires forall j :: 0 <= j < cols ==> std[j] != 0.0
    ensures |out| == rows * cols
    ensures forall i, j :: 0 <= i < rows && 0 <= j < cols ==>
              out[Cell(i, j, rows, cols)] == NormalizeCell(input[Cell(i, j, rows, cols)], mean[j], std[j], gamma[j], beta[j])
  {
    seq(rows * cols, p requires 0 <= p < rows * cols =>
      OffsetToCell(p, rows, cols);
      NormalizeCell(input[p], mean[p % cols], std[p % cols], gamma[p % cols], beta[p % cols]))
  }

  /** One step of the exponential moving average: running * alpha + stat * (1 - alpha). */
  function BlendValue(running: real, stat: real, alpha: real): real
  {
    running * alpha + stat * (1.0 - alpha)
  }

  /** The moving average, entry by entry. */
  function Blend(running: seq<real>, stat: seq<real>, alpha: real): (r: seq<real>)
    requires |stat| == |running|
    ensures |r| == |running|
    ensures forall j :: 0 <= j < |r| ==> r[j] == BlendValue(running[j], stat[j], alpha)
    ensures alpha == 1.0 ==> r == running
    ensures alpha == 0.0 ==> r == stat
    ensures forall j :: 0 <= j < |r| && running[j] == stat[j] ==> r[j] == stat[j]
  {
    seq(|running|, j requires 0 <= j < |running| => BlendValue(running[j], stat[j], alpha))
  }

  /** What the forward kernel writes: the output and both running statistics. */
  datatype BatchNormState = BatchNormState(output: seq<real>, runningMean: seq<real>, runningVar: seq<real>)

  /** Running statistics after a training step: each moves toward the batch
      statistic of its column by the factor 1 - alpha. */
  function UpdateRunningStats(input: seq<real>, runningMean: seq<real>, runningVar: seq<real>, alpha: real,
                              rows: nat, cols: nat): (r: (seq<real>, seq<real>))
    requires |input| == rows * cols && |runningMean| == cols && |runningVar| == cols
    ensures |r.0| == cols && |r.1| == cols
    ensures forall j :: 0 <= j < cols ==>
              r.0[j] == BlendValue(runningMean[j], ColumnMean(input, rows, cols, j), alpha)
    ensures forall j :: 0 <= j < cols ==>
              r.1[j] == BlendValue(runningVar[j], ColumnVariance(input, rows, cols, j), alpha)
  {
    var mean := BatchMean(input, rows, cols);
    var variance := BatchVariance(Center(input, mean, rows, cols), rows, cols);
    BatchVarianceIsColumnVariance(input, rows, cols);
    (Blend(runningMean, mean, alpha), Blend(runningVar, variance, alpha))
  }

  /** Output in inference mode: every cell centred on the running mean of its
      column and scaled by sqrt(running variance + eps), then gamma and beta apply. */
  function InferenceOutput(input: seq<real>, runningMean: seq<real>, runningVar: seq<real>, eps: real,
                           gamma: seq<real>, beta: seq<real>, rows: nat, cols: nat, sqrt: real -> real): (out: seq<real>)
    requires |input| == rows * cols
    requires |runningMean| == cols && |runningVar| == cols && |gamma| == cols && |beta| == cols
    requires PositiveRoot(sqrt) && StdDefined(runningVar, eps)
    ensures |out| == rows * cols
    ensures forall i, j :: 0 <= i < rows && 0 <= j < cols ==>
              out[Cell(i, j, rows, cols)]
                == NormalizeCell(input[Cell(i, j, rows, cols)], runningMean[j], sqrt(runningVar[j] + eps), gamma[j], beta[j])
  {
    Normalize(input, runningMean, Std(runningVar, eps, sqrt), gamma, beta, rows, cols)
  }

  /** Output in training mode: the inference computation with the batch's own
      column means and biased column variances in place of the running ones. */
  function TrainingOutput(input: seq<real>, eps: real, gamma: seq<real>, beta: seq<real>, rows: nat, cols: nat,
                          sqrt: real -> real): (out: seq<real>)
    requires |input| == rows * cols && |gamma| == cols && |beta| == cols
    requires PositiveRoot(sqrt) && StdDefined(ColumnVariances(input, rows, cols), eps)
    ensures out == InferenceOutput(input, ColumnMeans(input, rows, cols), ColumnVariances(input, rows, cols),
                                   eps, gamma, beta, rows, cols, sqrt)
  {
    var mean := BatchMean(input, rows, cols);
    var variance := BatchVariance(Center(input, mean, rows, cols), rows, cols);
    BatchVarianceIsColumnVariance(input, rows, cols);
    Normalize(input, mean, Std(variance, eps, sqrt), gamma, beta, rows, cols)
  }

  /** BatchNorm1D forward. Training mode normalises with the batch statistics
      and updates the running statistics; inference mode normalises with the
      running statistics and leaves them as they are. */
  function BatchNormForward(input: seq<real>, runningMean: seq<real>, runningVar: seq<real>, isTraining: bool,
                            eps: real, alpha: real, gamma: seq<real>, beta: seq<real>, rows: nat, cols: nat,
                            sqrt: real -> real): (r: BatchNormState)
    requires |input| == rows * cols
    requires |runningMean| == cols && |runningVar| == cols && |gamma| == cols && |beta| == cols
    requires PositiveRoot(sqrt)
    requires StdDefined(if isTraining then ColumnVariances(input, rows, cols) else runningVar, eps)
    ensures |r.output| == rows * cols && |r.runningMean| == cols && |r.runningVar| == cols
    ensures isTraining ==> r.output == InferenceOutput(input, ColumnMeans(input, rows, cols), ColumnVariances(input, rows, cols),
                                                       eps, gamma, beta, rows, cols, sqrt)
    ensures isTraining ==> forall j :: 0 <= j < cols ==>
              r.runningMean[j] == BlendValue(runningMean[j], ColumnMean(input, rows, cols, j), alpha)
    ensures isTraining ==> forall j :: 0 <= j < cols ==>
              r.runningVar[j] == BlendValue(runningVar[j], ColumnVariance(input, rows, cols, j), alpha)
    ensures !isTraining ==> r.output == InferenceOutput(input, runningMean, runningVar, eps, gamma, beta, rows, cols, sqrt)
    ensures !isTraining ==> r.runningMean == runningMean && r.runningVar == runningVar
  {
    if isTraining then
      var stats := UpdateRunningStats(input, runningMean, runningVar, alpha, rows, cols);
      BatchNormState(TrainingOutput(input, eps, gamma, beta, rows, cols, sqrt), stats.0, stats.1)
    else
      BatchNormState(InferenceOutput(input, runningMean, runningVar, eps, gamma, beta, rows, cols, sqrt), runningMean, runningVar)
  }

  /** A value equal to the mean it is centred on normalises to beta. */
  lemma NormalizeAtMean(x: real, mean: real, std: real, gamma: real, beta: real)
    requires std != 0.0 && x == mean
    ensures NormalizeCell(x, mean, std, gamma, beta) == beta
  {
  }

  /** A training batch whose rows are all equal is centred to 0 everywhere,
      so every output cell is beta of its column. */
  lemma {:induction false} IdenticalRowsNormalizeToBeta(input: seq<real>, runningMean: seq<real>, runningVar: seq<real>,
                                                        eps: real, alpha: real, gamma: seq<real>, beta: seq<real>,
                                                        rows: nat, cols: nat, sqrt: real -> real)
    requires |input| == rows * cols
    requires |runningMean| == cols && |runningVar| == cols && |gamma| == cols && |beta| == cols
    requires PositiveRoot(sqrt) && 0.0 < eps
    requires 0 < rows
    requires forall i, j :: 0 <= i < rows && 0 <= j < cols ==> input[Cell(i, j, rows, cols)] == input[Cell(0, j, rows, cols)]
    ensures var r := BatchNormForward(input, runningMean, runningVar, true, eps, alpha, gamma, beta, rows, cols, sqrt);
            forall i, j :: 0 <= i < rows && 0 <= j < cols ==> r.output[Cell(i, j, rows, cols)] == beta[j]
  {
    assert StdDefined(ColumnVariances(input, rows, cols), eps);
    var out := BatchNormForward(input, runningMean, runningVar, true, eps, alpha, gamma, beta, rows, cols, sqrt).output;
    var means := ColumnMeans(input, rows, cols);
    var variances := ColumnVariances(input, rows, cols);
    forall j | 0 <= j < cols
      ensures means[j] == input[Cell(0, j, rows, cols)]
    {
      var column := Column(input, rows, cols, j);
      MeanOfConstant(column, input[Cell(0, j, rows, cols)]);
      assert Sum(column) / |column| as real == Sum(column) / rows as real;
    }
    forall i, j | 0 <= i < rows && 0 <= j < cols
      ensures out[Cell(i, j, rows, cols)] == beta[j]
    {
      NormalizeAtMean(input[Cell(i, j, rows, cols)], means[j], sqrt(variances[j] + eps), gamma[j], beta[j]);
    }
  }

  /** Sum of a column normalised with one mean, std, gamma and beta: affine
      in the sum of the column. */
  lemma {:induction false} SumNormalized(a: seq<real>, out: seq<real>, mean: real, std: real, gamma: real, beta: real)
    requires std != 0.0 && |out| == |a|
    requires forall i {:trigger NormalizeCell(a[i], mean, std, gamma, beta)} :: 0 <= i < |out| ==> out[i] == NormalizeCell(a[i], mean, std, gamma, beta)
    ensures Sum(out) == gamma / std * (Sum(a) - |a| as real * mean) + |a| as real * beta
  {
    if |out| > 0 {
      var n := |out| - 1;
      SumNormalized(a[..n], out[..n], mean, std, gamma, beta);
      NormalizedStep(Sum(a[..n]), a[n], n as real, mean, std, gamma, beta);
    }
  }

  /** The inductive step of SumNormalized, as plain arithmetic. */
  lemma NormalizedStep(sumA: real, x: real, n: real, mean: real, std: real, gamma: real, beta: real)
    requires std != 0.0
    ensures gamma / std * (sumA - n * mean) + n * beta + NormalizeCell(x, mean, std, gamma, beta)
         == gamma / std * (sumA + x - (n + 1.0) * mean) + (n + 1.0) * beta
  {
  }

  /** In training mode every output column averages to beta of its column:
      the centred column sums to 0, and the normalisation is affine. */
  lemma {:induction false} TrainingOutputColumnMeanIsBeta(input: seq<real>, eps: real, gamma: seq<real>, beta: seq<real>,
                                                          rows: nat, cols: nat, sqrt: real -> real, j: nat)
    requires |input| == rows * cols && |gamma| == cols && |beta| == cols
    requires PositiveRoot(sqrt) && StdDefined(ColumnVariances(input, rows, cols), eps)
    requires 0 < rows && j < cols
    ensures ColumnMean(TrainingOutput(input, eps, gamma, beta, rows, cols, sqrt), rows, cols, j) == beta[j]
  {
    var out := TrainingOutput(input, eps, gamma, beta, rows, cols, sqrt);
    var column := Column(out, rows, cols, j);
    var a := Column(input, rows, cols, j);
    var mean := ColumnMeans(input, rows, cols)[j];
    var std := sqrt(ColumnVariances(input, rows, cols)[j] + eps);
    forall i | 0 <= i < rows
      ensures column[i] == NormalizeCell(a[i], mean, std, gamma[j], beta[j])
    {
      assert column[i] == out[Cell(i, j, rows, cols)];
    }
    NormalizedColumnMean(a, column, rows, mean, std, gamma[j], beta[j]);
  }

  /** A column normalised around its own mean averages to beta. */
  lemma {:induction false} NormalizedColumnMean(a: seq<real>, out: seq<real>, rows: nat, mean: real, std: real, gamma: real, beta: real)
    requires std != 0.0 && |out| == |a| && |a| == rows && 0 < rows
    requires mean == Sum(a) / rows as real
    requires forall i {:trigger NormalizeCell(a[i], mean, std, gamma, beta)} :: 0 <= i < |out| ==> out[i] == NormalizeCell(a[i], mean, std, gamma, beta)
    ensures Sum(out) / rows as real == beta
  {
    SumNormalized(a, out, mean, std, gamma, beta);
    assert Sum(out) == gamma / std * (Sum(a) - |a| as real * mean) + |a| as real * beta;
    assert mean == Sum(a) / rows as real;
    ColumnMeanOfNormalized(Sum(out), Sum(a), |a|, rows, mean, gamma, std, beta);
  }

  /** The closing arithmetic: with mean = sum(a) / n, the column sum
      k * (sum(a) - n * mean) + n * beta divided by n is beta. */
  lemma {:induction false} ColumnMeanOfNormalized(total: real, sumA: real, len: nat, rows: nat, mean: real,
                                                  gamma: real, std: real, beta: real)
    requires 0 < rows && len == rows && mean == sumA / rows as real && std != 0.0
    requires total == gamma / std * (sumA - len as real * mean) + len as real * beta
    ensures total / rows as real == beta
  {
    MulDivCancel(rows as real, sumA);
  }

  /** In inference mode a sample's output depends on that sample alone: two
      batches, of any sizes, that share a row produce the same output row. */
  lemma {:induction false} InferenceIsPerSample(inputA: seq<real>, rowsA: nat, a: nat, inputB: seq<real>, rowsB: nat, b: nat,
                                                runningMean: seq<real>, runningVar: seq<real>, eps: real, alpha: real,
                                                gamma: seq<real>, beta: seq<real>, cols: nat, sqrt: real -> real)
    requires |inputA| == rowsA * cols && |inputB| == rowsB * cols && a < rowsA && b < rowsB
    requires |runningMean| == cols && |runningVar| == cols && |gamma| == cols && |beta| == cols
    requires PositiveRoot(sqrt) && StdDefined(runningVar, eps)
    requires Row(inputA, rowsA, cols, a) == Row(inputB, rowsB, cols, b)
    ensures Row(BatchNormForward(inputA, runningMean, runningVar, false, eps, alpha, gamma, beta, rowsA, cols, sqrt).output, rowsA, cols, a)
         == Row(BatchNormForward(inputB, runningMean, runningVar, false, eps, alpha, gamma, beta, rowsB, cols, sqrt).output, rowsB, cols, b)
  {
    var outA := BatchNormForward(inputA, runningMean, runningVar, false, eps, alpha, gamma, beta, rowsA, cols, sqrt).output;
    var outB := BatchNormForward(inputB, runningMean, runningVar, false, eps, alpha, gamma, beta, rowsB, cols, sqrt).output;
    forall j | 0 <= j < cols
      ensures Row(outA, rowsA, cols, a)[j] == Row(outB, rowsB, cols, b)[j]
    {
      assert inputA[Cell(a, j, rowsA, cols)] == Row(inputA, rowsA, cols, a)[j];
    }
  }

  // ---------------------------------------------------------------------------
  // Backward pass
  // ---------------------------------------------------------------------------

  /** grad_x_norm: grad_output scaled by gamma of its column. */
  function GradXNorm(gradOutput: seq<real>, gamma: seq<real>, rows: nat, cols: nat): (g: seq<real>)
    requires |gradOutput| == rows * cols && |gamma| == cols
    ensures |g| == rows * cols
    ensures forall i, j :: 0 <= i < rows && 0 <= j < cols ==>
              g[Cell(i, j, rows, cols)] == gradOutput[Cell(i, j, rows, cols)] * gamma[j]
  {
    seq(rows * cols, p requires 0 <= p < rows * cols =>
      OffsetToCell(p, rows, cols);
      gradOutput[p] * gamma[p % cols])
  }

  /** One column of grad_std: 0 minus the sum of grad_x_norm * c / std^2
      over the column. The division by std^2 is written as two divisions by
      std, which over the reals is the same quotient. */
  function GradStdColumn(products: seq<real>, std: real): (g: real)
    requires std != 0.0
    ensures g == 0.0 - Sum(products) / std / std
  {
    var once := Quotients(products, std);
    SumDivide(products, once, std);
    SumDivide(once, Quotients(once, std), std);
    0.0 - Sum(Quotients(once, std))
  }

  /** grad_std: starts at 0, and every sample subtracts grad_x_norm * c / std^2. */
  function GradStd(gradXNorm: seq<real>, centered: seq<real>, std: seq<real>, rows: nat, cols: nat): (g: seq<real>)
    requires |gradXNorm| == rows * cols && |centered| == rows * cols && |std| == cols
    requires forall j :: 0 <= j < cols ==> std[j] != 0.0
    ensures |g| == cols
    ensures forall j :: 0 <= j < cols ==>
              g[j] == 0.0 - Inner(Column(gradXNorm, rows, cols, j), Column(centered, rows, cols, j)) / std[j] / std[j]
  {
    seq(cols, j requires 0 <= j < cols =>
      GradStdColumn(Products(Column(gradXNorm, rows, cols, j), Column(centered, rows, cols, j)), std[j]))
  }

  /** grad_var: grad_std / (2 std). */
  function GradVar(gradStd: seq<real>, std: seq<real>): (g: seq<real>)
    requires |gradStd| == |std|
    requires forall j :: 0 <= j < |std| ==> std[j] != 0.0
    ensures |g| == |std|
    ensures forall j :: 0 <= j < |g| ==> g[j] * (2.0 * std[j]) == gradStd[j]
  {
    seq(|std|, j requires 0 <= j < |std| => gradStd[j] / (2.0 * std[j]))
  }

  /** One cell of grad_x_centered: the gradient reaching c directly through
      c / std, plus the part reaching it through the variance, whose
      derivative in c is 2 c / rows. */
  function XCenteredCell(gradXNorm: real, centered: real, std: real, gradVar: real, rows: nat): real
    requires std != 0.0 && 0 < rows
  {
    gradXNorm / std + centered * gradVar * 2.0 / rows as real
  }

  /** grad_x_centered, cell by cell. */
  function GradXCentered(gradXNorm: seq<real>, centered: seq<real>, std: seq<real>, gradVar: seq<real>, rows: nat, cols: nat): (g: seq<real>)
    requires |gradXNorm| == rows * cols && |centered| == rows * cols && |std| == cols && |gradVar| == cols
    requires forall j :: 0 <= j < cols ==> std[j] != 0.0
    ensures |g| == rows * cols
    ensures forall i, j :: 0 <= i < rows && 0 <= j < cols ==>
              g[Cell(i, j, rows, cols)]
                == XCenteredCell(gradXNorm[Cell(i, j, rows, cols)], centered[Cell(i, j, rows, cols)], std[j], gradVar[j], rows)
  {
    seq(rows * cols, p requires 0 <= p < rows * cols =>
      OffsetToCell(p, rows, cols);
      XCenteredCell(gradXNorm[p], centered[p], std[p % cols], gradVar[p % cols], rows))
  }

  /** Column sums: grad_mu of grad_x_centered, and the beta gradient of grad_output. */
  function ColumnSums(a: seq<real>, rows: nat, cols: nat): (g: seq<real>)
    requires |a| == rows * cols
    ensures |g| == cols
    ensures forall j :: 0 <= j < cols ==> g[j] == Sum(Column(a, rows, cols, j))
  {
    seq(cols, j requires 0 <= j < cols => Sum(Column(a, rows, cols, j)))
  }

  /** The kernel's accumulation loops over a batch: sample after sample,
      every entry of column j is added into acc[j]. Starting from zeros this
      is grad_mu; starting from betta_grad it is the beta gradient. Whatever
      the loop order, acc[j] grows by exactly the sum of column j. */
  method AddColumnSums(a: seq<real>, acc: seq<real>, rows: nat, cols: nat) returns (r: seq<real>)
    requires |a| == rows * cols && |acc| == cols
    ensures |r| == cols
    ensures forall j :: 0 <= j < cols ==> r[j] == acc[j] + Sum(Column(a, rows, cols, j))
  {
    r := acc;
    for i := 0 to rows
      invariant |r| == cols
      invariant forall j :: 0 <= j < cols ==> r[j] == acc[j] + Sum(Column(a, rows, cols, j)[..i])
    {
      for j := 0 to cols
        invariant |r| == cols
        invariant forall j' :: 0 <= j' < j ==> r[j'] == acc[j'] + Sum(Column(a, rows, cols, j')[..i + 1])
        invariant forall j' :: j <= j' < cols ==> r[j'] == acc[j'] + Sum(Column(a, rows, cols, j')[..i])
      {
        SumPrefix(Column(a, rows, cols, j), i);
        r := r[j := r[j] + a[Cell(i, j, rows, cols)]];
      }
    }
    assert forall j :: 0 <= j < cols ==> Column(a, rows, cols, j)[..rows] == Column(a, rows, cols, j);
  }

  /** grad_input: grad_x_centered minus grad_mu / rows in every cell of the column. */
  function GradInput(gradXCentered: seq<real>, gradMu: seq<real>, rows: nat, cols: nat): (g: seq<real>)
    requires |gradXCentered| == rows * cols && |gradMu| == cols
    ensures |g| == rows * cols
    ensures forall i, j :: 0 <= i < rows && 0 <= j < cols ==>
              g[Cell(i, j, rows, cols)] == gradXCentered[Cell(i, j, rows, cols)] - gradMu[j] / rows as real
  {
    seq(rows * cols, p requires 0 <= p < rows * cols =>
      OffsetToCell(p, rows, cols);
      gradXCentered[p] - gradMu[p % cols] / rows as real)
  }

  /** grad_x_centered of the whole chain: grad_x_norm, then grad_std and
      grad_var, then the two paths into each centred value. */
  function ChainXCentered(centered: seq<real>, std: seq<real>, gradOutput: seq<real>, gamma: seq<real>, rows: nat, cols: nat): (g: seq<real>)
    requires |centered| == rows * cols && |gradOutput| == rows * cols && |std| == cols && |gamma| == cols
    requires forall j :: 0 <= j < cols ==> std[j] != 0.0
    ensures |g| == rows * cols
  {
    var gradXNorm := GradXNorm(gradOutput, gamma, rows, cols);
    var gradVar := GradVar(GradStd(gradXNorm, centered, std, rows, cols), std);
    GradXCentered(gradXNorm, centered, std, gradVar, rows, cols)
  }

  /** The gradient of the input: grad_x_centered with the mean of its column
      taken out of every cell, which is the gradient that reaches the input
      through the batch mean. */
  function InputGradient(centered: seq<real>, std: seq<real>, gradOutput: seq<real>, gamma: seq<real>, rows: nat, cols: nat): (g: seq<real>)
    requires |centered| == rows * cols && |gradOutput| == rows * cols && |std| == cols && |gamma| == cols
    requires forall j :: 0 <= j < cols ==> std[j] != 0.0
    ensures |g| == rows * cols
    ensures var x := ChainXCentered(centered, std, gradOutput, gamma, rows, cols);
            forall i, j :: 0 <= i < rows && 0 <= j < cols ==>
              g[Cell(i, j, rows, cols)] == x[Cell(i, j, rows, cols)] - ColumnMean(x, rows, cols, j)
  {
    var gradXCentered := ChainXCentered(centered, std, gradOutput, gamma, rows, cols);
    GradInput(gradXCentered, ColumnSums(gradXCentered, rows, cols), rows, cols)
  }

  /** The gamma gradient contributed by one column: the sum of c / std * g
      over its samples, which is the inner product of the column of centred
      inputs with the column of output gradients, divided by std. */
  function GammaColumn(centered: seq<real>, gradOutput: seq<real>, std: real): (s: real)
    requires |centered| == |gradOutput| && std != 0.0
    ensures s == Inner(centered, gradOutput) / std
  {
    var terms := Products(Quotients(centered, std), gradOutput);
    SumDivide(Products(centered, gradOutput), terms, std);
    Sum(terms)
  }

  /** Adds `delta` into the accumulator entry by entry. */
  function Accumulate(acc: seq<real>, delta: seq<real>): (r: seq<real>)
    requires |delta| == |acc|
    ensures |r| == |acc|
    ensures forall j :: 0 <= j < |r| ==> r[j] == acc[j] + delta[j]
  {
    seq(|acc|, j requires 0 <= j < |acc| => acc[j] + delta[j])
  }

  /** What the backward kernel writes. */
  datatype BatchNormGrads = BatchNormGrads(gradInput: seq<real>, gammaGrad: seq<real>, bettaGrad: seq<real>)

  /** BatchNorm1D backward, from the centred input and std cached by the
      forward pass. The gamma and beta gradients are ADDED to what the
      buffers already hold; the input gradient is written afresh. */
  function BatchNormBackward(centered: seq<real>, std: seq<real>, gradOutput: seq<real>, gamma: seq<real>,
                             gammaGrad: seq<real>, bettaGrad: seq<real>, rows: nat, cols: nat): (r: BatchNormGrads)
    requires |centered| == rows * cols && |gradOutput| == rows * cols
    requires |std| == cols && |gamma| == cols && |gammaGrad| == cols && |bettaGrad| == cols
    requires forall j :: 0 <= j < cols ==> std[j] != 0.0
    ensures |r.gradInput| == rows * cols && |r.gammaGrad| == cols && |r.bettaGrad| == cols
    ensures r.gradInput == InputGradient(centered, std, gradOutput, gamma, rows, cols)
    ensures forall j :: 0 <= j < cols ==>
              r.bettaGrad[j] == bettaGrad[j] + Sum(Column(gradOutput, rows, cols, j))
    ensures forall j :: 0 <= j < cols ==>
              r.gammaGrad[j] == gammaGrad[j] + Inner(Column(centered, rows, cols, j), Column(gradOutput, rows, cols, j)) / std[j]
  {
    var gammaSums := seq(cols, j requires 0 <= j < cols =>
      GammaColumn(Column(centered, rows, cols, j), Column(gradOutput, rows, cols, j), std[j]));
    BatchNormGrads(
      InputGradient(centered, std, gradOutput, gamma, rows, cols),
      Accumulate(gammaGrad, gammaSums),
      Accumulate(bettaGrad, ColumnSums(gradOutput, rows, cols)))
  }

  /** Every column of the input gradient sums to zero: shifting a whole
      feature column by a constant does not change the normalised output. */
  lemma {:induction false} BatchNormBackwardColumnsSumToZero(centered: seq<real>, std: seq<real>, gradOutput: seq<real>, gamma: seq<real>,
                                          gammaGrad: seq<real>, bettaGrad: seq<real>, rows: nat, cols: nat, j: nat)
    requires |centered| == rows * cols && |gradOutput| == rows * cols
    requires |std| == cols && |gamma| == cols && |gammaGrad| == cols && |bettaGrad| == cols
    requires forall j :: 0 <= j < cols ==> std[j] != 0.0
    requires 0 < rows && j < cols
    ensures Sum(Column(BatchNormBackward(centered, std, gradOutput, gamma, gammaGrad, bettaGrad, rows, cols).gradInput, rows, cols, j)) == 0.0
  {
    var x := ChainXCentered(centered, std, gradOutput, gamma, rows, cols);
    var gi := InputGradient(centered, std, gradOutput, gamma, rows, cols);
    SumCentered(Column(x, rows, cols, j), Column(gi, rows, cols, j));
  }
}
