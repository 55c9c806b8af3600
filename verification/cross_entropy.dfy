/** The backward pass of the cross-entropy (negative log-likelihood) loss
    over a dense `batch` x `classes` buffer of probabilities. Labels arrive as
    floats and are converted to a column index by truncation toward zero.
    The forward pass needs `log` and is not part of this model. */
module CrossEntropy {
  import opened Buffers
  import opened Sums

  /** C++ `static_cast<int>` of a float: truncation toward zero. */
  function Truncate(x: real): (n: int)
    ensures 0.0 <= x ==> n as real <= x < n as real + 1.0
    ensures x < 0.0 ==> n as real - 1.0 < x <= n as real
  {
    if x >= 0.0 then x.Floor else -((-x).Floor)
  }

  /** Why a batch has no defined gradient. */
  datatype LabelError =
    | LabelOutOfRange(sample: nat)   // the truncated label is not a column of the row
    | ZeroProbability(sample: nat)   // the probability at the label is 0, so 1 / (p * batch) is undefined

  datatype Result<T> = Ok(value: T) | Err(error: LabelError)

  /** Sample i has a label naming a column of its row, and a non-zero
      probability in that column. */
  predicate SampleIsValid(x: seq<real>, labels: seq<real>, batch: nat, classes: nat, i: nat)
    requires |x| == batch * classes && |labels| == batch && i < batch
  {
    0 <= Truncate(labels[i]) < classes && x[Cell(i, Truncate(labels[i]), batch, classes)] != 0.0
  }

  /** Every sample from `from` on is valid. */
  predicate ValidFrom(x: seq<real>, labels: seq<real>, batch: nat, classes: nat, from: nat)
    requires |x| == batch * classes && |labels| == batch
  {
    forall i {:trigger labels[i]} :: from <= i < batch ==> SampleIsValid(x, labels, batch, classes, i)
  }

  /** Samples from `from` on are valid exactly when sample `from` is and the
      samples after it are. */
  lemma {:induction false} ValidFromStep(x: seq<real>, labels: seq<real>, batch: nat, classes: nat, from: nat)
    requires |x| == batch * classes && |labels| == batch && from < batch
    ensures ValidFrom(x, labels, batch, classes, from)
        <==> SampleIsValid(x, labels, batch, classes, from) && ValidFrom(x, labels, batch, classes, from + 1)
  {
    if SampleIsValid(x, labels, batch, classes, from) && ValidFrom(x, labels, batch, classes, from + 1) {
      forall i | from <= i < batch
        ensures SampleIsValid(x, labels, batch, classes, i)
      {
        if i > from {
          var given := labels[i];  // the term ValidFrom's quantifier is triggered on
        }
      }
    }
    if ValidFrom(x, labels, batch, classes, from) {
      forall i | from <= i < batch
        ensures SampleIsValid(x, labels, batch, classes, i)
      {
        var given := labels[i];  // the term ValidFrom's quantifier is triggered on
      }
    }
  }

  /** The first sample at or after `from` that is not valid, if any. */
  function FirstInvalid(x: seq<real>, labels: seq<real>, batch: nat, classes: nat, from: nat): (r: Result<()>)
    requires |x| == batch * classes && |labels| == batch && from <= batch
    decreases batch - from
    ensures r.Ok? <==> ValidFrom(x, labels, batch, classes, from)
    ensures r.Err? ==> from <= r.error.sample < batch
                       && !SampleIsValid(x, labels, batch, classes, r.error.sample)
                       && (forall i :: from <= i < r.error.sample ==> SampleIsValid(x, labels, batch, classes, i))
    ensures r.Err? ==> (r.error.LabelOutOfRange? <==> !(0 <= Truncate(labels[r.error.sample]) < classes))
  {
    if from == batch then Ok(())
    else
      ValidFromStep(x, labels, batch, classes, from);
      var c := Truncate(labels[from]);
      if !(0 <= c < classes) then
        Err(LabelOutOfRange(from))
      else if x[Cell(from, c, batch, classes)] == 0.0 then
        Err(ZeroProbability(from))
      else FirstInvalid(x, labels, batch, classes, from + 1)
  }

  /** What one sample subtracts at the cell of its label: 1 / (p * batch),
      p being the probability in that cell. */
  function LabelStep(prob: real, batch: nat): (d: real)
    requires prob != 0.0 && 0 < batch
    ensures d * prob * batch as real == 1.0
  {
    1.0 / (prob * batch as real)
  }

  /** The source's per-sample loop from sample `from` on: each sample
      subtracts its LabelStep from the cell of its label. Rows before `from` are left as they are. */
  function Scatter(grad: seq<real>, x: seq<real>, labels: seq<real>, batch: nat, classes: nat, from: nat): (g: seq<real>)
    requires |x| == batch * classes && |grad| == batch * classes && |labels| == batch && from <= batch
    requires ValidFrom(x, labels, batch, classes, from)
    decreases batch - from
    ensures |g| == batch * classes
    ensures forall i, c :: 0 <= i < batch && 0 <= c < classes ==>
              g[Cell(i, c, batch, classes)]
                == if from <= i && c == Truncate(labels[i])
                   then grad[Cell(i, c, batch, classes)] - LabelStep(x[Cell(i, c, batch, classes)], batch)
                   else grad[Cell(i, c, batch, classes)]
  {
    if from == batch then grad
    else
      ValidFromStep(x, labels, batch, classes, from);
      var p := Cell(from, Truncate(labels[from]), batch, classes);
      Scatter(grad[p := grad[p] - LabelStep(x[p], batch)], x, labels, batch, classes, from + 1)
  }

  /** The gradient of a batch whose samples are all valid: the buffer is
      zeroed, then each sample i writes -1 / (p_i * batch) into the column of
      its label, p_i being the probability there. Every other cell stays 0. */
  function SparseGradient(x: seq<real>, labels: seq<real>, batch: nat, classes: nat): (g: seq<real>)
    requires |x| == batch * classes && |labels| == batch
    requires ValidFrom(x, labels, batch, classes, 0)
    ensures |g| == batch * classes
    ensures forall i, c :: 0 <= i < batch && 0 <= c < classes ==>
              g[Cell(i, c, batch, classes)]
                == if c == Truncate(labels[i]) then -LabelStep(x[Cell(i, c, batch, classes)], batch) else 0.0
  {
    Scatter(Zeros(batch * classes), x, labels, batch, classes, 0)
  }

  /** Cross-entropy backward over dense strides. When every sample is valid
      the result is the sparse gradient above; otherwise the first sample
      whose label is outside its row, or whose probability at the label is 0,
      is reported. */
  function CrossEntropyLossBackward(x: seq<real>, labels: seq<real>, batch: nat, classes: nat): (r: Result<seq<real>>)
    requires |x| == batch * classes && |labels| == batch
    ensures r.Ok? <==> forall i :: 0 <= i < batch ==> SampleIsValid(x, labels, batch, classes, i)
    ensures r.Err? ==> r.error.sample < batch && !SampleIsValid(x, labels, batch, classes, r.error.sample)
    ensures r.Ok? ==> ValidFrom(x, labels, batch, classes, 0) && r.value == SparseGradient(x, labels, batch, classes)
  {
    match FirstInvalid(x, labels, batch, classes, 0)
    case Err(e) => Err(e)
    case Ok(_) => Ok(SparseGradient(x, labels, batch, classes))
  }

  /** Each row of the gradient has exactly one non-zero cell, so the row sums
      to the value at the label: -1 / (p_i * batch). */
  lemma {:induction false} CrossEntropyRowSum(x: seq<real>, labels: seq<real>, batch: nat, classes: nat, i: nat)
    requires |x| == batch * classes && |labels| == batch && i < batch
    requires ValidFrom(x, labels, batch, classes, 0)
    ensures var c := Truncate(labels[i]);
            0 <= c < classes
            && Sum(Row(SparseGradient(x, labels, batch, classes), batch, classes, i))
               == -LabelStep(x[Cell(i, c, batch, classes)], batch)
  {
    var g := SparseGradient(x, labels, batch, classes);
    SumOneHot(Row(g, batch, classes, i), Truncate(labels[i]));
  }
}
