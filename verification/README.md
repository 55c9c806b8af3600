# deepworks reference kernels in Dafny

This project models the reference CPU kernels of the deepworks deep-learning
library, together with its SGD optimizer object, and proves properties of them.
The kernels compute the forward and backward passes of the Linear, ReLU,
Softmax, cross-entropy and one-dimensional BatchNorm layers, plus the transpose
and matrix product they are built on. They are written over flat row-major
`float` buffers. The SGD object holds a learning rate and applies one update
rule.

Modelling choices:

- A buffer is a `seq<real>`. Cell (i, j) of a `rows` x `cols` buffer sits at
  offset `i * cols + j`, which is `Buffers.Cell`. Its contract also gives the
  inverse `p / cols == i && p % cols == j`.
- `real` stands in for `float`, so every identity is exact.
- A running sum in the source, such as `out[...] += ...` in a loop, is
  `Sums.Sum`. It adds left to right, in the order of the loop.
- `Sums.Inner` is the inner product of two sequences. `Buffers.Row` and
  `Buffers.Column` are the row and column views of a buffer.
- Kernels are pure functions. Each takes the buffers it reads and returns the
  new contents of the buffers it writes.
  - A buffer the source adds into, or may write only in part, is also passed in
    with its prior contents. These are MatMul's output (which may be longer
    than the product), the running statistics, `gamma_grad` and `betta_grad`.
  - Four Linear buffers are passed in even though the source overwrites every
    cell of them: the result of `CPULinearForward`, `dW` and `grad_input` of
    `CPULinearBackward`, and `db`. They are passed in so that
    `LinAlg.MatMulOverwrites`, `Linear.LinearBackwardOverwrites` and
    `Linear.LinearBiasBackward` can state that their earlier contents play no
    part.
  - Any other buffer the source overwrites in every cell is not passed in. These
    are the ReLU and softmax outputs and gradients, the cross-entropy gradient,
    and the BatchNorm output and `grad_input`. This is sound because every
    buffer has exactly the size the kernel indexes.
  - A kernel that writes several buffers returns a datatype with one field per
    buffer: `LinearGrads`, `BatchNormState` or `BatchNormGrads`.
  - The bias-gradient kernel is a method with the same two loops as the source.
- `std::sqrt` is a parameter `sqrt: real -> real`. The only thing assumed about
  it is that a positive argument has a positive root (`BatchNorm.PositiveRoot`).
  The BatchNorm kernels therefore require `var + eps > 0` in every column they
  divide by (`BatchNorm.StdDefined`).
- `static_cast<int>` of a float truncates toward zero. That is
  `CrossEntropy.Truncate`.
- The SGD optimizer is the value `Optimizer.SGD(learningRate)`. Each of its
  member functions returns the new value.

Both Linear gradient kernels overwrite their output buffer:

- `CPULinearBackward` computes `dW` with `MatMul`, which resets every cell
  before summing.
- `CPULinearBiasBackward` stores the column sum with `db[j] = sum`.

A caller that accumulates gradients over several backward calls must add them
itself. `Linear.LinearBackwardOverwrites` and the contract of
`Linear.LinearBiasBackward` state the overwrite. The BatchNorm backward kernel,
by contrast, adds into `gamma_grad` and `betta_grad`, and its model says so.

## Model

| member | source | states |
|---|---|---|
| LinAlg.Transpose | tests/unit/kernels_reference.cpp:279-288 | the result has rows * cols cells, and input cell (i, j) is output cell (j, i) of the cols x rows result |
| LinAlg.TransposeInvolution | tests/unit/kernels_reference.cpp:279-288 | transposing twice, with the dimensions swapped the second time, gives back the original buffer |
| LinAlg.MatMul | tests/unit/kernels_reference.cpp:268-277 | cell (i, j) of the m x l product is the inner product of row i of in1 and column j of in2; cells past m * l keep their contents |
| LinAlg.MatMulOverwrites | tests/unit/kernels_reference.cpp:268-277 | what the first m * l cells of out held before the call does not change the product, because each cell is reset to 0 |
| LinAlg.TransposeOfProduct | tests/unit/kernels_reference.cpp:268-288 | (A B)^T equals B^T A^T, both computed with the kernels |
| LinAlg.MatMulOfDoubleTranspose | tests/unit/kernels_reference.cpp:268-288 | multiplying by a twice-transposed left operand is multiplying by the operand itself |
| Linear.LinearForward | tests/unit/kernels_reference.cpp:12-16 | output cell (b, o) is the inner product of sample b of X with row o of W, so the result is X W^T |
| Linear.LinearAddBias | tests/unit/kernels_reference.cpp:18-24 | every cell (s, i) grows by bias[i], the bias being broadcast across the batch |
| Linear.AffineForward | tests/unit/kernels_reference.cpp:12-24 | forward followed by the bias add gives cell (b, o) = <X_b, W_o> + bias[o] |
| Linear.LinearBackward | tests/unit/kernels_reference.cpp:26-35 | dW(o, k) is the inner product of column o of grad_output with column k of the input; grad_input(b, k) is the inner product of row b of grad_output with column k of W |
| Linear.LinearBackwardOverwrites | tests/unit/kernels_reference.cpp:26-35 | both gradients are independent of what the dW and grad_input buffers held before, so dW is not accumulated |
| Linear.LinearBiasBackward | tests/unit/kernels_reference.cpp:37-45 | db[j] becomes the sum of column j of grad_output, whatever db held before |
| Activations.ReLUForward | tests/unit/kernels_reference.cpp:94-98 | positive entries pass through, every other entry becomes 0, and no output is negative |
| Activations.ReLUForwardIdempotent | tests/unit/kernels_reference.cpp:94-98 | applying ReLU to its own output changes nothing |
| Activations.ReLUBackward | tests/unit/kernels_reference.cpp:100-104 | the gradient passes exactly where the input was positive and is 0 everywhere else |
| Activations.ReLUBackwardMaskFromOutput | tests/unit/kernels_reference.cpp:94-104 | masking by the forward output instead of the input gives the same gradient |
| Activations.SoftmaxBackward | tests/unit/kernels_reference.cpp:78-92 | cell (i, j) is y_ij * (g_ij - k_i), with k_i the inner product of row i of grad_output and row i of output |
| Activations.SoftmaxBackwardRowSumZero | tests/unit/kernels_reference.cpp:78-92 | when a row of the softmax output sums to 1, the matching row of the input gradient sums to 0 |
| CrossEntropy.Truncate | tests/unit/kernels_reference.cpp:136 | the label cast truncates toward zero: n <= x < n + 1 for x >= 0, and n - 1 < x <= n for x < 0 |
| CrossEntropy.FirstInvalid | tests/unit/kernels_reference.cpp:135-138 | Ok exactly when every sample from `from` on has its label in its row and a non-zero probability there; otherwise the first sample that does not, and which of the two conditions fails |
| CrossEntropy.LabelStep | tests/unit/kernels_reference.cpp:137 | the amount one sample subtracts is the reciprocal of p * batch |
| CrossEntropy.Scatter | tests/unit/kernels_reference.cpp:135-138 | the loop from sample `from` on changes only the label cell of each of those samples, each by its LabelStep |
| CrossEntropy.SparseGradient | tests/unit/kernels_reference.cpp:131-138 | after zeroing and the loop, cell (i, c) is -1 / (p_i * batch) at the label column of sample i and 0 everywhere else |
| CrossEntropy.CrossEntropyLossBackward | tests/unit/kernels_reference.cpp:123-139 | Ok exactly when every sample is valid, and then the sparse gradient; otherwise an error naming an invalid sample |
| CrossEntropy.CrossEntropyRowSum | tests/unit/kernels_reference.cpp:123-139 | each row of the gradient sums to the single value at its label |
| Optimizer.Descend | tests/unit/kernels_reference.cpp:149-151 | every value moves against its gradient by lr times the gradient; only as many gradient entries as there are values are read |
| Optimizer.DescendUndone | tests/unit/kernels_reference.cpp:149-151 | a step of size lr followed by a step of size -lr along the same gradient restores the values |
| Optimizer.StepParameter | tests/unit/kernels_reference.cpp:142-152 | a trainable parameter moves by -lr * grad entry by entry; a frozen one is returned unchanged; the gradient and the flag never change |
| Optimizer.SGDStep | tests/unit/kernels_reference.cpp:141-154 | every trainable parameter gets data[i] - lr * grad[i] for all its entries; non-trainable parameters and every gradient are unchanged |
| Optimizer.SGDStepsCompose | tests/unit/kernels_reference.cpp:141-154 | two steps of sizes a and b equal one step of size a + b, because gradients are left alone |
| Optimizer.SGDStepZero | tests/unit/kernels_reference.cpp:141-154 | a step with learning rate 0 changes nothing |
| Optimizer.NewSGD | src/optimizer.cpp:5 | a fresh optimizer reports the learning rate it was built with |
| Optimizer.SetLearningRate | src/optimizer.cpp:11-17 | after setting lr the getter returns lr, and the optimizer is the one built fresh with lr |
| Optimizer.SetLearningRateToCurrent | src/optimizer.cpp:11-17 | storing the rate that get_learning_rate returns changes nothing, so the getter reports the optimizer's whole state |
| Optimizer.CPUStep | src/optimizer.cpp:7-9 | W becomes W - learning_rate * dW entry by entry, so entries whose gradient is 0 keep their value |
| Optimizer.CPUStepAgreesWithSGDStep | src/optimizer.cpp:7-9 | the optimizer's step on one matrix equals the reference SGDStep on one trainable parameter holding that matrix and its gradient |
| BatchNorm.BatchMean | tests/unit/kernels_reference.cpp:160-165 | adding x / rows into each column gives the column means |
| BatchNorm.Center | tests/unit/kernels_reference.cpp:167-172 | cell (i, j) has center[j] subtracted |
| BatchNorm.ColumnVariance | tests/unit/kernels_reference.cpp:174-179 | the reference biased variance of a column is never negative |
| BatchNorm.BatchVariance | tests/unit/kernels_reference.cpp:174-179 | input_var, accumulated as c * c / rows per column, is never negative |
| BatchNorm.BatchVarianceIsColumnVariance | tests/unit/kernels_reference.cpp:174-179 | adding c * c / rows over the batch-centred input gives the biased (divide by rows) variance of each column |
| BatchNorm.Std | tests/unit/kernels_reference.cpp:181-184 | std[j] is sqrt(var[j] + eps), and it is positive in every column once var + eps is |
| BatchNorm.Normalize | tests/unit/kernels_reference.cpp:191-195 | cell (i, j) is (x - mean[j]) / std[j] * gamma[j] + beta[j] |
| BatchNorm.Blend | tests/unit/kernels_reference.cpp:186-189 | the moving average keeps the running value when alpha is 1, takes the batch value when alpha is 0, and leaves an entry alone when both agree |
| BatchNorm.UpdateRunningStats | tests/unit/kernels_reference.cpp:186-189 | running_mean[j] becomes running_mean[j] * alpha + mean_j * (1 - alpha), and running_var likewise with the biased column variance |
| BatchNorm.InferenceOutput | tests/unit/kernels_reference.cpp:196-213 | every cell is normalised with the running mean and sqrt(running variance + eps) of its column |
| BatchNorm.TrainingOutput | tests/unit/kernels_reference.cpp:158-195 | the training output is the inference computation with the batch column means and biased variances in place of the running statistics |
| BatchNorm.BatchNormForward | tests/unit/kernels_reference.cpp:156-215 | training mode normalises with the batch statistics and blends them into the running statistics; inference mode normalises with the running statistics and leaves them unchanged; var + eps must be positive for the statistics used |
| BatchNorm.IdenticalRowsNormalizeToBeta | tests/unit/kernels_reference.cpp:158-195 | in training mode with eps > 0, a batch of identical rows is output as beta in every cell |
| BatchNorm.TrainingOutputColumnMeanIsBeta | tests/unit/kernels_reference.cpp:158-195 | in training mode, wherever std is defined, every output column averages to beta of that column |
| BatchNorm.InferenceIsPerSample | tests/unit/kernels_reference.cpp:196-213 | in inference mode an output row depends only on its input row, whatever the rest of the batch |
| BatchNorm.GammaColumn | tests/unit/kernels_reference.cpp:220-225 | summing c / std * g over a column gives the inner product of the centred column with the gradient column, divided by std |
| BatchNorm.GradXNorm | tests/unit/kernels_reference.cpp:227-232 | cell (i, j) is grad_output(i, j) scaled by gamma[j] |
| BatchNorm.GradStdColumn | tests/unit/kernels_reference.cpp:234-239 | starting from 0 and subtracting each term divided by std twice gives minus the column sum divided by std^2 |
| BatchNorm.GradStd | tests/unit/kernels_reference.cpp:234-239 | grad_std[j] is minus the inner product of the grad_x_norm column with the centred column, divided by std[j]^2 |
| BatchNorm.GradVar | tests/unit/kernels_reference.cpp:241-244 | grad_var[j] times 2 std[j] gives back grad_std[j], the chain rule through std = sqrt(var + eps) |
| BatchNorm.GradXCentered | tests/unit/kernels_reference.cpp:246-252 | cell (i, j) is grad_x_norm / std[j] plus c * grad_var[j] * 2 / rows, the direct path and the path through the variance |
| BatchNorm.AddColumnSums | tests/unit/kernels_reference.cpp:254-259 | the sample-by-sample loop adds to acc[j] exactly the sum of column j, as for grad_mu and for betta_grad |
| BatchNorm.GradInput | tests/unit/kernels_reference.cpp:261-265 | cell (i, j) is grad_x_centered minus grad_mu[j] / rows |
| BatchNorm.InputGradient | tests/unit/kernels_reference.cpp:227-265 | grad_input is grad_x_centered with the mean of its column taken out of every cell |
| BatchNorm.BatchNormBackward | tests/unit/kernels_reference.cpp:217-266 | betta_grad[j] grows by the column sum of grad_output; gamma_grad[j] grows by <centred column, gradient column> / std[j]; grad_input is written afresh through the chain-rule steps |
| BatchNorm.BatchNormBackwardColumnsSumToZero | tests/unit/kernels_reference.cpp:217-266 | for rows > 0, every column of grad_input sums to 0 |

## Left out

- Float rounding: values are exact reals, so no claim is made about float32 results or tolerances.
- `CPUSoftmaxForward` (tests/unit/kernels_reference.cpp:47-76) needs `std::exp`. Its row maximum also starts at `std::numeric_limits<float>::min()`, the smallest positive float, so it is not the true maximum of an all-negative row.
- `CPUCrossEntropyLossForward` (tests/unit/kernels_reference.cpp:106-121) needs `logf`.
- `std::sqrt` is a parameter assumed only to give a positive root of a positive argument. Nothing else is claimed about its values.
- BatchNorm.BatchNormForward: requires var + eps > 0 in every column of the statistics it uses: the batch variance in training mode, `running_var` in inference mode. Otherwise the source takes the root of 0 or of a negative number and divides by it, giving an infinite or NaN output, which reals cannot represent. The same requirement applies to InferenceOutput, TrainingOutput and the lemmas about them. With rows == 0 the source writes no output whatever eps is, but the model still requires var + eps > 0 there. For inputs this excludes, the running-statistics update is stated by UpdateRunningStats, which has no such requirement.
- BatchNorm.BatchNormBackward: requires std[j] != 0 in every column, as do GradStd, GradVar, GradXCentered, ChainXCentered and InputGradient. Where std[j] is 0, the source divides by it (tests/unit/kernels_reference.cpp:223, 237, 243, 249) and produces an infinite or NaN result. With rows == 0 the source leaves its outputs untouched whatever std is, because it divides by std only in the internal grad_var. The model still requires std != 0 there.
- CrossEntropy.CrossEntropyLossBackward: only dense strides are modelled, with `strides[1] == 1` and `strides[0] == classes`. Labels are floats truncated toward zero. For a label outside its row, or a zero probability at the label, the source writes outside the row or divides by zero; the model returns an error instead.
- BatchNorm.GradStdColumn: divides twice by std where the source divides once by std * std. Its contract states the result with one division of the column sum by std twice, the same quotient over the reals.
- BatchNorm.BatchNormBackward: the input gradient is stated cell by cell in terms of grad_x_centered, and its column sums are proved to be 0. No closed form in terms of the input alone is stated. The beta gradient is stated as a column sum; AddColumnSums shows that the source's loop computes that sum.
- Buffers longer than the kernel's dimensions are not modelled: every buffer has exactly the size the kernel indexes. There are two exceptions. MatMul's output may be longer. The gradient passed to Descend, StepParameter and SGDStep may be longer than the data; only its first entries are read.
- `SGD::CPUstep` and `get_learning_rate` leave the learning rate and `dW` unchanged. This holds by construction: `CPUStep` returns only the new `W`, and `GetLearningRate` returns only a value.
- src/runtime/cpu/loss/loss.cpp is an Eigen-based stub with no coherent contract, and it calls a `CPUSoftmaxForward` overload that is not part of this model.
- The declaration-only headers are not modelled: src/runtime/cpu/cpubackend.hpp, src/runtime/cpu/loss/loss.hpp, src/loss.hpp and src/optimizer.hpp. The graph engine depends on a graph library that is not part of this model.
- `dw::Tensor`, `initializer::zeros` and the Eigen matrix types are modelled only through what the kernels use: flat buffers, strides and a fill with 0.
