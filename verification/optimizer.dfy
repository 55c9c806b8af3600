/** Stochastic gradient descent: the reference kernel that steps a list of
    parameters, and the SGD optimizer object with its learning rate. */
module Optimizer {

  /** A parameter tensor: its values, their gradient, and whether the
      optimizer may change it. */
  datatype Parameter = Parameter(data: seq<real>, grad: seq<real>, trainable: bool)

  /** One descent step on one buffer: value minus lr times gradient,
      entry by entry over the values. */
  function Descend(data: seq<real>, grad: seq<real>, lr: real): (r: seq<real>)
    requires |data| <= |grad|
    ensures |r| == |data|
    ensures forall i :: 0 <= i < |data| ==> r[i] == data[i] - lr * grad[i]
  {
    seq(|data|, i requires 0 <= i < |data| => data[i] - lr * grad[i])
  }

  /** A step of size lr is undone by a step of size -lr along the same
      gradient: the update moves each value by exactly lr times its gradient. */
  lemma {:induction false} DescendUndone(data: seq<real>, grad: seq<real>, lr: real)
    requires |data| <= |grad|
    ensures Descend(Descend(data, grad, lr), grad, -lr) == data
  {
    var back := Descend(Descend(data, grad, lr), grad, -lr);
    forall i | 0 <= i < |data|
      ensures back[i] == data[i]
    {
      StepArithmetic(data[i], grad[i], lr, -lr);
    }
  }

  /** The step applied to one parameter: only a trainable one moves. */
  function StepParameter(p: Parameter, lr: real): (q: Parameter)
    requires |p.data| <= |p.grad|
    ensures q.grad == p.grad && q.trainable == p.trainable && |q.data| == |p.data|
    ensures !p.trainable ==> q == p
    ensures p.trainable ==> forall i :: 0 <= i < |p.data| ==> q.data[i] == p.data[i] - lr * p.grad[i]
  {
    if p.trainable then p.(data := Descend(p.data, p.grad, lr)) else p
  }

  /** Every parameter has a gradient entry for each of its values. */
  predicate WellShaped(params: seq<Parameter>)
  {
    forall k :: 0 <= k < |params| ==> |params[k].data| <= |params[k].grad|
  }

  /** SGDStep: every trainable parameter takes one descent step of size lr;
      the others, and every gradient, are left as they were. */
  function SGDStep(params: seq<Parameter>, lr: real): (r: seq<Parameter>)
    requires WellShaped(params)
    ensures |r| == |params| && WellShaped(r)
    ensures forall k :: 0 <= k < |params| ==>
              r[k].grad == params[k].grad && r[k].trainable == params[k].trainable
              && |r[k].data| == |params[k].data|
    ensures forall k :: 0 <= k < |params| && !params[k].trainable ==> r[k] == params[k]
    ensures forall k, i :: 0 <= k < |params| && params[k].trainable && 0 <= i < |params[k].data| ==>
              r[k].data[i] == params[k].data[i] - lr * params[k].grad[i]
  {
    seq(|params|, k requires 0 <= k < |params| => StepParameter(params[k], lr))
  }

  /** Since a step leaves the gradients alone, two steps of sizes a and b
      are one step of size a + b. */
  lemma {:induction false} SGDStepsCompose(params: seq<Parameter>, a: real, b: real)
    requires WellShaped(params)
    ensures SGDStep(SGDStep(params, a), b) == SGDStep(params, a + b)
  {
    var once := SGDStep(params, a);
    var twice := SGDStep(once, b);
    var direct := SGDStep(params, a + b);
    forall k | 0 <= k < |params|
      ensures twice[k] == direct[k]
    {
      if params[k].trainable {
        forall i | 0 <= i < |params[k].data|
          ensures twice[k].data[i] == direct[k].data[i]
        {
          StepArithmetic(params[k].data[i], params[k].grad[i], a, b);
        }
      }
    }
  }

  lemma StepArithmetic(x: real, g: real, a: real, b: real)
    ensures x - a * g - b * g == x - (a + b) * g
  {
  }

  /** A step of size 0 changes nothing. */
  lemma {:induction false} SGDStepZero(params: seq<Parameter>)
    requires WellShaped(params)
    ensures SGDStep(params, 0.0) == params
  {
    var r := SGDStep(params, 0.0);
    forall k | 0 <= k < |params|
      ensures r[k] == params[k]
    {
      if params[k].trainable {
        assert r[k].data == params[k].data;
      }
    }
  }

  /** The optimizer object: the learning rate is its whole state. */
  datatype SGD = SGD(learningRate: real)

  /** SGD::SGD(lr): a fresh optimizer whose learning rate is lr. */
  function NewSGD(lr: real): (o: SGD)
    ensures GetLearningRate(o) == lr
  {
    SGD(lr)
  }

  /** get_learning_rate: reads the stored rate. */
  function GetLearningRate(o: SGD): real
  {
    o.learningRate
  }

  /** set_learning_rate: replaces the stored rate, after which the getter
      returns it; nothing else is kept, so the result is the optimizer
      built fresh with that rate. */
  function SetLearningRate(o: SGD, lr: real): (o': SGD)
    ensures GetLearningRate(o') == lr
    ensures o' == NewSGD(lr)
  {
    o.(learningRate := lr)
  }

  /** Storing the rate just read back into the optimizer changes nothing:
      the getter reports the whole state. */
  lemma {:induction false} SetLearningRateToCurrent(o: SGD)
    ensures SetLearningRate(o, GetLearningRate(o)) == o
  {
  }

  /** CPUstep: W becomes W - learning_rate * dW entry by entry; an entry
      whose gradient is 0 keeps its value. The two matrices have one shape. */
  function CPUStep(o: SGD, w: seq<real>, dW: seq<real>): (w': seq<real>)
    requires |w| == |dW|
    ensures |w'| == |w|
    ensures forall i :: 0 <= i < |w| ==> w'[i] == w[i] - GetLearningRate(o) * dW[i]
    ensures forall i :: 0 <= i < |w| && dW[i] == 0.0 ==> w'[i] == w[i]
  {
    Descend(w, dW, o.learningRate)
  }

  /** The optimizer's step on one matrix is the reference SGDStep on a single
      trainable parameter holding that matrix and its gradient. */
  lemma {:induction false} CPUStepAgreesWithSGDStep(o: SGD, w: seq<real>, dW: seq<real>)
    requires |w| == |dW|
    ensures WellShaped([Parameter(w, dW, true)])
    ensures SGDStep([Parameter(w, dW, true)], GetLearningRate(o)) == [Parameter(CPUStep(o, w, dW), dW, true)]
  {
    var r := SGDStep([Parameter(w, dW, true)], GetLearningRate(o));
    assert r[0].data == CPUStep(o, w, dW);
  }
}
