/** Exact sums over buffers.

    The kernels accumulate left to right into a variable that starts at 0
    (`sum += x`); `Sum` is that accumulation, over `real` instead of float32.
    The lemmas here are the algebra the kernel proofs need: sums are linear,
    a constant sums to its count times itself, and a one-hot sequence sums to
    its one non-zero entry.
 */
module Sums {

  /** Left-to-right accumulation of `s` starting from 0. */
  function Sum(s: seq<real>): real
  {
    if |s| == 0 then 0.0 else Sum(s[..|s| - 1]) + s[|s| - 1]
  }

  /** Pointwise product of two equally long sequences. */
  function Products(x: seq<real>, y: seq<real>): (z: seq<real>)
    requires |x| == |y|
    ensures |z| == |x|
    ensures forall k :: 0 <= k < |z| ==> z[k] == x[k] * y[k]
  {
    seq(|x|, k requires 0 <= k < |x| => x[k] * y[k])
  }

  /** Each entry of `s` divided by `d`. */
  function Quotients(s: seq<real>, d: real): (q: seq<real>)
    requires d != 0.0 || |s| == 0
    ensures |q| == |s|
    ensures forall k :: 0 <= k < |q| ==> q[k] == s[k] / d
  {
    seq(|s|, k requires 0 <= k < |s| => s[k] / d)
  }

  /** Inner product: the accumulation `sum += x[k] * y[k]` of a matrix product. */
  function Inner(x: seq<real>, y: seq<real>): real
    requires |x| == |y|
  {
    Sum(Products(x, y))
  }

  /** Extending the accumulation by one element adds that element. */
  lemma {:induction false} SumPrefix(s: seq<real>, i: nat)
    requires i < |s|
    ensures Sum(s[..i + 1]) == Sum(s[..i]) + s[i]
  {
    assert s[..i + 1][..i] == s[..i];
  }

  /** Sums are linear: a pointwise combination x*a + y*b sums to x*Sum(a) + y*Sum(b). */
  lemma {:induction false} SumLinear(a: seq<real>, b: seq<real>, c: seq<real>, x: real, y: real)
    requires |a| == |c| && |b| == |c|
    requires forall k :: 0 <= k < |c| ==> c[k] == x * a[k] + y * b[k]
    ensures Sum(c) == x * Sum(a) + y * Sum(b)
  {
    if |c| > 0 {
      var n := |c| - 1;
      SumLinear(a[..n], b[..n], c[..n], x, y);
    }
  }

  /** A sequence whose entries all equal v sums to |s| * v. */
  lemma {:induction false} SumConstant(s: seq<real>, v: real)
    requires forall k :: 0 <= k < |s| ==> s[k] == v
    ensures Sum(s) == |s| as real * v
  {
    if |s| > 0 {
      SumConstant(s[..|s| - 1], v);
    }
  }

  /** The mean of a non-empty constant sequence is the constant. */
  lemma {:induction false} MeanOfConstant(s: seq<real>, v: real)
    requires 0 < |s|
    requires forall k :: 0 <= k < |s| ==> s[k] == v
    ensures Sum(s) / |s| as real == v
  {
    SumConstant(s, v);
    var n := |s| as real;
    assert n * v / n == v;
  }

  /** A sequence of non-negative entries has a non-negative sum. */
  lemma {:induction false} SumNonNegative(s: seq<real>)
    requires forall k :: 0 <= k < |s| ==> 0.0 <= s[k]
    ensures 0.0 <= Sum(s)
  {
    if |s| > 0 {
      SumNonNegative(s[..|s| - 1]);
    }
  }

  /** Subtracting the same v from every entry lowers the sum by |s| * v. */
  lemma {:induction false} SumShift(a: seq<real>, c: seq<real>, v: real)
    requires |a| == |c|
    requires forall k :: 0 <= k < |c| ==> c[k] == a[k] - v
    ensures Sum(c) == Sum(a) - |a| as real * v
  {
    if |c| > 0 {
      var n := |c| - 1;
      SumShift(a[..n], c[..n], v);
      assert |a| as real * v == n as real * v + v;
    }
  }

  /** Subtracting the mean from every entry leaves a sequence that sums to 0. */
  lemma {:induction false} SumCentered(a: seq<real>, c: seq<real>)
    requires 0 < |a| && |a| == |c|
    requires forall k :: 0 <= k < |c| ==> c[k] == a[k] - Sum(a) / |a| as real
    ensures Sum(c) == 0.0
  {
    var n := |a| as real;
    var total := Sum(a);
    var mean := total / n;
    SumShift(a, c, mean);
    assert Sum(c) == total - n * mean;
    MulDivCancel(n, total);
    assert n * mean == total;
  }

  lemma MulDivCancel(n: real, x: real)
    requires n != 0.0
    ensures n * (x / n) == x
  {
  }

  /** Dividing every entry by a non-zero d divides the sum by d. */
  lemma {:induction false} SumDivide(a: seq<real>, c: seq<real>, d: real)
    requires d != 0.0 && |a| == |c|
    requires forall k :: 0 <= k < |c| ==> c[k] == a[k] / d
    ensures Sum(c) == Sum(a) / d
  {
    if |c| > 0 {
      var n := |c| - 1;
      SumDivide(a[..n], c[..n], d);
      assert Sum(a[..n]) / d + a[n] / d == (Sum(a[..n]) + a[n]) / d;
    }
  }

  /** A sequence that is zero everywhere except at index t sums to s[t]. */
  lemma {:induction false} SumOneHot(s: seq<real>, t: nat)
    requires t < |s|
    requires forall k :: 0 <= k < |s| && k != t ==> s[k] == 0.0
    ensures Sum(s) == s[t]
  {
    var n := |s| - 1;
    if t == n {
      SumConstant(s[..n], 0.0);
    } else {
      SumOneHot(s[..n], t);
    }
  }

  /** The inner product does not depend on the order of its arguments. */
  lemma {:induction false} InnerSymmetric(x: seq<real>, y: seq<real>)
    requires |x| == |y|
    ensures Inner(x, y) == Inner(y, x)
  {
    assert Products(x, y) == Products(y, x);
  }
}
