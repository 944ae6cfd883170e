/** Values shared by the whole model: the Python exceptions the modelled code can
    raise, a failure-compatible result, numpy floats and elementwise vector arithmetic
    on the solver's energy grid. */
module Common {

  /** The exceptions raised by the modelled code. */
  datatype Error =
    | KeyError(key: string)        // a dictionary lookup of a missing string key
    | PdgKeyError(id: int)         // a dictionary lookup of a missing PDG id
    | IndexError                   // a list or array index out of range
    | ValueError(reason: string)   // a malformed value (unpacking, argmax of nothing)
    | NameError(name: string)      // a name that is not defined where it is used
    | ZeroDivisionError            // a Python float divided by zero
    | Raised(message: string)      // an explicit `raise Exception(message)`

  /** The outcome of an operation that either returns a value or raises. */
  datatype Result<+T> = Ok(value: T) | Err(error: Error) {
    predicate IsFailure() { Err? }
    function PropagateFailure<U>(): Result<U> requires Err? { Err(error) }
    function Extract(): T requires Ok? { value }
  }

  datatype Option<+T> = None | Some(value: T)

  /** A numpy float64: a real number, or an infinity or NaN (numpy divides by zero without raising). */
  datatype Float = Num(v: real) | NonFinite

  /** numpy's `num / den` on float64 values: finite exactly when the denominator is
      non-zero, and then the quotient, which times the denominator gives the numerator back. */
  function Divide(num: real, den: real): (q: Float)
    ensures q.Num? <==> den != 0.0
    ensures q.Num? ==> q.v * den == num
  {
    if den == 0.0 then NonFinite else Num(num / den)
  }

  /** numpy's elementwise `a / b`. */
  function DivideAll(a: seq<real>, b: seq<real>): (q: seq<Float>)
    requires |a| == |b|
    ensures |q| == |a|
    ensures forall i :: 0 <= i < |a| ==> q[i] == Divide(a[i], b[i])
  {
    seq(|a|, i requires 0 <= i < |a| => Divide(a[i], b[i]))
  }

  /** `np.zeros(n)` */
  function Zeros(n: nat): (z: seq<real>)
    ensures |z| == n
    ensures forall i :: 0 <= i < n ==> z[i] == 0.0
  {
    seq(n, _ => 0.0)
  }

  /** numpy's elementwise `a + b`. */
  function Add(a: seq<real>, b: seq<real>): (c: seq<real>)
    requires |a| == |b|
    ensures |c| == |a|
    ensures forall i :: 0 <= i < |a| ==> c[i] == a[i] + b[i]
  {
    seq(|a|, i requires 0 <= i < |a| => a[i] + b[i])
  }

  /** numpy's elementwise `a * b`. */
  function Mul(a: seq<real>, b: seq<real>): (c: seq<real>)
    requires |a| == |b|
    ensures |c| == |a|
    ensures forall i :: 0 <= i < |a| ==> c[i] == a[i] * b[i]
  {
    seq(|a|, i requires 0 <= i < |a| => a[i] * b[i])
  }

  /** numpy's `a * k` for a scalar `k`. */
  function Scale(a: seq<real>, k: real): (c: seq<real>)
    ensures |c| == |a|
    ensures forall i :: 0 <= i < |a| ==> c[i] == a[i] * k
  {
    seq(|a|, i requires 0 <= i < |a| => a[i] * k)
  }

  /** The sum of a sequence, accumulated left to right as a Python loop does. */
  function Sum(s: seq<real>): real
  {
    if |s| == 0 then 0.0 else Sum(s[..|s| - 1]) + s[|s| - 1]
  }

  /** Summing termwise smaller terms gives a smaller sum. */
  lemma {:induction false} SumMonotone(a: seq<real>, b: seq<real>)
    requires |a| == |b|
    requires forall i :: 0 <= i < |a| ==> a[i] <= b[i]
    ensures Sum(a) <= Sum(b)
  {
    if |a| > 0 {
      SumMonotone(a[..|a| - 1], b[..|b| - 1]);
    }
  }

  /** A sum of non-negative terms is non-negative. */
  lemma {:induction false} SumNonNegative(a: seq<real>)
    requires forall i :: 0 <= i < |a| ==> 0.0 <= a[i]
    ensures 0.0 <= Sum(a)
  {
    if |a| > 0 {
      SumNonNegative(a[..|a| - 1]);
    }
  }

  /** Multiplying both sides by a non-negative factor keeps an inequality. */
  lemma MulMonotone(a: real, b: real, w: real)
    requires a <= b && 0.0 <= w
    ensures a * w <= b * w
  {
  }

  /** The product of two probabilities is a probability no larger than either. */
  lemma ProductOfProbabilities(a: real, b: real)
    requires 0.0 <= a <= 1.0 && 0.0 <= b <= 1.0
    ensures 0.0 <= a * b && a * b <= a && a * b <= b
  {
    MulMonotone(0.0, b, a);
    MulMonotone(b, 1.0, a);
    assert b * a == a * b;
    MulMonotone(a, 1.0, b);
  }

  /** Sample points in non-decreasing order, as `np.logspace(a, b, n)` gives them when
      `a <= b`; with `a > b` it gives them in decreasing order. */
  ghost predicate NonDecreasing(x: seq<real>)
  {
    forall i :: 0 < i < |x| ==> x[i - 1] <= x[i]
  }

  /** `scipy.integrate.trapz(y, x)`: the trapezoid rule over the sample points `x`;
      fewer than two points integrate to zero. */
  function Trapz(y: seq<real>, x: seq<real>): real
    requires |y| == |x|
    decreases |y|
  {
    if |y| < 2 then 0.0
    else (x[1] - x[0]) * (y[0] + y[1]) / 2.0 + Trapz(y[1..], x[1..])
  }

  /** On non-decreasing sample points the trapezoid rule keeps a pointwise order. */
  lemma {:induction false} TrapzMonotone(y: seq<real>, z: seq<real>, x: seq<real>)
    requires |y| == |z| == |x| && NonDecreasing(x)
    requires forall i :: 0 <= i < |y| ==> y[i] <= z[i]
    ensures Trapz(y, x) <= Trapz(z, x)
    decreases |y|
  {
    if |y| >= 2 {
      assert x[0] <= x[1];
      MulMonotone((y[0] + y[1]) / 2.0, (z[0] + z[1]) / 2.0, x[1] - x[0]);
      assert (x[1] - x[0]) * (y[0] + y[1]) / 2.0 <= (x[1] - x[0]) * (z[0] + z[1]) / 2.0;
      TrapzMonotone(y[1..], z[1..], x[1..]);
    }
  }

  /** `np.dot(row, v)` for two vectors. */
  function Dot(row: seq<real>, v: seq<real>): real
    requires |row| == |v|
  {
    Sum(Mul(row, v))
  }

  /** A square matrix on a grid of `n` points. */
  ghost predicate IsMatrix(m: seq<seq<real>>, n: nat)
  {
    |m| == n && forall i :: 0 <= i < |m| ==> |m[i]| == n
  }

  /** `np.dot(m, v)` for a matrix and a vector. */
  function MatVec(m: seq<seq<real>>, v: seq<real>): (r: seq<real>)
    requires forall i :: 0 <= i < |m| ==> |m[i]| == |v|
    ensures |r| == |m|
    ensures forall i :: 0 <= i < |m| ==> r[i] == Dot(m[i], v)
  {
    seq(|m|, i requires 0 <= i < |m| => Dot(m[i], v))
  }
}
