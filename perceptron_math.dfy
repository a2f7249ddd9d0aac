/**
  The arithmetic of a single-layer binary perceptron: the linear score, the step
  activation, the single-sample update rule, and the training passes built from it.
  Numbers are mathematical reals; labels and predictions are integers, as the step
  activation produces the integers 0 and 1.
 */
module PerceptronMath {

  datatype Error = NotFitted | ShapeMismatch

  datatype Result<T> = Ok(value: T) | Err(error: Error)

  /** A value that may be absent, as a field that holds `None` before training. */
  datatype Option<T> = None | Some(value: T)

  /** Dot product of two vectors of equal length, summed from the front. */
  function Dot(x: seq<real>, w: seq<real>): real
    requires |x| == |w|
    decreases |x|
  {
    if |x| == 0 then 0.0 else x[0] * w[0] + Dot(x[1..], w[1..])
  }

  /** The vector `w + c * v`, component by component. */
  function AddScaled(w: seq<real>, c: real, v: seq<real>): seq<real>
    requires |v| == |w|
  {
    seq(|w|, j requires 0 <= j < |w| => w[j] + c * v[j])
  }

  /** The step activation: 1 for a strictly positive weighted sum, 0 otherwise. */
  function Step(s: real): (r: int)
    ensures r == 0 || r == 1
    ensures r == 1 <==> s > 0.0
  {
    if s > 0.0 then 1 else 0
  }

  /** The activation as its documentation describes it (`>= 0`), kept only to compare with Step. */
  function DocumentedStep(s: real): int
  {
    if s >= 0.0 then 1 else 0
  }

  /** Step and its documented variant disagree exactly at a weighted sum of zero. */
  lemma StepBoundary(s: real)
    ensures Step(s) != DocumentedStep(s) <==> s == 0.0
    ensures Step(0.0) == 0
  {
  }

  /** The weighted sum `x . w + b`, or a shape error when the lengths differ. */
  function WeightedSum(x: seq<real>, w: seq<real>, b: real): (r: Result<real>)
    ensures r.Ok? <==> |x| == |w|
    ensures r.Err? ==> r.error == ShapeMismatch
  {
    if |x| != |w| then Err(ShapeMismatch) else Ok(Dot(x, w) + b)
  }

  /** The label predicted for one sample by weights `w` and bias `b`. */
  function Classify(w: seq<real>, b: real, x: seq<real>): (r: Result<int>)
    ensures r.Ok? <==> |x| == |w|
    ensures r.Err? ==> r.error == ShapeMismatch
    ensures r.Ok? ==> (r.value == 0 || r.value == 1)
    ensures r.Ok? ==> (r.value == 1 <==> Dot(x, w) + b > 0.0)
  {
    match WeightedSum(x, w, b)
    case Ok(s) => Ok(Step(s))
    case Err(e) => Err(e)
  }

  /** The labels predicted for a batch of samples, one per row, in row order. */
  function ClassifyRows(w: seq<real>, b: real, xs: seq<seq<real>>): (r: Result<seq<int>>)
    ensures r.Ok? <==> forall i :: 0 <= i < |xs| ==> |xs[i]| == |w|
    ensures r.Err? ==> r.error == ShapeMismatch
    ensures r.Ok? ==> |r.value| == |xs|
    ensures r.Ok? ==> forall i :: 0 <= i < |xs| ==> Classify(w, b, xs[i]) == Ok(r.value[i])
    decreases |xs|
  {
    if |xs| == 0 then Ok([])
    else
      var head := Classify(w, b, xs[0]);
      var rest := ClassifyRows(w, b, xs[1..]);
      if head.Err? then Err(head.error)
      else if rest.Err? then Err(rest.error)
      else Ok([head.value] + rest.value)
  }

  /** Every row of `x` has `n` features, as in a two-dimensional array with `n` columns. */
  predicate Rectangular(x: seq<seq<real>>, n: nat)
  {
    forall i :: 0 <= i < |x| ==> |x[i]| == n
  }

  /** Number of (sample, label) pairs visited in one pass: pairing stops at the shorter input. */
  function Pairs<A, B>(x: seq<A>, y: seq<B>): (r: nat)
    ensures r <= |x| && r <= |y|
    ensures r == |x| || r == |y|
  {
    if |x| <= |y| then |x| else |y|
  }

  /** Number of passes run by a loop over `range(n)`: none when `n` is not positive. */
  function Passes(n: int): (r: nat)
    ensures n > 0 ==> r == n
    ensures n <= 0 ==> r == 0
  {
    if n <= 0 then 0 else n
  }

  /**
    One training step on sample `xi` with label `yi`: predict with the current
    weights, then move the weights by `lr * (yi - prediction) * xi`. The bias is
    read for the prediction and is not changed.
   */
  function Update(w: seq<real>, b: real, lr: real, xi: seq<real>, yi: int): (r: seq<real>)
    requires |xi| == |w|
    ensures |r| == |w|
    ensures forall j :: 0 <= j < |w| ==>
      r[j] == w[j] + lr * ((yi - Classify(w, b, xi).value) as real) * xi[j]
  {
    Nudge(w, lr, yi - Classify(w, b, xi).value, xi)
  }

  /** The vector `w + lr * err * xi`: the update with prediction error `err`. */
  function Nudge(w: seq<real>, lr: real, err: int, xi: seq<real>): seq<real>
    requires |xi| == |w|
  {
    AddScaled(w, lr * (err as real), xi)
  }

  /** The weights after the first `k` steps of one pass over the pairs of `x` and `y`. */
  function EpochPrefix(w: seq<real>, b: real, lr: real, x: seq<seq<real>>, y: seq<int>, k: nat): (r: seq<real>)
    requires k <= Pairs(x, y)
    requires Rectangular(x, |w|)
    ensures |r| == |w|
    decreases k
  {
    if k == 0 then w
    else Update(EpochPrefix(w, b, lr, x, y, k - 1), b, lr, x[k - 1], y[k - 1])
  }

  /** The weights after one full pass over the pairs of `x` and `y`, in input order. */
  function Epoch(w: seq<real>, b: real, lr: real, x: seq<seq<real>>, y: seq<int>): (r: seq<real>)
    requires Rectangular(x, |w|)
    ensures |r| == |w|
  {
    EpochPrefix(w, b, lr, x, y, Pairs(x, y))
  }

  /** The weights after `n` full passes. */
  function Train(w: seq<real>, b: real, lr: real, n: nat, x: seq<seq<real>>, y: seq<int>): (r: seq<real>)
    requires Rectangular(x, |w|)
    ensures |r| == |w|
    decreases n
  {
    if n == 0 then w else Epoch(Train(w, b, lr, n - 1, x, y), b, lr, x, y)
  }

  /** The sample indices `0, 1, ..., m - 1`. */
  function Indices(m: nat): seq<nat>
  {
    seq(m, i requires 0 <= i < m => i as nat)
  }

  /** The sample indices visited by `n` passes over `m` pairs, in visiting order. */
  function Schedule(n: nat, m: nat): seq<nat>
    decreases n
  {
    if n == 0 then [] else Schedule(n - 1, m) + Indices(m)
  }

  /** Every pair of `x` and `y` is classified correctly by `w` and `b`. */
  predicate AllCorrect(w: seq<real>, b: real, x: seq<seq<real>>, y: seq<int>)
    requires Rectangular(x, |w|)
  {
    forall k :: 0 <= k < Pairs(x, y) ==> Classify(w, b, x[k]) == Ok(y[k])
  }

  // ---------------------------------------------------------------------------
  // Properties of the dot product

  lemma {:induction false} DotAddScaled(x: seq<real>, w: seq<real>, c: real, v: seq<real>)
    requires |x| == |w| == |v|
    ensures Dot(x, AddScaled(w, c, v)) == Dot(x, w) + c * Dot(x, v)
    decreases |x|
  {
    if |x| > 0 {
      var u := AddScaled(w, c, v);
      AddScaledTail(w, c, v);
      DotAddScaled(x[1..], w[1..], c, v[1..]);
      var dw, dv := Dot(x[1..], w[1..]), Dot(x[1..], v[1..]);
      assert Dot(x, u) == x[0] * u[0] + (dw + c * dv);
      assert x[0] * u[0] == x[0] * w[0] + c * (x[0] * v[0]) by {
        assert u[0] == w[0] + c * v[0];
      }
    }
  }

  lemma AddScaledTail(w: seq<real>, c: real, v: seq<real>)
    requires |v| == |w| > 0
    ensures AddScaled(w, c, v)[1..] == AddScaled(w[1..], c, v[1..])
  {
    var u := AddScaled(w, c, v);
    forall j | 0 <= j < |w| - 1
      ensures u[1..][j] == AddScaled(w[1..], c, v[1..])[j]
    {
      var wt, vt := w[1..], v[1..];
      assert wt[j] == w[j + 1] && vt[j] == v[j + 1];
      assert AddScaled(wt, c, vt)[j] == wt[j] + c * vt[j];
      assert u[1..][j] == u[j + 1] == w[j + 1] + c * v[j + 1];
    }
  }

  lemma {:induction false} DotSelfNonNegative(x: seq<real>)
    ensures Dot(x, x) >= 0.0
    decreases |x|
  {
    if |x| > 0 {
      DotSelfNonNegative(x[1..]);
    }
  }

  // ---------------------------------------------------------------------------
  // Properties of one update step

  /** A sample the current weights already classify correctly leaves the weights unchanged. */
  lemma UpdateKeepsCorrect(w: seq<real>, b: real, lr: real, xi: seq<real>, yi: int)
    requires |xi| == |w|
    requires Classify(w, b, xi) == Ok(yi)
    ensures Update(w, b, lr, xi, yi) == w
  {
    // the prediction error `yi - prediction` is zero, so every component moves by zero
  }

  /**
    With a label in {0, 1}, every component moves by `+lr * xi[j]` (a missed positive),
    by `-lr * xi[j]` (a false positive), or not at all (a correct prediction).
   */
  lemma UpdateDirection(w: seq<real>, b: real, lr: real, xi: seq<real>, yi: int)
    requires |xi| == |w|
    requires yi == 0 || yi == 1
    ensures |Update(w, b, lr, xi, yi)| == |w|
    ensures Classify(w, b, xi) == Ok(yi) ==> Update(w, b, lr, xi, yi) == w
    ensures yi == 1 && Classify(w, b, xi) == Ok(0) ==>
      forall j :: 0 <= j < |w| ==> Update(w, b, lr, xi, yi)[j] == w[j] + lr * xi[j]
    ensures yi == 0 && Classify(w, b, xi) == Ok(1) ==>
      forall j :: 0 <= j < |w| ==> Update(w, b, lr, xi, yi)[j] == w[j] - lr * xi[j]
  {
    // the prediction error `yi - prediction` is 1, -1 or 0 in the three cases;
    // the lemma below settles the zero case, which the solver otherwise finds only on some seeds
    if Classify(w, b, xi) == Ok(yi) {
      UpdateKeepsCorrect(w, b, lr, xi, yi);
    }
  }

  /** An update shifts the weighted sum of its own sample by `lr * (yi - prediction) * |xi|^2`. */
  lemma UpdateScoreShift(w: seq<real>, b: real, lr: real, xi: seq<real>, yi: int)
    requires |xi| == |w|
    ensures |Update(w, b, lr, xi, yi)| == |w|
    ensures Dot(xi, Update(w, b, lr, xi, yi)) + b ==
      Dot(xi, w) + b + lr * ((yi - Classify(w, b, xi).value) as real) * Dot(xi, xi)
  {
    DotAddScaled(xi, w, lr * ((yi - Classify(w, b, xi).value) as real), xi);
  }

  /**
    With a positive learning rate, a missed positive sample never loses weighted sum
    and a false positive never gains any: the update moves toward the true label.
   */
  lemma UpdateTowardLabel(w: seq<real>, b: real, lr: real, xi: seq<real>, yi: int)
    requires |xi| == |w|
    requires lr > 0.0
    ensures |Update(w, b, lr, xi, yi)| == |w|
    ensures yi == 1 && Classify(w, b, xi) == Ok(0) ==>
      Dot(xi, Update(w, b, lr, xi, yi)) + b >= Dot(xi, w) + b
    ensures yi == 0 && Classify(w, b, xi) == Ok(1) ==>
      Dot(xi, Update(w, b, lr, xi, yi)) + b <= Dot(xi, w) + b
  {
    UpdateScoreShift(w, b, lr, xi, yi);
    DotSelfNonNegative(xi);
    var d := Dot(xi, xi);
    assert lr * 1.0 * d >= 0.0 by {
      assert lr * d >= 0.0;
    }
    assert lr * (-1.0) * d <= 0.0 by {
      assert lr * d >= 0.0;
    }
  }

  // ---------------------------------------------------------------------------
  // Properties of whole passes

  lemma {:induction false} EpochPrefixFixed(w: seq<real>, b: real, lr: real, x: seq<seq<real>>, y: seq<int>, k: nat)
    requires Rectangular(x, |w|)
    requires k <= Pairs(x, y)
    requires AllCorrect(w, b, x, y)
    ensures EpochPrefix(w, b, lr, x, y, k) == w
    decreases k
  {
    if k > 0 {
      EpochPrefixFixed(w, b, lr, x, y, k - 1);
      UpdateKeepsCorrect(w, b, lr, x[k - 1], y[k - 1]);
    }
  }

  /** Once every pair is classified correctly, any number of further passes changes nothing. */
  lemma {:induction false} TrainFixed(w: seq<real>, b: real, lr: real, n: nat, x: seq<seq<real>>, y: seq<int>)
    requires Rectangular(x, |w|)
    requires AllCorrect(w, b, x, y)
    ensures Train(w, b, lr, n, x, y) == w
    decreases n
  {
    if n > 0 {
      TrainFixed(w, b, lr, n - 1, x, y);
      EpochPrefixFixed(w, b, lr, x, y, Pairs(x, y));
    }
  }

  /** Running `n1 + n2` passes is running `n1` passes and then `n2` more from where they stopped. */
  lemma {:induction false} TrainSplit(w: seq<real>, b: real, lr: real, n1: nat, n2: nat, x: seq<seq<real>>, y: seq<int>)
    requires Rectangular(x, |w|)
    ensures Train(w, b, lr, n1 + n2, x, y) == Train(Train(w, b, lr, n1, x, y), b, lr, n2, x, y)
    decreases n2
  {
    if n2 > 0 {
      TrainSplit(w, b, lr, n1, n2 - 1, x, y);
    }
  }

  /** `n` passes over `m` pairs visit `n * m` samples, the `k`-th of them being sample `k % m`. */
  lemma {:induction false} ScheduleShape(n: nat, m: nat)
    ensures |Schedule(n, m)| == n * m
    ensures forall k :: 0 <= k < n * m ==> Schedule(n, m)[k] == k % m
    decreases n
  {
    if n > 0 {
      ScheduleShape(n - 1, m);
      var s := Schedule(n, m);
      assert |s| == (n - 1) * m + m == n * m;
      forall k | 0 <= k < n * m
        ensures s[k] == k % m
      {
        if k >= (n - 1) * m {
          var i := k - (n - 1) * m;
          ModUnique(k, n - 1, m, i);
        }
      }
    }
  }

  /** Euclidean remainder is unique: `q * m + r` leaves remainder `r` when `0 <= r < m`. */
  lemma ModUnique(k: int, q: int, m: int, r: int)
    requires m > 0 && 0 <= r < m && k == q * m + r
    ensures k % m == r
  {
    var t := q - k / m;
    assert k == (k / m) * m + k % m;
    assert t * m == k % m - r;
    MultipleOutsideBand(t, m);
  }

  /** A nonzero multiple of a positive `m` lies at least `m` away from zero. */
  lemma MultipleOutsideBand(t: int, m: int)
    requires m > 0
    ensures t >= 1 ==> t * m >= m
    ensures t <= -1 ==> t * m <= -m
  {
    if t >= 1 {
      assert t * m == (t - 1) * m + m;
      assert (t - 1) * m >= 0;
    } else if t <= -1 {
      assert t * m == (t + 1) * m - m;
      assert (t + 1) * m <= 0;
    }
  }
}
