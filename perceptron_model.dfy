/**
  The perceptron object: a learning rate and an iteration count fixed at
  construction, and a weight vector and bias that are absent until training and
  are then written in place by `Fit`.
 */
module PerceptronModel {
  import opened PerceptronMath

  class Perceptron {
    var lr: real
    var nIters: int
    var weights: Option<seq<real>>
    var bias: Option<real>

    /** A fresh, untrained model. */
    constructor (learningRate: real, iterations: int)
      ensures lr == learningRate && nIters == iterations
      ensures weights == None && bias == None
    {
      lr := learningRate;
      nIters := iterations;
      weights := None;
      bias := None;
    }

    /** A fresh, untrained model with the default learning rate 0.01 and 1000 iterations. */
    constructor Default()
      ensures lr == 0.01 && nIters == 1000
      ensures weights == None && bias == None
    {
      lr := 0.01;
      nIters := 1000;
      weights := None;
      bias := None;
    }

    /**
      The label for one sample: the step activation of `x . weights + bias`.
      Fails before training, and on a sample whose length differs from the weights'.
     */
    function Predict(x: seq<real>): (r: Result<int>)
      reads this
      ensures r.Ok? <==> weights.Some? && bias.Some? && |x| == |weights.value|
      ensures (weights.None? || bias.None?) ==> r == Err(NotFitted)
      ensures weights.Some? && bias.Some? && |x| != |weights.value| ==> r == Err(ShapeMismatch)
      ensures r.Ok? ==> (r.value == 0 || r.value == 1)
      ensures r.Ok? ==> (r.value == 1 <==> Dot(x, weights.value) + bias.value > 0.0)
    {
      if weights.None? || bias.None? then Err(NotFitted)
      else Classify(weights.value, bias.value, x)
    }

    /** The labels for a batch of samples, one per row; fails if any row has the wrong length. */
    function PredictRows(xs: seq<seq<real>>): (r: Result<seq<int>>)
      reads this
      ensures r.Ok? <==> weights.Some? && bias.Some? && Rectangular(xs, |weights.value|)
      ensures (weights.None? || bias.None?) ==> r == Err(NotFitted)
      ensures weights.Some? && bias.Some? && !Rectangular(xs, |weights.value|) ==> r == Err(ShapeMismatch)
      ensures r.Ok? ==> |r.value| == |xs|
      ensures r.Ok? ==> forall i :: 0 <= i < |xs| ==> Predict(xs[i]) == Ok(r.value[i])
    {
      if weights.None? || bias.None? then Err(NotFitted)
      else ClassifyRows(weights.value, bias.value, xs)
    }

    /**
      Trains the model on the rows of `x` with labels `y`, starting from the weights
      `initWeights` and bias `initBias` (the initial draw), and returns the model itself.
      Each of the `nIters` passes visits the pairs of `x` and `y` in order, stopping at
      the shorter of the two; each visit predicts with the current weights and moves
      them by `lr * (label - prediction) * sample`. The bias keeps its initial value.
      When some row does not have `|initWeights|` features, nothing is changed.
      `visited` lists the sample indices in the order the visits took place.
     */
    method Fit(x: seq<seq<real>>, y: seq<int>, initWeights: seq<real>, initBias: real)
      returns (r: Result<Perceptron>, ghost visited: seq<nat>)
      modifies this
      ensures lr == old(lr) && nIters == old(nIters)
      ensures !Rectangular(x, |initWeights|) ==>
        r == Err(ShapeMismatch) && weights == old(weights) && bias == old(bias) && visited == []
      ensures Rectangular(x, |initWeights|) ==>
        && r == Ok(this)
        && weights == Some(Train(initWeights, initBias, lr, Passes(nIters), x, y))
        && |weights.value| == |initWeights|
        && (nIters <= 0 ==> weights == Some(initWeights))
        && bias == Some(initBias)
        && visited == Schedule(Passes(nIters), Pairs(x, y))
    {
      if !Rectangular(x, |initWeights|) {
        return Err(ShapeMismatch), [];
      }
      weights := Some(initWeights);
      bias := Some(initBias);
      visited := [];
      var m := Pairs(x, y);
      var i := 0;
      while i < nIters
        invariant 0 <= i <= Passes(nIters)
        invariant lr == old(lr) && nIters == old(nIters) && bias == Some(initBias)
        invariant weights == Some(Train(initWeights, initBias, lr, i, x, y))
        invariant visited == Schedule(i, m)
      {
        ghost var start := weights.value;
        var j := 0;
        while j < m
          invariant 0 <= j <= m
          invariant lr == old(lr) && nIters == old(nIters) && bias == Some(initBias)
          invariant weights == Some(EpochPrefix(start, initBias, lr, x, y, j))
          invariant visited == Schedule(i, m) + Indices(j)
        {
          ghost var before := weights.value;
          var yPred := Predict(x[j]).value;
          weights := Some(Nudge(weights.value, lr, y[j] - yPred, x[j]));
          assert weights.value == Update(before, initBias, lr, x[j], y[j]);
          assert Indices(j) + [j] == Indices(j + 1);
          visited := visited + [j];
          j := j + 1;
        }
        i := i + 1;
      }
      r := Ok(this);
    }
  }
}
