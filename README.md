# Perceptron: a verified model

This project models the `Perceptron` class of `exercises/session03/perceptron.py`: a
single-layer binary classifier trained with the online perceptron rule. The model has two
modules.

- `PerceptronMath` (`perceptron_math.dfy`) holds the pure part. `Dot` is the dot product,
  `WeightedSum` is `x . w + b`, `Step` is the activation and `Classify` is the prediction for
  one sample; `ClassifyRows` predicts a batch. `Update` is one training step. `EpochPrefix`,
  `Epoch` and `Train` are the training passes, built from `Update` in input order. Beside
  them are the lemmas about the update rule and about whole passes.
- `PerceptronModel` (`perceptron_model.dfy`) holds the class `Perceptron`. Its fields are
  `lr`, `nIters`, `weights` and `bias`; `weights` and `bias` are `None` until training, as in
  the source. `Predict` and `PredictRows` are functions that read the fields. Because they
  are functions, they change nothing and give the same answer for the same state and input.
  `Fit` writes the fields in place with two nested `while` loops, like the source's epoch loop
  and its loop over `zip(x, y)`. Its postcondition ties the final weights to `Train`, the
  bias to its initial value, and the order of visits to `Schedule`.

Numbers are mathematical reals. The random initial draw is replaced by the parameters
`initWeights` and `initBias` of `Fit`, so training is deterministic. The number of features
is `|initWeights|`. Labels and predictions are integers, since the activation yields the
integers 0 and 1.

The model follows the code on these points, where its comments or a reader might expect otherwise:

- The activation returns 1 only for a weighted sum strictly greater than 0. The docstring
  says `>= 0`. `StepBoundary` shows the two differ exactly at 0.
- Training updates the weights only; the bias keeps its initial value.
- Samples and labels of different counts are not an error. Pairing stops at the shorter of
  the two, as `zip` does (`Pairs`).
- A non-positive iteration count runs no pass, as `range` does (`Passes`).

## Model

| member | source | states |
|---|---|---|
| `PerceptronMath.Step` | exercises/session03/perceptron.py:65 | the activation returns only 0 or 1, and returns 1 exactly when its input is strictly positive |
| `PerceptronMath.StepBoundary` | exercises/session03/perceptron.py:51-65 | the code's `> 0` and the documented `>= 0` disagree exactly at a weighted sum of 0, which the code maps to 0 |
| `PerceptronMath.WeightedSum` | exercises/session03/perceptron.py:45 | the weighted sum is defined exactly when the sample and the weights have the same length; otherwise it is a shape error |
| `PerceptronMath.Classify` | exercises/session03/perceptron.py:81-83 | a prediction exists exactly when the lengths agree; it is 0 or 1, and 1 exactly when `x . w + b > 0` |
| `PerceptronMath.ClassifyRows` | exercises/session03/perceptron.py:81-83 | a batch prediction succeeds exactly when every row has the weights' length; it has one label per row, each the single-sample prediction of that row |
| `PerceptronMath.Pairs` | exercises/session03/perceptron.py:105 | one pass visits `min(|x|, |y|)` pairs: never more than either input holds, and exactly as many as the shorter one, as `zip` truncates |
| `PerceptronMath.Passes` | exercises/session03/perceptron.py:103 | `range(n_iters)` runs `n_iters` passes when it is positive and none otherwise |
| `PerceptronMath.Update` | exercises/session03/perceptron.py:107-111 | one step keeps the length, and component `j` of the new weights is `w[j] + lr * (yi - Classify(w, b, xi)) * xi[j]`; the bias is read for the prediction and not changed (see the `Update*` lemmas for what this means) |
| `PerceptronMath.EpochPrefix` | exercises/session03/perceptron.py:105-111 | any number of update steps keeps the weight vector's length |
| `PerceptronMath.Epoch` | exercises/session03/perceptron.py:105-111 | a full pass over the pairs keeps the weight vector's length |
| `PerceptronMath.Train` | exercises/session03/perceptron.py:103-111 | any number of passes keeps the weight vector's length |
| `PerceptronMath.DotAddScaled` | exercises/session03/perceptron.py:111 | the dot product is linear in the weights: `x . (w + c v) == x . w + c (x . v)` |
| `PerceptronMath.DotSelfNonNegative` | exercises/session03/perceptron.py:45 | `Dot`, the sum of `x[j] * w[j]` that `np.dot` computes, is never negative on a vector with itself |
| `PerceptronMath.UpdateKeepsCorrect` | exercises/session03/perceptron.py:107-111 | a sample the current weights classify correctly leaves the weights unchanged, whatever the label values |
| `PerceptronMath.UpdateDirection` | exercises/session03/perceptron.py:107-111 | with a label in {0, 1}, each component moves by `+lr * xi[j]` on a missed positive, by `-lr * xi[j]` on a false positive, and not at all on a correct prediction; the length is kept |
| `PerceptronMath.UpdateScoreShift` | exercises/session03/perceptron.py:107-111 | an update shifts the weighted sum of its own sample by `lr * (yi - prediction) * (xi . xi)` |
| `PerceptronMath.UpdateTowardLabel` | exercises/session03/perceptron.py:107-111 | with a positive learning rate, a missed positive never loses weighted sum and a false positive never gains any |
| `PerceptronMath.EpochPrefixFixed` | exercises/session03/perceptron.py:105-111 | when every pair is classified correctly, any prefix of a pass leaves the weights unchanged |
| `PerceptronMath.TrainFixed` | exercises/session03/perceptron.py:103-111 | once every pair is classified correctly, any number of further passes leaves the weights unchanged |
| `PerceptronMath.TrainSplit` | exercises/session03/perceptron.py:103-111 | `n1 + n2` passes equal `n1` passes followed by `n2` passes from where they stopped |
| `PerceptronMath.ScheduleShape` | exercises/session03/perceptron.py:103-105 | `n` passes over `m` pairs make `n * m` visits, and visit `k` is to sample `k % m`: every pass goes through the samples in input order |
| `PerceptronModel.Perceptron.constructor` | exercises/session03/perceptron.py:8-29 | the new model has the given learning rate and iteration count, and no weights or bias |
| `PerceptronModel.Perceptron.Default` | exercises/session03/perceptron.py:8-29 | the new model has the default learning rate 0.01 and 1000 iterations, and no weights or bias |
| `PerceptronModel.Perceptron.Predict` | exercises/session03/perceptron.py:67-83 | before training a prediction fails; after it, a prediction exists exactly when the sample has the weights' length, and it is 0 or 1, 1 exactly when `x . weights + bias > 0` |
| `PerceptronModel.Perceptron.PredictRows` | exercises/session03/perceptron.py:81-83 | a batch prediction succeeds exactly when the model is trained and every row has the weights' length; before training it fails with `NotFitted`, and a trained model given a row of another length fails with `ShapeMismatch`; label `i` is the prediction for row `i` |
| `PerceptronModel.Perceptron.Fit` | exercises/session03/perceptron.py:85-112 | on well-shaped input, returns the model itself; the weights become `Train` of the initial weights over `n_iters` passes, so their length is kept and zero passes leave the initial draw; the bias stays at its initial value; `lr` and `n_iters` are unchanged; the visits are `Schedule(n_iters, min(|x|, |y|))`, so there are `n_iters * min(|x|, |y|)` of them, in input order. A row of the wrong length is a shape error that changes no field |

## Left out

- The random initial draw of weights and bias (`np.random.uniform`, lines 99-100). It is random output from a library call. `Fit` takes the initial weights and bias as parameters instead.
- Floating-point rounding. All arithmetic is on mathematical reals.
- Numpy broadcasting. `Predict` takes one sample and `PredictRows` a batch of rows; other array shapes are not modelled.
- Array shapes in `Fit`. A two-dimensional input is a sequence of rows, all of length `|initWeights|`; any other row length is reported as `ShapeMismatch` before any field is written. An empty sequence of rows counts as an input with zero samples. This means the shape-`(0,)` array that makes line 98 fail is not distinguished from zero samples of `|initWeights|` features.
- Labels are integers. Real-valued labels are not modelled.
- The error kind of a prediction before training. The source fails inside `np.dot` on a `None` operand; the model reports `NotFitted`.
- `visited`, the order of visits returned by `Fit`, is a ghost record for the proof. The source keeps no such record.
- The demonstration under `if __name__ == '__main__'` (lines 114-142). It only computes an accuracy and prints to standard output.
- Convergence on the AND data and the lack of it on the XOR data. The code asserts neither, and proving them needs the perceptron convergence theorem.
- `exercises/session04/end_to_end_pytorch.py`. It holds only comments.
