# Kalman filter and track bookkeeping of gmphd-fusion, in Dafny

This project models two parts of the gmphd-fusion tracker, a Gaussian-mixture PHD
multi-target tracker. It then proves properties of the models.

- **The linear Kalman filter** (`gmphd_fusion/filter.py`) has three operations:
  - `predict` hands the state to the motion model.
  - `predict_measurement` computes the expected measurement `z_hat = H·mean` and the
    innovation covariance `S = H·cov·Hᵗ + R`.
  - `update` computes the posterior. It recomputes `(z_hat, S)` or reuses a supplied
    pair. Then it forms the innovation, the gain `W = cov·Hᵗ·inv(S)`, the posterior
    mean and the Joseph-form posterior covariance.

  Matrices are exact real matrices with an explicit numpy-style shape (module
  `Matrices`). The module provides `@`, `+`, `-`, transpose and `np.eye`, and proves
  the algebra the filter relies on: associativity, the transpose of a product,
  distributivity and identities for the identity and zero matrices. `np.linalg.inv`
  is a parameter `inv`. Its contract `IsLinalgInv` says two things: what it returns
  is an inverse, and it fails (`None`, the `LinAlgError`) only on a matrix that has
  no inverse. The motion model is a function-valued parameter.
- **The track timeline and the StateVectors container** are the behaviour that
  `tests/test_data.py` asserts of `Track` and `StateVectors`.
  - A `Track` is a class with an `estimates` sequence of optional estimates (`None` is
    a step with no estimate) and a `finished` flag. `AddEstimate` and `Finish` grow
    the sequence in place with padding loops. Each is proved against a pure function
    (`AddEstimateSpec` and `FinishSpec`). A ghost history of accepted estimates ties
    the object to `Replay`, a reference timeline.
  - `StateVectors` is a value: the (d, n) array whose columns are the vectors.

`gmphd_fusion/data.py` is not part of this model. `Track` and `StateVectors` are
modelled from the assertions of `tests/test_data.py`.

`finish(t)` pads to `t − start_time` slots: tests/test_data.py:29-32 fixes three
slots for `finish(13)` on a track started at 10.

## Model

| member | source | states |
|---|---|---|
| Filter.Predict | gmphd_fusion/filter.py:106-116 | predict returns exactly what the motion model returns for (mean, cov, dt) |
| Filter.PredictDefaultStep | gmphd_fusion/filter.py:112-115 | when dt is not given, the motion model is called with dt = 1.0 |
| Filter.ZHat | gmphd_fusion/filter.py:163-165 | the expected measurement `H @ mean` has one row per measured coordinate and one column |
| Filter.InnovationCovariance | gmphd_fusion/filter.py:167-174 | S = H·cov·Hᵗ + R is m×m, and it is symmetric whenever cov and R are |
| Filter.PredictMeasurement | gmphd_fusion/filter.py:118-123 | the pair (z_hat, S) has shapes m×1 and m×m, and S is symmetric whenever cov and R are |
| Filter.UsedPrediction | gmphd_fusion/filter.py:143-149 | a supplied (z_hat, S) pair is used verbatim; without one, update uses z_hat = H·mean and S = H·cov·Hᵗ + R |
| Filter.JosephCovariance | gmphd_fusion/filter.py:157-160 | the Joseph-form covariance, with I sized by the rows of W, is d×d and symmetric whenever cov and R are, for every gain W |
| Filter.Update | gmphd_fusion/filter.py:125-161 | update fails (singular matrix) exactly when the S in use has no inverse; otherwise the posterior mean is d×1, the posterior covariance is d×d, and the posterior covariance is symmetric whenever cov and R are |
| Filter.ReusedPredictionAgrees | gmphd_fusion/filter.py:143-149 | update given the result of predict_measurement returns the same as update left to compute it |
| Filter.StrayArgumentsIgnored | gmphd_fusion/filter.py:133-149 | the `z_hat` and `innovation_covariance` keyword arguments never change the result of update |
| Filter.GainSolvesNormalEquation | gmphd_fusion/filter.py:153-154 | the gain `cov @ H.T @ inv(S)` satisfies W·S = cov·Hᵗ |
| Filter.GainUnique | gmphd_fusion/filter.py:153-154 | when S is invertible, W·S determines W, so W·S = cov·Hᵗ fixes the gain |
| Filter.UpdateWithGain | gmphd_fusion/filter.py:151-161 | for any W with W·S = cov·Hᵗ, update returns the mean `mean + W·(measurement − z_hat)` and the Joseph-form covariance for W; no inverse appears in the statement |
| Filter.NoiselessIdentityMeasurement | gmphd_fusion/filter.py:138-161 | with H = I and R = 0, update succeeds exactly when cov is invertible, and then returns the measurement as the mean and the zero matrix as the covariance |
| Filter.JosephEqualsShortForm | gmphd_fusion/filter.py:157-159 | for a gain solving W·(H·cov·Hᵗ + R) = cov·Hᵗ, the Joseph form equals the short form (I − W·H)·cov |
| Matrices.TransposeMul | gmphd_fusion/filter.py:158-159 | (A·B)ᵗ = Bᵗ·Aᵗ, used for the transposes of `iwh` and of the Joseph terms |
| Matrices.MulAssoc | gmphd_fusion/filter.py:154 | (A·B)·C = A·(B·C), so the left-to-right chains of `@` may be regrouped |
| Matrices.CongruenceSymmetric | gmphd_fusion/filter.py:159 | X·P·Xᵗ is symmetric when P is, for every X; this covers both terms of the Joseph form and H·cov·Hᵗ |
| TrackData.AddEstimateSpec | tests/test_data.py:13-25 | add_estimate succeeds exactly when the time is after the last recorded slot; it keeps the old slots, marks each skipped step missing and puts the estimate in the slot of its time, so the length becomes time − start_time + 1 |
| TrackData.FinishSpec | tests/test_data.py:27-34 | finish is refused on a finished track; otherwise it keeps the slots and pads with missing markers up to time − start_time slots |
| TrackData.ReplayTimeline | tests/test_data.py:13-25 | a run of add_estimate calls on a new track all succeed exactly when the times strictly increase from start_time; then there are last_time − start_time + 1 slots, each holding the estimate added at that step or a missing marker |
| TrackData.Track.constructor | tests/test_data.py:9-11 | a new track has its label and start time, no slots, and is not finished |
| TrackData.Track.IsFinished | tests/test_data.py:28-31 | is_finished returns the finished flag: false on a new track, true after a successful finish |
| TrackData.Track.AddEstimate | tests/test_data.py:13-25 | the estimates become what AddEstimateSpec gives and the call passes; a refused call fails and leaves the estimates unchanged; the track stays active |
| TrackData.Track.Finish | tests/test_data.py:27-34 | on an active track the estimates become what FinishSpec gives and the track is finished; a second finish fails and changes nothing |
| TrackData.AddEstimateScenario | tests/test_data.py:13-25 | on a track started at 10, adds at 10, 10, 11 and 14: the adds at 10, 11 and 14 pass, the second add at 10 fails, and the slots end as [e, e, missing, missing, e] |
| TrackData.FinishScenario | tests/test_data.py:27-34 | a new track started at 10 is not finished; finish(13) passes and leaves three missing slots and a finished track; a second finish fails |
| StateVectorData.FromVectors | tests/test_data.py:40-44 | n vectors of dimension d give shape (d, n) |
| StateVectorData.StateVectors.Shape | tests/test_data.py:43-44 | shape is (d, n) of the array: n is the number of vectors iteration yields and every indexed vector is d×1 |
| StateVectorData.StateVectors.Get | tests/test_data.py:56-63 | indexing at i returns a d×1 state vector whose entries are column i of the array |
| StateVectorData.StateVectors.Iterate | tests/test_data.py:46-54 | iteration yields n vectors, the i-th being the one indexing at i returns |
| StateVectorData.GetFromVectors | tests/test_data.py:56-63 | indexing at i returns the i-th vector inserted |
| StateVectorData.IterateFromVectors | tests/test_data.py:46-54 | iteration yields exactly the inserted vectors, in insertion order |
| StateVectorData.HundredTriplesScenario | tests/test_data.py:37-63 | the 100 vectors [i, i, i] give shape (3, 100), and indexing and iteration return them in order |

## Left out

- The abstract `Filter` class and its `abc` machinery are not modelled as a separate type. Only the Kalman variant exists, and it is modelled directly as functions.
- Floating-point rounding, `np.allclose` tolerances and positive semi-definiteness are not modelled. Arithmetic is exact over the reals, which is why the numerical motivation for the Joseph form does not arise.
- How `np.linalg.inv` computes an inverse is not modelled. The inverse is the parameter `inv`, constrained only by `IsLinalgInv`.
- The internals of the motion model and of the measurement model are not modelled. The motion model is a function-valued parameter. H and R are the fields of `MeasurementModel`.
- Filter.Update: the shapes must conform (mean d×1, cov d×d, H m×d, R m×m, measurement m×1, and a supplied pair m×1 and m×m). numpy's broadcasting and its shape errors on other inputs are not modelled.
- Filter.PredictMeasurement: it requires the same conforming shapes as update, for the same reason.
- Filter.Predict: the motion model is a total function, so predict never fails in the model. In the source, predict raises whatever the motion model raises (gmphd_fusion/filter.py:115).
- StateVectorData.StateVectors.Get: the index is a natural number below n, so negative (from-the-end) indices and the `IndexError` for an out-of-range index are not modelled.
- The numpy subclasses `StateVector` and `CovarianceMatrix`, `isinstance` checks and the `*args` / `**kwargs` plumbing are not modelled.
- TrackData.Track.AddEstimate: it requires an active track. The tests do not fix what `add_estimate` does after `finish`.
- TrackData.FinishSpec: when `time − start_time` is below the current number of slots, the model pads nothing and removes nothing. The tests fix only `finish` on a new track.
- StateVectorData.FromVectors: it requires a non-empty list of vectors of one dimension. The tests do not fix the empty list or the dimension-mismatch error.
- The track's `label` is stored as `trackLabel`, because `label` is a reserved word in Dafny. No test asserts anything about it.
- The concurrency rule of one writer per track and the `unittest` harness are outside the model.
