# Scalar Kalman filter and 1-D robot simulator

This project models the two numeric routines of `kalman.py`, a teaching
example for a one-dimensional robot.

- `simulate_1d_robot` generates a random walk with known controls. Each step
  the robot moves by its control `u[t]` plus process noise `w`. The sensor
  reports the true position plus measurement noise `v`.
- `kalman_filter_1d` is the discrete Kalman filter specialised to
  transition, observation and control models equal to 1.
  - It starts from the belief `(x0, p0)`.
  - At each step it predicts `x_pred = x + u[t]` and `p_pred = p + q`.
  - It then updates with the gain `k = p_pred / (p_pred + r)`, giving
    `x = x_pred + k (z[t] - x_pred)` and `p = (1 - k) p_pred`.
  - It records the updated mean, the updated variance, the gain and the
    predicted mean in four preallocated arrays.

Everything lives in `kalman.dfy`, module `Kalman`. Both loops are methods
over freshly allocated `real` arrays, with loop invariants. Each is proved
against a pure specification function:

- `PositionAfter` for the generator: the closed form (prefix sums of the
  controls and of the process noise), with `PositionStep` proving the
  accumulator's recurrence against it;
- `Trace` for the filter: the recursively defined list of step records,
  each step a `Step` from the belief the earlier steps left.

The properties of the filter are lemmas about `Trace` and `Step`. The update
is also checked against an independent definition: `Fuse` is the normalised
product of the predicted Gaussian and the measurement Gaussian. The update is
exactly that fusion, and fusion adds information (inverse variances).

Arithmetic is exact, over Dafny's `real`. The random stream is replaced by
inputs: the generator takes the controls `u` and the noise samples `w` and
`v` as sequences of equal length, one per step. The filter keeps the
defaults of the original signature: `x0 = 0`, `p0 = 1`, `q = 0.2`, `r = 2`.

## Model

| member | source | states |
|---|---|---|
| `Kalman.PositionStep` | kalman.py:29-32 | The true position after n + 1 steps is the position after n steps plus `u[n] + w[n]`. |
| `Kalman.NoiselessPosition` | kalman.py:30-32 | With every process-noise sample zero, the true position after n steps is the prefix sum of the controls. |
| `Kalman.NoiselessWalkBounded` | kalman.py:24-32 | With controls in {-1, +1} and no process noise, the robot stays within n metres of its start after n steps. |
| `Kalman.SimulateRobot` | kalman.py:26-38 | Both arrays have one entry per control. `x_true[t]` is the sum of `u[i] + w[i]` for i <= t, and equals the previous entry (0 at t = 0) plus `u[t] + w[t]`. `z_meas[t] - x_true[t]` is exactly the measurement noise `v[t]`. |
| `Kalman.NoiselessScenario` | kalman.py:29-38 | Controls [1, -1, 1, 1, -1] with no process noise give true positions 1, 0, 1, 2, 1. |
| `Kalman.Gain` | kalman.py:71 | For p_pred >= 0 and r > 0 the gain lies in [0, 1). It is 0 exactly when p_pred is 0. Its complement 1 - k is r / (p_pred + r). |
| `Kalman.GainMonotone` | kalman.py:71 | The gain does not decrease when the predicted variance grows or when the measurement noise shrinks. |
| `Kalman.GainLimits` | kalman.py:71 | For a fixed predicted variance p_pred, the gain is at most p_pred / r, and for p_pred > 0 its complement 1 - k is at most r / p_pred. So k <= eps once r >= p_pred / eps, and k >= 1 - eps once r <= eps p_pred. Inside the filter p_pred itself depends on r; the bounds on the recorded gains are `Kalman.RecordedGainBound`, `Kalman.RecordedGainNearOne` and `Kalman.GainCappedWithoutProcessNoise`. |
| `Kalman.Step` | kalman.py:66-73 | One predict/update cycle. The prediction is x + u with variance p + q. The gain lies in [0, 1) and is 0 exactly when p + q = 0. The estimate is the convex blend (1 - k) x_pred + k z and lies between x_pred and z. The new variance lies in [0, p + q] and equals k r. |
| `Kalman.Fuse` | kalman.py:70-73 | Reference definition of the update: the product of two Gaussians. The fused variance is at most either variance, and strictly below the second. The fused mean lies between the two means. |
| `Kalman.FuseCommutes` | kalman.py:70-73 | Fusion does not depend on the order of the two beliefs. |
| `Kalman.FuseAddsInformation` | kalman.py:73 | The inverse of the fused variance is the sum of the two inverse variances. |
| `Kalman.StepIsFusion` | kalman.py:70-73 | The updated belief of every step is exactly the fusion of the prediction with the measurement, taken as a belief of mean z and variance r. |
| `Kalman.Trace` | kalman.py:62-78 | The history of the first n steps has n records. The belief it leaves has non-negative variance, and so does every recorded updated variance. |
| `Kalman.TracePrefix` | kalman.py:75-78 | Entry t is written once and never rewritten: the first m records of an n-step run are the m-step run. |
| `Kalman.TraceEntry` | kalman.py:62-78 | Entry t is the step taken with `u[t]` and `z[t]` from entry t - 1's updated belief, or from (x0, p0) when t = 0. |
| `Kalman.HistoryGuarantees` | kalman.py:67-73 | For every entry t, reading entry -1 as (x0, p0):<br>- `0 <= k_hist[t] < 1`;<br>- `0 <= p_est[t] <= p_est[t-1] + q`;<br>- `x_pred_hist[t] = x_est[t-1] + u[t]`;<br>- `x_est[t]` lies between `x_pred_hist[t]` and `z[t]`. |
| `Kalman.Causal` | kalman.py:65-78 | The first n records depend only on the first n controls and measurements. |
| `Kalman.DeadReckoning` | kalman.py:67-73 | With p0 = 0 and q = 0, every gain and every variance is 0, and the estimate after n steps is x0 plus the sum of the first n controls. |
| `Kalman.ShrinkWithoutProcessNoise` | kalman.py:68-73 | With q = 0 the variance after n steps is p0 r / (r + n p0). |
| `Kalman.ShrinkingGain` | kalman.py:68-73 | With q = 0 the gain of step n is p0 / (r + (n + 1) p0). The variance after it is p0 r / (r + (n + 1) p0). |
| `Kalman.ShrinkingScenario` | kalman.py:65-78 | With x0 = 0, p0 = 1, q = 0 and r = 1, the variances and the gains of the first three steps are 1/2, 1/3 and 1/4, whatever u and z are. |
| `Kalman.NoiselessPipelineExact` | kalman.py:65-78 | Fed noiseless measurements (`z[t]` is the prefix sum of the controls) from x0 = 0, the filter's estimate after every step equals the measurement and the true position, for any p0, q and r. This is not because the filter trusts the measurements: with p0 = q = 0 every gain is 0 (`Kalman.DeadReckoning`). The estimate is exact because prediction and measurement already agree. |
| `Kalman.VarianceBounded` | kalman.py:67-73 | The updated variance after n steps is at most p0 + n q, for every r and every measurement sequence. |
| `Kalman.RecordedGainBound` | kalman.py:67-71 | `k_hist[n] <= (p0 + (n + 1) q) / r`, a bound in which r is only the divisor. So `k_hist[n] <= eps` once `r >= (p0 + (n + 1) q) / eps`, and every recorded gain tends to 0 as r grows. |
| `Kalman.RecordedGainNearOne` | kalman.py:67-71 | With q > 0, `1 - k_hist[n] <= r / q`. So `k_hist[n] >= 1 - eps` once `r <= eps q`, and every recorded gain tends to 1 as r tends to 0. |
| `Kalman.GainCappedWithoutProcessNoise` | kalman.py:67-71 | With q = 0, `(n + 1) k_hist[n] <= 1` for every r. So from step 1 on the recorded gain does not tend to 1 as r tends to 0. With p0 = 1, `k_hist[1] = 1 / (r + 2) <= 1/2`. |
| `Kalman.StepError` | kalman.py:66-72 | Measured against dead reckoning, the error after a step is `(1 - k) e + k d`. Here e is the error before the step, d is the measurement's distance from the dead-reckoned position, and k in [0, 1) is the step's gain. |
| `Kalman.PredictionOnlyLimit` | kalman.py:65-78 | Let x(n) be the estimate after n steps (`x_est[n-1]`, or x0 when n = 0). Let D(n) = x0 + u[0] + ... + u[n-1] be the dead-reckoning estimate. Let S(n) be the sum over i < n of abs(z[i] - D(i + 1)). Then `r · abs(x(n) - D(n)) <= (p0 + n q) · S(n)` (`Kalman.Within`). Dividing by r, x(n) is within ((p0 + n q) / r) · S(n) of D(n), so for fixed inputs it tends to the prediction-only estimate as r grows. |
| `Kalman.PredictUpdate` | kalman.py:66-73 | The loop body's straight-line arithmetic produces exactly the record `Step` specifies. |
| `Kalman.KalmanFilter1D` | kalman.py:43-80 | The four result arrays are new and have length `len(z)`. Entry t of `x_est`, `p_est`, `k_hist` and `x_pred_hist` is the updated mean, updated variance, gain and predicted mean of record t of `Trace`. |

## Left out

- **Random stream.** The numpy random generator (`default_rng`, `choice`, `normal`, `sqrt`) is not modelled. The controls and noise samples are inputs instead. So `Kalman.SimulateRobot` takes `u` rather than returning it. The `steps`, `seed`, `q` and `r` arguments of `simulate_1d_robot` only drive the generator: `steps` is the length of `u`, and `q` and `r` only scale the noise.
- **Floating point.** IEEE-754 rounding is not modelled. All arithmetic is exact over the reals, so the floating-point results only approximate the model.
- **Plotting and the command line.** `plot_results` and `main` are not part of this model: matplotlib rendering, argument parsing, file output, console printing and the mean-absolute-error report.
- **Unchecked inputs.** `kalman_filter_1d` checks none of its inputs and raises no configuration error; the model follows the code here. The model requires `|z| <= |u|`, `p0 >= 0`, `q >= 0` and `r > 0`.
  - With fewer controls than measurements, the code fails with an index error.
  - When `p_pred + r` is 0, it fails with a division by zero.
  - With a negative `q`, `p0` or `r`, it computes numbers that are not variances.

  None of these paths is modelled. The code accepts more controls than measurements and ignores the extra ones, and so does the model.
- `Kalman.HistoryGuarantees` states that each estimate lies between the prediction and the measurement, not the exact blend. The exact convex blend `(1 - k) x_pred + k z` is stated by `Kalman.Step`, and `Kalman.TraceEntry` makes every history entry such a step.
- `Kalman.KalmanFilter1D` allocates its four history arrays without the zero fill of `np.zeros`. The loop writes every entry before the method returns, so the fill is never observable. `Kalman.SimulateRobot` does keep the zero fill. Neither models numpy's dtype.
- `Kalman.GainLimits` bounds the gain for a fixed predicted variance only. The bounds on the gains the filter records are `Kalman.RecordedGainBound` and `Kalman.RecordedGainNearOne`. The limit "k tends to 1 as r tends to 0" holds for the recorded gains only when q > 0. With q = 0 it fails from step 1 on (`Kalman.GainCappedWithoutProcessNoise`). Limits of real functions as such are not modelled; each limit is stated as an explicit bound.
