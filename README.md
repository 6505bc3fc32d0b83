# Load control helpers of a LiDAR odometry pipeline, in Dafny

This project models the three small arithmetic components that decide how many
points of a LiDAR scan the pipeline processes per cycle:

- `Movmean` (module `Smoothing`, `movmean.dfy`) is a fixed-capacity moving
  average. It is a ring buffer of `siz` samples with a write cursor and a
  running sum. `update(val)` overwrites the slot at the cursor. At a nonzero
  cursor it updates the sum incrementally. At cursor 0 it recomputes the sum
  from the whole buffer, and it does so *before* storing `val`, so `val` is
  not added. The method returns `sum / siz` and advances the cursor, wrapping
  to 0. The model keeps this behaviour as written. A ghost field `z` records
  what slot 0 held just before the latest write at cursor 0. The object
  invariant is `sum == Sum(arr) - arr[0] + z`. The pure functions `Step` and
  `Feed` specify one update and a run of updates. The class `Movmean` works in
  place on an array and is proved equal to `Step`.
- `loadController` (module `LoadControl`, `load_controller.dfy`) turns each
  measured cycle (point count, nanoseconds) into milliseconds per 1000 points
  and feeds that to its `Movmean`. `predict(point_size)` writes a
  `controlStatus` record field by field and returns whether the cloud must be
  downsized. It computes the point budget that fits the interval minus the
  slack, the excess, the downsample percentage (raised to a floor, with a flag
  saying whether the floor applied), the recommended point count and the
  controlled time. The method `Predict` is written step by step like the
  source. It is proved equal to the pure function `Predicted`, and the lemmas
  about `Predicted` state what the decision means.
- `lioQuality::calc` (module `Quality`, `quality.dfy`) maps the largest of
  three spreads to an integer score from 0 to 100 between the bounds `q_min`
  and `q_max`. It truncates; it does not round.

`Numeric.Trunc` is C++ `int(x)` on a floating value, truncation toward zero.
Floating values are modelled as `real`.

src/movmean.hpp defines neither `available()` nor `get()`, yet `predict`
calls both (src/load_controller.hpp:36, :40). So `Predict` receives the smoother's availability flag and its current
mean from the caller. The model does not guess how those two would behave.

Three behaviours of the code that a reader might not expect:
- The running sum is off by `z - arr[0]` until the next wrap, because the
  recomputation at cursor 0 runs before the write (src/movmean.hpp:23-24; see
  Findings).
- The interior quality score is truncated, not rounded (src/quality.hpp:16).
- `predict` returns false both without smoother history and when the cloud
  fits the budget (src/load_controller.hpp:37, :47). A change in `ms_per_kpts_ave`,
  `predicted_process_time_raw` or `predicted_process_time_ctrl` shows that the
  call had history. After a false answer, `predicted_process_time_ctrl !=
  predicted_process_time_raw` shows that it had none, because the fits path
  sets the controlled time to the raw one (src/load_controller.hpp:46;
  `MismatchMeansNoHistory`, `StaleCtrlExample`). When the old record already
  holds what a "fits" call writes, nothing tells the two apart
  (`NoAnswersLookAlike`).

## Model

| member | source | states |
|---|---|---|
| Smoothing.Movmean.constructor | src/movmean.hpp:14-19 | A new smoother holds `siz` zeros, sum 0 and cursor 0, so the invariant holds with `z == 0`. Requires `1 <= siz <= 65535`. |
| Smoothing.Movmean.Update | src/movmean.hpp:21-36 | The invariant is kept. The new state is `Step` of the old one. Only slot `old(i)` changes, and it becomes `val`. The cursor becomes `(old(i) + 1) % siz`. At a nonzero cursor the sum becomes `sum - old arr[i] + val`. At cursor 0 the sum becomes the sum of the buffer before the write, and `z` becomes the old `arr[0]`. The return value is the new `sum / siz`. |
| Smoothing.Sum | src/movmean.hpp:23 | The sum of the buffer (`std::accumulate` with a zero seed); it is non-negative when every sample is. |
| Smoothing.Mean | src/movmean.hpp:30 | Definition: the value `update` returns for the state it leaves, `sum / siz`. |
| Smoothing.Fresh | src/movmean.hpp:14-19 | The constructed state is well formed, all zeros with sum 0 and cursor 0, and it satisfies the invariant with `z == 0`. |
| Smoothing.Step | src/movmean.hpp:21-35 | One update keeps the capacity and keeps the cursor in `[0, siz)`, advancing it by one modulo `siz`. It writes `val` at the old cursor and leaves every other slot unchanged. |
| Smoothing.Advance | src/movmean.hpp:31-34 | Incrementing the cursor and resetting it to 0 when it reaches `siz` is the same as adding one modulo `siz`, and the result stays below `siz`. |
| Smoothing.SumUpdate | src/movmean.hpp:26-28 | The incremental update is exact: overwriting one slot changes the buffer's sum by the new value minus the evicted one. |
| Smoothing.StepKeepsOffset | src/movmean.hpp:21-35 | Invariant: if `sum == Sum(buf) - buf[0] + z` before an update, it holds afterwards. The update keeps `z` at a nonzero cursor and sets `z` to the old `buf[0]` at cursor 0. |
| Smoothing.WrapReturnsPreviousMean | src/movmean.hpp:22-30 | At cursor 0 the returned value is the exact mean of the buffer before the write, whatever the running sum was. The new sum is the new buffer's sum minus `val` plus the old `buf[0]`. |
| Smoothing.FirstPass | src/movmean.hpp:14-35 | After the first `k <= siz` updates from construction, the buffer holds the `k` samples followed by zeros. The sum is the samples' total minus the first sample. The cursor is `k`, or 0 when `k == siz`. |
| Smoothing.FullWindowMean | src/movmean.hpp:21-35 | After exactly `siz` updates from construction, the returned mean is `(v1 + ... + vN - v1) / N`. It leaves out the first sample. |
| Smoothing.WrapAfterFirstPass | src/movmean.hpp:22-30 | Update `N + 1` returns the exact mean of the first `N` samples, without the new one. |
| Smoothing.FeedNonNegative | src/movmean.hpp:21-35 | Fed non-negative samples (such as the ms-per-kpts ratios of `update_ratio`), every slot, the running sum and the returned mean stay non-negative, despite the offset in the sum. |
| Smoothing.ThreeSampleExample | src/movmean.hpp:21-35 | With capacity 3 and samples 10, 20, 30 the third call returns 50/3. A following 40 returns 20. |
| Smoothing.FixedStep | src/movmean.hpp:22-24 | Corrected update: the cursor stays in `[0, siz)` and advances by one modulo `siz`. The buffer becomes the old buffer with `val` at the cursor. |
| Smoothing.FixedFeedExact | src/movmean.hpp:21-35 | With the recomputation moved after the write, any run of updates keeps the running sum equal to the exact sum of the buffer. |
| Smoothing.FixedThreeSampleExample | src/movmean.hpp:21-35 | With the corrected update, capacity 3 and samples 10, 20, 30 return 20. A following 40 returns 30. |
| LoadControl.LoadController.constructor | src/load_controller.hpp:5-26 | Every status field starts at -1 and `down_size_limited` starts false. Slack, coefficient floor and interval start at 0. The owned smoother is freshly constructed with `nmean` slots. |
| LoadControl.InitialStatus | src/load_controller.hpp:5-12 | The status record before any prediction: every time, the count and the coefficient are -1, and `down_size_limited` is false. |
| LoadControl.LoadController.UpdateRatio | src/load_controller.hpp:28-31 | Exactly one smoother update, fed `(dt_nsec / 1e6) / (point_size / 1000)`. Requires `point_size != 0`. |
| LoadControl.LoadController.Predict | src/load_controller.hpp:33-58 | The new status and the returned flag are `Predicted` of the old status, the budget `interval_time_ms - target_slack_ms`, the floor and the smoother's inputs. The method changes no other field and keeps the smoother valid. |
| LoadControl.Predicted | src/load_controller.hpp:33-58 | The pure model of `predict`. Its result is false without history. A false result leaves the percentage at 100. A true result needs history and a nonzero point count, and its percentage is at least the floor. |
| LoadControl.PredictUnavailable | src/load_controller.hpp:35-38 | Without smoother history the result is false, and the only field written is `down_size_coef`, set to 100. |
| LoadControl.NoAnswersLookAlike | src/load_controller.hpp:35-47 | A call without history and a call whose cloud fits the budget can both return false and leave the same status record. |
| LoadControl.PredictNoDownsize | src/load_controller.hpp:35-48 | On either false path the percentage is 100. `down_size_limited` and `estimated_optim_pts` keep their previous values. With history the controlled time equals the raw time. |
| LoadControl.MismatchMeansNoHistory | src/load_controller.hpp:35-48 | A false answer that leaves the controlled time different from the raw time comes from a call without history, since the fits path sets ctrl to raw (line 46). |
| LoadControl.StaleCtrlExample | src/load_controller.hpp:35-38 | A call without history returns false and leaves a stale controlled time 5 beside a raw time 1. |
| LoadControl.PredictDecision | src/load_controller.hpp:40-47 | With history the mean is recorded and the raw time is `ave * point_size / 1000`. The result is true iff `point_size > trunc(available / ave * 1000)`. |
| LoadControl.PredictIffOverBudget | src/load_controller.hpp:41-47 | With `ave > 0` and a non-negative available time, the result is true iff the raw predicted time exceeds the available time. |
| LoadControl.PredictDownsize | src/load_controller.hpp:50-57 | On true, history was available and `point_size != 0`. `down_size_limited` holds iff the unclamped percentage is below the floor. The percentage is the larger of the unclamped percentage and the floor, so it is at least the floor. The recommended count is `trunc(point_size * coef / 100)`. The controlled time is `ave * count / 1000`. |
| LoadControl.PredictFits | src/load_controller.hpp:42-56 | On true without the floor applying, the recommended count equals the point budget. With `ave > 0` and a non-negative available time, the controlled time is at most the available time and the percentage is below 100. |
| LoadControl.RecommendedIsFitting | src/load_controller.hpp:50-54 | Scaling the point count by the unclamped percentage and truncating gives back the point budget exactly. |
| LoadControl.OverBudgetIffSlow | src/load_controller.hpp:41-45 | For `ave > 0` and non-negative available time: a point count exceeds the truncated budget iff its time at `ave` exceeds the available time. |
| LoadControl.BudgetTimeFits | src/load_controller.hpp:42-43 | For `ave > 0` and non-negative available time, the truncated point budget takes at most the available time. |
| Numeric.Trunc | src/load_controller.hpp:43 | `int(x)`: for `x >= 0` the largest integer not above `x`; for `x < 0` the smallest integer not below `x`. |
| Quality.Max3 | src/quality.hpp:12 | The result is one of the three spreads and at least each of them. |
| Quality.LioQuality.Calc | src/quality.hpp:11-18 | When `q_max != q_min` the score lies in `[0, 100]`. |
| Quality.CalcSymmetric | src/quality.hpp:12 | The score is the same for all six orders of the arguments, and it equals the score of the largest spread given three times. |
| Quality.CalcAtOrBelowMin | src/quality.hpp:13-16 | With `q_max > q_min`, a largest spread at or below `q_min` scores 100. |
| Quality.CalcAtOrAboveMax | src/quality.hpp:13-16 | With `q_max > q_min`, a largest spread at or above `q_max` scores 0. |
| Quality.CalcInterior | src/quality.hpp:16 | When the normalized spread `f` is in `[0, 1]`, the score is the truncation of `100 - 100 f`: `score <= 100 - 100 f < score + 1`. |
| Quality.CalcMidpoint | src/quality.hpp:13-16 | The spread halfway between the bounds scores 50. |
| Quality.CalcMonotone | src/quality.hpp:13-16 | With `q_max > q_min`, a larger largest spread never scores higher. |

## Findings

| source | as written | input that shows it | evidently intended | confidence | as-written member | corrected member |
|---|---|---|---|---|---|---|
| src/movmean.hpp:22-24 | At cursor 0 the sum is recomputed from the buffer before `val` is stored, and `val` is never added. The running sum then differs from the buffer's sum by the old `arr[0]` minus `val`, until the next wrap. | Capacity 3 fed 10, 20, 30 returns 50/3, not 20; a fourth sample 40 returns 20, not 30 | The recomputation resets floating drift: the sum equals the exact sum of the buffer after every update | not executed | Smoothing.ThreeSampleExample | Smoothing.FixedFeedExact |

The class `Movmean` and `LoadController.UpdateRatio` keep the behaviour as
written, because that is what the repository runs. The proved invariant
`Tracks` says exactly how far the running sum is off. The corrected update
`FixedStep` is defined beside it, together with its exactness proof
`FixedFeedExact` and the example `FixedThreeSampleExample`. Nothing else in
the model depends on the smoother's mean: `Predict` takes the mean as an
input.

## Left out

- Floating point: `float` and `double` are modelled as exact reals. The model
  covers neither rounding nor the `float`/`double` mix of `std::accumulate`
  with a `0.0` seed, and it has no NaN or infinity.
- `std::accumulate` is the recursive function `Sum`, not a loop. Summation
  order does not matter over the reals.
- Undefined paths are excluded by preconditions rather than modelled: a
  smoother of capacity 0, a ratio for zero points, a zero mean in `predict`,
  the division by a zero point count on the downsizing path, and `q_max ==
  q_min` in `calc`. The last includes the default bounds, both 0
  (src/quality.hpp:6-7).
- `int` width: the model does not capture overflow of the `int` conversions in
  `predict` (point budget, recommended count). The integers are unbounded.
- `uint16_t` width is modelled only by the bound `siz <= 65535`. Wrap-around
  of a larger constructor argument is not modelled.
- `Movmean::available()` and `Movmean::get()` are not part of this model.
  `predict` calls them, but src/movmean.hpp does not define them. Their
  results are the `available` and `ave` inputs of `Predict`.
- The timing source of `dt_nsec`, the point-cloud pipeline and the actual
  downsampling are not part of this model.
- src/movmean.hpp, src/load_controller.hpp and src/quality.hpp contain no load
  estimator, grid controller or interval tracking, so none is modelled.
