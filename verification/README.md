# ML model drift detector — Dafny model

This project models the drift pipeline of a small ML monitoring tool. The
tool takes a labelled data set and cuts it by rows into a *baseline*
(historical) part and a *production* part. It then drops the target column
(`diagnosis`) and, for every baseline feature, runs a two-sample
Kolmogorov–Smirnov test against the production values of the same feature.
A feature has *drifted* when the test's p-value is strictly below a
significance level (default 0.05). The per-feature table is summarised into
a count of features, a count of drifted features and a drift percentage
rounded to two decimals. An alert fires when that percentage reaches a
threshold (default 10, inclusive).

Modules, one per source file plus the shared data model:

- `Tables` (`tables.dfy`): a data frame as ordered column labels, a map from
  label to `seq<real>` and a row count; the `Result`/`Error` types used for
  the source's `KeyError`s.
- `DataLoader` (`data_loader.dfy`): `create_baseline_and_production` and
  `split_features_target`, as functions with round-trip lemmas.
- `DriftDetection` (`drift_detection.dfy`): `detect_feature_drift` as a
  method with a loop over the baseline columns, proved against the predicate
  `IsFeatureReport`, and `detect_prediction_drift`. The KS test is a
  function-typed parameter `ks`, so the model states what is done with its
  outcome and nothing about its numerics. The scaler and the classifier are
  parameters in the same way.
- `DriftReporting` (`drift_reporting.dfy`): the summary (exact rational
  arithmetic, rounding to the nearest hundredth with ties to even), the
  copy of the report frame, and the alert rule. It also holds a lemma about
  the whole pipeline: raising the significance level never withdraws an
  alert.

Points of the code worth knowing when reading the model:

- Only the baseline's columns are compared. Production is indexed with
  each of them, so a baseline column missing from production raises
  `KeyError`. The model returns `Err(MissingColumn(c))` for the first such
  column in baseline order. Production columns the baseline lacks are
  never read.
- The code validates neither the significance level nor the alert
  threshold. Any real value is accepted and used as is.
- Summarising an empty drift table is an error in the model
  (`EmptyReport`). In the code, the frame built from an empty list of
  records has no columns. The first column access
  (src/drift_reporting.py:7) therefore raises `KeyError` before the
  unguarded division is reached.
- Default arguments are kept: target `"diagnosis"`, baseline ratio 0.7,
  significance level 0.05, alert threshold 10.

## Model

| member | source | states |
|---|---|---|
| `DataLoader.Truncate` | src/data_loader.py:29 | `int()` on a float truncates toward zero: the result is the integer at most 1 away from `x` on the side of zero |
| `DataLoader.SliceBound` | src/data_loader.py:31-32 | a slice bound denotes a position in `[0, n]`: itself when in range, counted from the end when negative, clamped when past the end |
| `DataLoader.CreateBaselineAndProduction` | src/data_loader.py:25-34 | both parts are valid frames with the original columns, their lengths add up to the original's, and for a ratio in [0,1] the baseline has `floor(len * ratio)` rows |
| `DataLoader.SplitIndexInRange` | src/data_loader.py:29 | for a ratio in [0,1] the split index is `floor(len * ratio)` and lies in `[0, len]` |
| `DataLoader.SplitIsPrefixAndSuffix` | src/data_loader.py:29-32 | for a ratio in [0,1] every baseline column is the prefix `[0, split)` of the original column and every production column the suffix `[split, len)` |
| `DataLoader.SplitRoundTrip` | src/data_loader.py:31-32 | for every ratio, baseline rows followed by production rows give back the original frame: no row lost, duplicated or reordered |
| `DataLoader.Without` | src/data_loader.py:19 | dropping a label removes every occurrence of it and keeps every other label |
| `DataLoader.WithoutAt` | src/data_loader.py:19 | in a list of unique labels, dropping the label at position `i` cuts out exactly position `i`, so the other labels keep their order |
| `DataLoader.SplitFeaturesTarget` | src/data_loader.py:15-22 | a missing target is a `KeyError` on that label; otherwise `X` is a valid frame without the target with the same row count and every other column unchanged, and `y` is exactly the target column |
| `DataLoader.SplitFeaturesTargetRoundTrip` | src/data_loader.py:19-20 | inserting `y` back into `X` at the target's old position rebuilds the original frame |
| `DriftDetection.DetectFeatureDrift` | src/drift_detection.py:36-60 | succeeds iff every baseline column is in production; then there is one row per baseline column in baseline order, each with its column's name, the test's statistic and p-value unchanged, and `drift_detected` iff `p_value < threshold`; otherwise the error names the first missing baseline column |
| `DriftDetection.FeatureReportUnique` | src/drift_detection.py:43-58 | the drift table is determined by the two frames, the level and the test |
| `DriftDetection.ExtraProductionColumnsIgnored` | src/drift_detection.py:45-47 | production columns absent from the baseline are never examined: changing them leaves the drift table unchanged |
| `DriftDetection.FlagMonotoneInThreshold` | src/drift_detection.py:51 | statistics and p-values do not depend on the level; a feature flagged at `t1` is flagged at every `t2 >= t1`; a p-value equal to the level is not flagged |
| `DriftDetection.DetectPredictionDrift` | src/drift_detection.py:6-33 | the statistic and p-value are those of the test on the model's positive-class scores for the scaled baseline and production features, and drift is flagged iff `p_value < threshold` |
| `DriftDetection.PredictionDriftIsOneFeatureDrift` | src/drift_detection.py:25-27 | prediction drift equals the feature comparator's only row on one-column frames of the model scores |
| `DriftReporting.CountDrifted` | src/drift_reporting.py:12 | the drifted count is at most the row count, is 0 iff no row is flagged, and equals the row count iff every row is flagged |
| `DriftReporting.CountDriftedMonotone` | src/drift_reporting.py:12 | if every row flagged in one table is flagged in another of the same length, the second counts at least as many |
| `DriftReporting.RoundHalfEven` | src/drift_reporting.py:18 | the result is an integer nearest to `x`; at an exact tie it is the even one |
| `DriftReporting.RoundHalfEvenMonotone` | src/drift_reporting.py:18 | rounding preserves order |
| `DriftReporting.DriftPercentage` | src/drift_reporting.py:17-19 | the percentage is a whole number of hundredths within half a hundredth of `100 * drifted / total`; at an exact tie it is the even number of hundredths |
| `DriftReporting.DriftPercentageBounds` | src/drift_reporting.py:17-19 | for `drifted <= total` the percentage lies in [0,100]; it is 0 when nothing drifts and 100 when everything drifts |
| `DriftReporting.DriftPercentageMonotone` | src/drift_reporting.py:17-19 | more drifted features out of the same total never give a lower percentage |
| `DriftReporting.Summarize` | src/drift_reporting.py:11-20 | an empty table is an error; otherwise the total is the row count, the drifted count is the number of flagged rows and at most the total, the percentage is that count over the total rounded to hundredths (`DriftPercentage`), lies in [0,100], is 0 with no drift and 100 with full drift |
| `DriftReporting.ReportFrame.Copy` | src/drift_reporting.py:5 | the copy is a new frame with the same rows in the same order |
| `DriftReporting.GenerateFeatureDriftReport` | src/drift_reporting.py:1-22 | fails on an empty table; otherwise returns a fresh frame with the input's rows and order, and the summary of those rows; the input frame is not modified |
| `DriftReporting.CheckDriftAlert` | src/drift_reporting.py:25-32 | the alert fires iff the drift percentage is at least the threshold |
| `DriftReporting.AlertMonotoneInThreshold` | src/drift_reporting.py:30 | an alert raised at threshold `t` is raised at every `t' <= t` |
| `DriftReporting.AlertAtBoundary` | src/drift_reporting.py:11-32 | through the summariser: 1 drifted feature of 10 gives exactly 10.0 and alerts at the default threshold; 1 of 11 gives 9.09 and does not |
| `DriftReporting.ThreeOfTenDrifted` | src/drift_reporting.py:11-32 | ten features with three drifted summarise to (10, 3, 30.0), which alerts at 10 and not at 31 |
| `DriftReporting.AlertMonotoneInSignificance` | src/drift_reporting.py:11-30 | over drift tables of the same frames, a higher significance level never lowers the drifted count or the percentage, so an alert at the lower level persists at the higher one |

## Left out

- The Kolmogorov–Smirnov test (`scipy.stats.ks_2samp`) is a parameter returning a real statistic and p-value. Nothing is proved about the values the test returns (for example, that a column compared with itself gives statistic 0 and p-value 1).
- DriftDetection.DetectFeatureDrift and DriftDetection.DetectPredictionDrift: the test's failure path is not modelled. On an empty sample, `ks_2samp` raises `ValueError` or returns NaN, depending on the SciPy version. NaN input also gives a NaN p-value, and `nan < threshold` is false, so such a column is never flagged. For example, a production frame with zero rows (what `create_baseline_and_production` gives for ratio 1.0) makes the source raise or flag nothing. The model's test is total and real-valued, so the model returns `Ok` rows whose flags follow whatever p-value the test parameter yields.
- `scaler.transform` and `model.predict_proba(...)[:, 1]` are parameters of `DetectPredictionDrift`. src/model.py (training) is not part of this model.
- `load_raw_data` (CSV reading, dropping `id` and `Unnamed: 32`, the label map M→1/B→0) is file I/O and is not modelled.
- app.py (the dashboard and file upload) and the `__main__` blocks that print results are not modelled.
- The `astype(float)` and `astype(bool)` column reassignments on the copied frame are the identity on typed values, so the copy is returned as it was made.
- DriftReporting.DriftPercentage: computed exactly, not as a binary float. In the source, `drifted_features` is a `numpy.int64` (the sum of a boolean column), so the quotient is a `numpy.float64`. `round(..., 2)` on it uses numpy's rounding: scale by 100, round half to even, scale back, all in doubles. The model performs the same three steps on the exact rational value, so it can differ from the source only where double rounding moves a value across a hundredth or onto or off a tie.
- DataLoader.Truncate: applied to the exact product `len * ratio`, not to its binary-float value (for example, 0.7 is not exactly representable).
- Row index labels: pandas keeps the original index labels in `iloc` slices. The model keeps only the values, which is all the test reads.
- Duplicate column labels (which pandas allows) are excluded by `Table.Valid()`.
- `DriftDetection.DetectFeatureDrift` and `DataLoader.SplitFeaturesTarget`: the source raises `KeyError` for a missing column. The model returns `Err(MissingColumn(name))` instead.
- DriftReporting.Summarize: on an empty table the source raises `KeyError` at the first column access, not at the division. The model returns `Err(EmptyReport)` for it.
- `detect_feature_drift` returns a `pandas.DataFrame` built from the list of records. The model returns the list, and `ReportFrame` stands for the frame handed to the summariser.
