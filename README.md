# Tremor and bradykinesia analysis from a wrist accelerometer, in Dafny

This project models the analysis core of *analyze-tremor-bradykinesia-PD*. That Python 2 pipeline turns three-axis
wrist accelerometer recordings into per-window classifier inputs, and turns those into clinical endpoints for
Parkinson's disease. The project has one Dafny module per source file, plus four shared modules:

- `Numerics`: NaN-carrying values, escaping exceptions, sums, means, counts, percentages, Python 2 `round` and
  Python slices.
- `Frames`: one-row DataFrames as ordered columns, column assignment, outer join, `df[cols]`, `.loc` with
  `reset_index`, and `channel + suffix` naming.
- `Windowing`: the 3-second segmentation that four loops of the source repeat inline.
- `Amplitude`: the vector magnitude and `compute_rms`, which two source files define identically.

The source files modelled are:

- `features/signal_features.py` → `SignalFeatures`, `FeatureTables`.
  - Each feature function builds a one-row table with a column per channel (and per suffix).
  - Mean cross rate, range, range count fraction and jerk ratio are computed exactly.
  - Entropy, correlation, standard deviation, IQR of autocovariance, the spectrum summary and tsfresh's range
    membership test are parameters.
- `classifiers/gait_classifier.py` → `GaitClassifier`.
  - Eight feature tables are joined per window; windows whose row has a NaN are dropped.
- `classifiers/resting_tremor_classifier.py` → `RestingTremorClassifier`.
  - Four tables are joined onto a fresh row per window; every window is kept.
- `classifiers/resting_tremor_amplitude_classifier.py` → `RestingTremorAmplitude`.
  - The RMS of the 3.5–7.5 Hz vector magnitude, per window.
- `classifiers/hand_movement_features.py` → `HandMovementFeatures`.
  - The RMS and the jerk ratio of the 0.25–3.5 Hz vector magnitude, per window.
- `classifiers/hand_movement_classifier.py` → `HandMovementClassifier`.
  - Rolling mean and rolling standard deviation, and majority labelling of non-overlapping windows.
- `endpoints/filter_classifier_predictions.py` → `FilterClassifierPredictions`.
  - The decision tree that routes each window's predictions to the tremor assessment, the bradykinesia
    assessment, or neither.
- `endpoints/bradykinesia_endpoints.py` → `BradykinesiaEndpoints`.
  - Mean amplitude, percentage without movement, bout lengths and mean bout length.
- `endpoints/resting_tremor_endpoints.py` → `RestingTremorEndpoints`.
  - Tremor constancy.

How Python behaviour is represented:

- **Floats** are exact reals. NumPy's NaN is a separate value, `Value.NaN`.
- **Exceptions.** No function of the core catches an exception. Each one is an `Outcome.Raised` and propagates to
  the caller: `ZeroDivisionError`, `ValueError`, `KeyError`, or `LibraryError` when an external routine fails.
- **Loops.** Each loop of the source is a Dafny `method` with a `for` or `while` loop, and the methods that
  model the feature functions call them. Its `ensures` ties the result to a specification function, which is
  recursive, and the lemmas state what that function promises. For example, `mean_cross_rate` runs
  `FeatureTables.MeanCrossRateLoop`, which calls `SignalFeatures.CountCrossings` on each channel, and
  `correlation_coefficient` runs `FeatureTables.CorrelationCoefficient`.
- **Mutable arrays.** The rolling mean, the rolling standard deviation and the window labels fill a fresh
  `np.zeros` array in the source. In the model they fill a fresh Dafny `array`.

Clipping to the frame only shortens a window that would run past its end. So 1000 samples at 100 Hz give the
windows 1..300, 301..600 and 601..900, and samples 0 and 901..999 are in no window
(`Windowing.HundredHertzExample`).

## Model

| member | source | states |
|---|---|---|
| Numerics.Mean | endpoints/bradykinesia_endpoints.py:19 | np.mean is NaN exactly for an empty array; otherwise it is a number that times the length gives the sum |
| Numerics.MeanBounds | endpoints/bradykinesia_endpoints.py:19 | the mean of values within [lo, hi] lies within [lo, hi] |
| Numerics.CountIsMultiplicity | endpoints/bradykinesia_endpoints.py:35 | `list.count(x)` is the multiplicity of x in the multiset of the list |
| Numerics.Percentage | endpoints/bradykinesia_endpoints.py:35 | `count(x)/float(len)*100` raises ZeroDivisionError exactly on an empty list; otherwise it lies in [0, 100] and times the length is 100 times the count |
| Numerics.PercentageExtremes | endpoints/bradykinesia_endpoints.py:35 | every entry equal to x gives exactly 100; none equal gives exactly 0 |
| Numerics.PercentageOrderFree | endpoints/resting_tremor_endpoints.py:14 | the percentage depends only on the multiset of entries, not on their order |
| Numerics.RoundQuotient | classifiers/gait_classifier.py:89 | Python 2 round of a non-negative quotient n/d is the integer (2n + d) div 2d (halves round up) |
| Numerics.Collect | classifiers/gait_classifier.py:24-49 | calls run in order succeed together exactly when each does, with one value per call; otherwise the result is the exception of the first call that raised, every earlier call having succeeded |
| Numerics.CollectStep | classifiers/gait_classifier.py:24-49 | one more call: its exception ends the sequence, otherwise its value is appended to those collected |
| Windowing.WindowCount | classifiers/gait_classifier.py:87-89 | `round(total_samples / float(window_samples))` is (2L + Ws) div 2Ws |
| Windowing.WindowBounds | classifiers/gait_classifier.py:93-98 | window w is the rows [Ws·w + 1, min(Ws·w + Ws + 1, L)), whichever `.loc` branch is taken, and lies within the frame |
| Windowing.WindowShape | classifiers/gait_classifier.py:93-98 | row 0 is in no window, and no window holds more than Ws rows |
| Windowing.Adjacent | classifiers/gait_classifier.py:93-98 | each window starts where the previous one ends |
| Windowing.Ordered | classifiers/gait_classifier.py:93-98 | an earlier window ends before a later one starts, so windows never overlap |
| Windowing.Coverage | classifiers/gait_classifier.py:89-98 | a row lies in some window exactly when its label is in 1..min(Ws·T, L − 1), T being the window count |
| Windowing.CoveredBy | classifiers/gait_classifier.py:93-98 | a covered label lies in window (k − 1) div Ws |
| Windowing.InsideCovered | classifiers/gait_classifier.py:93-98 | every label inside a window is a covered label |
| Windowing.ExactLastWindow | classifiers/gait_classifier.py:89-98 | when L is a multiple of Ws there are L/Ws windows, and the last one holds Ws − 1 rows |
| Windowing.NonEmptyWindow | classifiers/gait_classifier.py:89-98 | with at least three rows per window, no window is empty |
| Windowing.SmallWindowEmpty | classifiers/gait_classifier.py:89-98 | with two rows per window and a one-row frame, the single window is empty |
| Windowing.HundredHertzExample | classifiers/gait_classifier.py:87-99 | 1000 samples at 100 Hz give three windows: rows 1..300, 301..600 and 601..900 |
| Windowing.WindowFrame | classifiers/gait_classifier.py:93-99 | the re-indexed window is a valid frame with the same columns, whose row k is row lo + k of the stream |
| Windowing.WindowColumn | classifiers/gait_classifier.py:93-99 | a window's column holds exactly the stream's samples of that window |
| Frames.FindColumn | features/signal_features.py:106 | the position of the first column with that name, or −1 exactly when no column has it |
| Frames.SetColumnCases | features/signal_features.py:106 | `df[name] = [v]` keeps the column layout when the name exists, and appends one column when it is new |
| Frames.SetColumnsAppend | features/signal_features.py:105-106 | assigning columns whose names are new and pairwise distinct appends them in order |
| Frames.Join | classifiers/gait_classifier.py:51-58 | the outer join of one-row tables raises exactly when a column name occurs in both; otherwise it is the columns of the first then the second |
| Frames.JoinDisjoint | classifiers/gait_classifier.py:51-58 | a join succeeds exactly when the two tables share no column name |
| Frames.NameInjective | features/signal_features.py:106 | under one suffix, `channel + suffix` determines the channel |
| Frames.IncomparableEnds | features/signal_features.py:106 | a name ending in one suffix does not end in a suffix incomparable with it |
| Frames.JoinApart | classifiers/gait_classifier.py:51-58 | tables whose names end in apart suffix sets join without a clash, and the joined names end in the union of the suffixes |
| Frames.JoinAllApart | classifiers/gait_classifier.py:51-58 | successive joins of tables with pairwise apart suffix sets never raise; the result is every column in order, with distinct names |
| Frames.ExtendAllOk | classifiers/resting_tremor_classifier.py:21-35 | computing and joining tables one after another only appends: a success is the starting table followed by every table's columns |
| Frames.ExtendAllApart | classifiers/resting_tremor_classifier.py:21-35 | with apart suffix sets, compute-then-join raises exactly the first table's exception; otherwise it gives every column in order, with distinct names |
| Frames.Select | classifiers/resting_tremor_amplitude_classifier.py:32 | `df[names]` has exactly the listed columns, each unchanged, and the same height |
| Frames.RowsReindexed | classifiers/gait_classifier.py:96-99 | `.loc` on a label range with `reset_index(drop=True)`: row k of the result is row lo + k in every column |
| Frames.WithColumn | classifiers/resting_tremor_amplitude_classifier.py:51 | `df[name] = col` sets or replaces that one column and leaves the others unchanged |
| SignalFeatures.Centered | features/signal_features.py:212 | `x - x.mean()`: every sample minus the mean |
| SignalFeatures.MeanShift | features/signal_features.py:212 | adding a constant to a channel adds it to the mean |
| SignalFeatures.CountCrossings | features/signal_features.py:215-219 | the loop counts exactly the sign changes between consecutive centred samples |
| SignalFeatures.ComputeMeanCrossRate | features/signal_features.py:212-221 | one channel's rate is the modelled rate: the crossing count divided by the length, or ZeroDivisionError on an empty window |
| SignalFeatures.MeanCrossRate | features/signal_features.py:212-221 | `float(MCR) / len` raises ZeroDivisionError exactly on an empty window |
| SignalFeatures.MeanCrossRateBounds | features/signal_features.py:217-221 | the rate lies in [0, (n − 1)/n] |
| SignalFeatures.MeanCrossRateConstant | features/signal_features.py:212-221 | a constant channel has rate 0 |
| SignalFeatures.MeanCrossRateShift | features/signal_features.py:212-221 | adding a constant to a channel does not change its rate |
| SignalFeatures.RangeOf | features/signal_features.py:121 | max − min is NaN exactly on an empty window; otherwise it is non-negative, bounds every difference of two samples and is attained by one, and is 0 for a constant channel |
| SignalFeatures.RangeCountFraction | features/signal_features.py:240-241 | NaN exactly on an empty window; otherwise a fraction in [0, 1] that times the length is the number of samples in range |
| SignalFeatures.CountAllInRange | features/signal_features.py:241 | a window whose samples all pass the membership test has a count equal to its length |
| SignalFeatures.CountNoneInRange | features/signal_features.py:241 | a window none of whose samples passes the test has count 0 |
| SignalFeatures.HalfOpenFraction | features/signal_features.py:241 | under the half-open test lo <= v < hi, a window inside [lo, hi) has fraction 1 and one outside it has fraction 0 |
| SignalFeatures.HalfOpenGaitEnds | classifiers/gait_classifier.py:49 | at the gait bounds −0.1 and 0.1, a sample at −0.1 is in range and one at 0.1 is not |
| SignalFeatures.AmplitudeIsMax | features/signal_features.py:261 | `max(abs(x))` is non-negative, bounds every absolute sample and is attained by one |
| SignalFeatures.AmplitudeZero | features/signal_features.py:261 | the amplitude is 0 exactly when every sample is 0 |
| SignalFeatures.JerkRatio | features/signal_features.py:257-270 | raises exactly when the sampling rate is 0 (ZeroDivisionError) or the window is empty (ValueError, from max) |
| SignalFeatures.JerkNaN | features/signal_features.py:266-270 | the ratio is NaN (0/0) exactly when every sample is 0 |
| SignalFeatures.JerkClosedForm | features/signal_features.py:257-270 | the ratio is fs · Σ(x[i] − x[i−1])² / (720 · amplitude²); the window duration cancels |
| SignalFeatures.JerkNonnegative | features/signal_features.py:257-270 | for a positive sampling rate the ratio is never negative |
| SignalFeatures.AmplitudeScale | features/signal_features.py:261 | scaling a channel by c scales its amplitude by abs(c) |
| SignalFeatures.SquaredStepSumScale | features/signal_features.py:263-265 | scaling a channel by c scales its summed squared steps by c² |
| SignalFeatures.JerkScaleInvariant | features/signal_features.py:257-270 | scaling a channel by a nonzero constant (a change of unit) leaves the ratio unchanged |
| SignalFeatures.JerkConstant | features/signal_features.py:257-270 | a constant nonzero channel has ratio exactly 0 |
| FeatureTables.Suffixes | features/signal_features.py:74-270 | each feature adds one column per channel, except the dominant frequency, which adds five |
| FeatureTables.SuffixesIncomparable | features/signal_features.py:195-199 | no suffix of a feature ends another suffix of the same feature |
| FeatureTables.ChannelOutcome | features/signal_features.py:240 | selecting a missing channel raises KeyError; otherwise the feature's values for that channel's samples |
| FeatureTables.BuildFeatureTable | features/signal_features.py:203-272 | a feature function (the checks before its loop, then its loop) returns the modelled table |
| FeatureTables.MeanCrossRateLoop | features/signal_features.py:214-223 | once every channel exists, the per-channel loop returns the modelled table, stopping at the first ZeroDivisionError |
| FeatureTables.Tabulate | features/signal_features.py:103-108 | the per-channel assignment loop returns the modelled table, stopping at the first exception |
| FeatureTables.LoopStopsAt | features/signal_features.py:105-106 | once a channel has raised, later channels do not change the outcome |
| FeatureTables.TabulatedOutcome | features/signal_features.py:105-106 | the loop succeeds exactly when every channel does; otherwise it raises the error of the first channel that raises |
| FeatureTables.ColumnLayout | features/signal_features.py:105-106 | over distinct channels every assignment appends: the table is each channel's cells in channel order, with distinct names of the form channel + suffix |
| FeatureTables.SingleColumnLayout | features/signal_features.py:120-121 | with one suffix, column i holds channel i's value under channel i's name |
| FeatureTables.FeatureTableOutcome | features/signal_features.py:203-272 | a feature function succeeds exactly when its checks pass and no channel raises; a missing channel in mean_cross_rate is a KeyError, and sampling rate 0 in jerk_metric is a ZeroDivisionError |
| FeatureTables.FeatureTableLayout | features/signal_features.py:35-272 | over distinct channels a table has per-channel cells in channel order, channels × suffixes columns, distinct names, each ending in a suffix |
| FeatureTables.CorrelationCoefficient | features/signal_features.py:86-92 | the loop over pairs returns the modelled correlation table, raising KeyError at the first pair with a missing channel |
| FeatureTables.CorrelationTable | features/signal_features.py:86-92 | the correlation table succeeds exactly when both channels of every pair exist; otherwise it raises KeyError |
| FeatureTables.PairNames | features/signal_features.py:90 | pair i's column is named `a + '_' + b + '_corr_coef'` |
| FeatureTables.CorrelationLayout | features/signal_features.py:89-90 | with distinct pair names every assignment appends: column i is pair i's correlation |
| FeatureTables.CorrelationNames | features/signal_features.py:90 | the correlation columns carry their pairs' names, all ending in `_corr_coef` |
| GaitClassifier.GaitChannels | classifiers/gait_classifier.py:77-84 | four distinct channels: the three filtered axes, then the first principal component |
| GaitClassifier.GaitTables | classifiers/gait_classifier.py:24-49 | eight tables in computation order: entropy, correlation, RMS, range, IQR of autocovariance, dominant frequency (cutoff 12.0), mean cross rate, range count in (−0.1, 0.1) |
| GaitClassifier.ComputeGaitTables | classifiers/gait_classifier.py:24-49 | the eight calls in order, the first exception escaping |
| GaitClassifier.JoinGaitTables | classifiers/gait_classifier.py:51-58 | the eight outer joins in order onto an empty frame |
| GaitClassifier.ExtractGaitFeatures | classifiers/gait_classifier.py:12-60 | the extraction returns the modelled row |
| GaitClassifier.GaitFeatureLayout | classifiers/gait_classifier.py:12-60 | over distinct channels the extraction succeeds exactly when all eight tables do; otherwise it raises the first table's exception; its row is the tables' columns in join order under fixed, distinct names |
| GaitClassifier.GaitPairNames | classifiers/gait_classifier.py:27-29 | the three correlation columns have distinct names |
| GaitClassifier.GaitGroupsApart | classifiers/gait_classifier.py:24-49 | no column suffix of one table ends a suffix of another, so no two tables can share a name |
| GaitClassifier.GaitColumnCount | classifiers/gait_classifier.py:24-58 | a row has eleven columns per channel plus three correlations |
| GaitClassifier.WindowFeatures | classifiers/gait_classifier.py:91-102 | one extraction per window, in window order, on that window's re-indexed rows |
| GaitClassifier.BuildGaitFeatureSet | classifiers/gait_classifier.py:62-111 | the window loop returns the modelled feature set: the first exception escapes, NaN rows are skipped, and the others are appended |
| GaitClassifier.KeptRows | classifiers/gait_classifier.py:105-109 | the rows kept are exactly the NaN-free ones, at most one per window |
| GaitClassifier.KeptAppend | classifiers/gait_classifier.py:105-109 | dropping NaN rows keeps window order |
| GaitClassifier.GaitFeatureSetRows | classifiers/gait_classifier.py:87-111 | at most one row per window, none with NaN, each with the same 47 distinct column names |
| RestingTremorClassifier.TremorChannels | classifiers/resting_tremor_classifier.py:54-72 | eight distinct channels: the 3.5–7.5 Hz axes, the 0.25–3.5 Hz axes, then the two principal components |
| RestingTremorClassifier.TremorTables | classifiers/resting_tremor_classifier.py:21-35 | four tables in order: range, RMS, dominant frequency (cutoff 12.0), entropy |
| RestingTremorClassifier.ExtractTremorFeatures | classifiers/resting_tremor_classifier.py:11-37 | each table's join onto the current row right after it is computed returns the modelled row |
| RestingTremorClassifier.TremorExtends | classifiers/resting_tremor_classifier.py:11-37 | a successful extraction is the given row followed by the four tables' columns; nothing is removed |
| RestingTremorClassifier.TremorFeatureLayout | classifiers/resting_tremor_classifier.py:11-37 | on a fresh row over distinct channels the extraction succeeds exactly when the four tables do; otherwise it raises the first one's exception; its names are fixed and distinct |
| RestingTremorClassifier.TremorGroupsApart | classifiers/resting_tremor_classifier.py:21-35 | no column suffix of one table ends a suffix of another |
| RestingTremorClassifier.TremorColumnCount | classifiers/resting_tremor_classifier.py:21-35 | a row has eight columns per channel |
| RestingTremorClassifier.TremorWindowFeatures | classifiers/resting_tremor_classifier.py:78-90 | one extraction per window, each on a fresh row |
| RestingTremorClassifier.BuildTremorFeatureSet | classifiers/resting_tremor_classifier.py:39-94 | the window loop returns the modelled feature set, appending every window's row |
| RestingTremorClassifier.TremorFeatureSetRows | classifiers/resting_tremor_classifier.py:75-94 | exactly one row per window, in window order, each with the same 64 distinct column names |
| Amplitude.Squares | classifiers/resting_tremor_amplitude_classifier.py:17 | np.square squares each element |
| Amplitude.RootMeanSquare | classifiers/resting_tremor_amplitude_classifier.py:17 | `compute_rms` is NaN exactly for an empty window |
| Amplitude.Magnitude | classifiers/resting_tremor_amplitude_classifier.py:51 | row i of `mag` is sqrt(x² + y² + z²) of row i |
| Amplitude.SquaredNorms | classifiers/resting_tremor_amplitude_classifier.py:51 | one non-negative squared norm per row |
| Amplitude.MagnitudeSquares | classifiers/resting_tremor_amplitude_classifier.py:51 | squaring the magnitudes gives back the squared norms |
| Amplitude.RmsSquared | classifiers/resting_tremor_amplitude_classifier.py:17 | the RMS of a non-empty window is non-negative, and its square is the mean of the squared samples |
| Amplitude.CombinedAmplitude | classifiers/resting_tremor_amplitude_classifier.py:51-52 | `compute_rms(mag)` is NaN for an empty window; otherwise it is non-negative with square the mean of x² + y² + z² |
| Amplitude.ZeroAmplitude | classifiers/resting_tremor_amplitude_classifier.py:51-52 | a window at rest on every axis has amplitude 0 |
| Amplitude.Axes.Headers | classifiers/resting_tremor_amplitude_classifier.py:31 | `bp_headers`: the three axis names |
| Amplitude.AxesPresent | classifiers/resting_tremor_amplitude_classifier.py:32 | `df[bp_headers]` finds its columns exactly when all three axes are present |
| Amplitude.Selected | classifiers/resting_tremor_amplitude_classifier.py:32 | the three axes alone, unchanged, same height |
| Amplitude.MagnitudeOf | classifiers/resting_tremor_amplitude_classifier.py:51 | one magnitude per row of the frame |
| Amplitude.WindowMagnitude | classifiers/resting_tremor_amplitude_classifier.py:40-51 | a window's `mag` column is the magnitude of the stream's samples of that window |
| Amplitude.AddMagnitude | classifiers/resting_tremor_amplitude_classifier.py:48-51 | reselecting the axes and adding `mag` gives a valid frame whose `mag` is the window's magnitude |
| RestingTremorAmplitude.WindowAmplitudes | classifiers/resting_tremor_amplitude_classifier.py:40-53 | one amplitude per window, in window order |
| RestingTremorAmplitude.CalculateTremorAmplitude | classifiers/resting_tremor_amplitude_classifier.py:19-55 | the loop returns the modelled amplitudes: KeyError for a missing axis, ZeroDivisionError for a zero window length |
| RestingTremorAmplitude.TremorAmplitudeAt | classifiers/resting_tremor_amplitude_classifier.py:37-55 | one amplitude per window; window w's is NaN when empty, otherwise non-negative with square the window mean of x² + y² + z² |
| RestingTremorAmplitude.StillWindow | classifiers/resting_tremor_amplitude_classifier.py:51-53 | a non-empty window at rest on every axis has amplitude 0 |
| HandMovementFeatures.MovementWindows | classifiers/hand_movement_features.py:44-64 | one amplitude-and-jerk outcome per window, in window order |
| HandMovementFeatures.CalculateAmplitudeAndSmoothness | classifiers/hand_movement_features.py:19-66 | the loop returns the modelled lists: KeyError for a missing axis, ZeroDivisionError for a zero window length, the first raising jerk ends it |
| HandMovementFeatures.ComputeWindowMovement | classifiers/hand_movement_features.py:55-63 | the loop body: the window's RMS amplitude and its jerk outcome |
| HandMovementFeatures.MagnitudeJerkTable | classifiers/hand_movement_features.py:62-63 | `jerk_metric(window, fs, ['mag'])` is a one-column table `mag_jerk_ratio` holding the magnitude's jerk ratio, or the same exception |
| HandMovementFeatures.MovementOutcome | classifiers/hand_movement_features.py:19-66 | given the axes and a positive window length, the loop fails only on an empty window (ValueError); with at least three samples per window it never fails |
| HandMovementFeatures.MovementFeaturesAt | classifiers/hand_movement_features.py:19-66 | one amplitude and one jerk per window; the amplitude is non-negative with square the window mean of x² + y² + z², and the jerk is the magnitude's non-negative jerk ratio |
| HandMovementClassifier.Rolling | classifiers/hand_movement_classifier.py:21-28 | one statistic per sample |
| HandMovementClassifier.RollingWindowClipped | classifiers/hand_movement_classifier.py:22-28 | the three branches read x[i − w/2 .. i + w/2) clipped to the samples; an interior window holds w − 1 samples for odd w; from w = 2 on it contains sample i; with w = 1 it is empty |
| HandMovementClassifier.ComputeRollingMean | classifiers/hand_movement_classifier.py:10-30 | returns None exactly for an even window length; otherwise a fresh array of the rolling means |
| HandMovementClassifier.ComputeRollingStd | classifiers/hand_movement_classifier.py:32-52 | returns None exactly for an even window length; otherwise a fresh array of the rolling deviations |
| HandMovementClassifier.RollingMeanBounds | classifiers/hand_movement_classifier.py:22-28 | from w = 2 on, each rolling mean is a number between the smallest and the largest sample of its window |
| HandMovementClassifier.Indicators | classifiers/hand_movement_classifier.py:78 | `(cov > threshold)*1` is 1 where the comparison holds and 0 elsewhere |
| HandMovementClassifier.SumOfIndicators | classifiers/hand_movement_classifier.py:78 | the indicators sum to the number of samples above the threshold |
| HandMovementClassifier.WindowCountRounds | classifiers/hand_movement_classifier.py:83-86 | both branches of `number_of_windows` round the quotient, giving (2n + s) div 2s |
| HandMovementClassifier.Label | classifiers/hand_movement_classifier.py:98-99 | a window's label is 0 or 1 |
| HandMovementClassifier.WindowLabels | classifiers/hand_movement_classifier.py:81-101 | raises ZeroDivisionError exactly for zero samples per window; otherwise round(n/s) labels, each 0 or 1 |
| HandMovementClassifier.DetectHandMovement | classifiers/hand_movement_classifier.py:88-101 | the labelling loop fills a fresh array with exactly the modelled labels |
| HandMovementClassifier.LabelMajority | classifiers/hand_movement_classifier.py:89-99 | window k is samples [k·s, (k+1)·s) clipped, never empty, and labelled 1 exactly when at least half of its samples are above the threshold |
| HandMovementClassifier.MajorityMean | classifiers/hand_movement_classifier.py:98 | the mean of a window's indicators is at least 0.5 exactly when at least half of its samples are above the threshold |
| BradykinesiaEndpoints.AggregateHandMovementAmplitude | endpoints/bradykinesia_endpoints.py:13-19 | NaN for no amplitudes; otherwise between the smallest and the largest |
| BradykinesiaEndpoints.PercentageOfNoHandMovement | endpoints/bradykinesia_endpoints.py:29-35 | raises ZeroDivisionError exactly on no predictions; otherwise in [0, 100], times the number of windows it is 100 times the number of 0s |
| BradykinesiaEndpoints.Runs | endpoints/bradykinesia_endpoints.py:43-65 | the list of runs is empty exactly when there are no predictions |
| BradykinesiaEndpoints.RunsRoundTrip | endpoints/bradykinesia_endpoints.py:43-65 | the runs are maximal (non-empty, neighbours differ) and expand back to the predictions |
| BradykinesiaEndpoints.RunSums | endpoints/bradykinesia_endpoints.py:43-65 | the runs of a kind add up to the number of predictions of that kind |
| BradykinesiaEndpoints.BoutTotals | endpoints/bradykinesia_endpoints.py:37-67 | the bouts without and with movement add up to the numbers of 0s and 1s; no bout is empty; no predictions give no bouts |
| BradykinesiaEndpoints.BoutCounts | endpoints/bradykinesia_endpoints.py:37-67 | for 0/1 predictions the two bout lists differ in length by at most one |
| BradykinesiaEndpoints.RunsAlternate | endpoints/bradykinesia_endpoints.py:43-65 | runs of 0/1 predictions alternate in kind, starting with the first prediction |
| BradykinesiaEndpoints.BoutRoundTrip | endpoints/bradykinesia_endpoints.py:37-67 | interleaving the two bout lists, starting with the first prediction's kind, rebuilds the predictions |
| BradykinesiaEndpoints.CalculateHandMovementBoutLengths | endpoints/bradykinesia_endpoints.py:37-67 | on 0/1 predictions the counting loop returns the lengths of the maximal runs of 0s and of 1s, in order |
| BradykinesiaEndpoints.CountPrediction | endpoints/bradykinesia_endpoints.py:48-65 | the loop body: the counter updates, the appends at a change of prediction, and those after the last one |
| BradykinesiaEndpoints.ComputeAggregateLengthOfNoHandMovementBouts | endpoints/bradykinesia_endpoints.py:69-76 | on 0/1 predictions, the mean of the bout lengths without movement |
| BradykinesiaEndpoints.MeanNoMovementBoutLength | endpoints/bradykinesia_endpoints.py:69-76 | NaN when no window is without movement; otherwise at least one window, and times the number of bouts it is the number of 0s |
| RestingTremorEndpoints.TremorConstancy | endpoints/resting_tremor_endpoints.py:8-14 | raises ZeroDivisionError exactly on no predictions; otherwise in [0, 100], times the number of windows it is 100 times the number of 1s |
| RestingTremorEndpoints.ConstancyExtremes | endpoints/resting_tremor_endpoints.py:14 | tremor in every window gives 100, in none gives 0, and reordering the windows changes nothing |
| FilterClassifierPredictions.FilterRow | endpoints/filter_classifier_predictions.py:30-56 | the tremor outputs are values exactly without hand movement; the bradykinesia outputs exactly with hand movement and no gait; the hand movement output when either holds; kept values pass unchanged; the tremor amplitude is 0 unless constancy is 1; all else is 'NA' |
| FilterClassifierPredictions.FilterPredictionsByTree | endpoints/filter_classifier_predictions.py:16-65 | the five columns have one entry per input row, and row i is the tree applied to input row i |
| FilterClassifierPredictions.OneAssessment | endpoints/filter_classifier_predictions.py:1-13 | a window never feeds both the tremor and the bradykinesia assessment; a dropped hand movement output means every output is 'NA' |
| FilterClassifierPredictions.GaitOnlyRoutes | endpoints/filter_classifier_predictions.py:46-56 | the gait prediction never reaches the output: it is irrelevant without hand movement, and otherwise matters only through whether it is 0 |
| FilterClassifierPredictions.BranchesPartitionRows | endpoints/filter_classifier_predictions.py:37-56 | rows sent to tremor, rows sent to bradykinesia and dropped rows add up to all rows |

## Left out

- Band-pass filtering and PCA (the `preprocess` module) are not part of this model. Each build and amplitude loop
  receives the already-filtered frame with the filtered column names.
- Histogram entropy, pandas correlation, np.std, the IQR of statsmodels' autocovariance, the FFT spectrum summary of
  `dominant_frequency`, and tsfresh's range membership test are parameters (`FeatureTables.Externals`). They come
  from libraries whose code is not part of this model. Only their column layout and error propagation are modelled.
- np.sqrt is a function parameter. The lemmas assume only that it returns the non-negative root of a non-negative
  number (`Amplitude.IsSqrt`).
- `compute_aggregate_smoothness_of_hand_movement` (95th percentile, endpoints/bradykinesia_endpoints.py:21-27) and
  `compute_aggregate_tremor_amplitude` (85th percentile, endpoints/resting_tremor_endpoints.py:16-22) are left out.
  They are single calls to np.percentile, whose interpolation is library code.
- `detect_hand_movement` before the comparison is left out: the vector magnitude, the Butterworth low-pass filter and
  the division `rolling_std / rolling_mean`. Labelling starts from the per-sample comparison results. The rolling
  mean and rolling std are modelled in full.
- An even window length `int(fs + 1)`, such as for fs = 25, makes both rolling functions return `None`. In the
  source, the left-out division `rolling_std / rolling_mean` would then raise TypeError. The model stops at that
  `None` (`HandMovementClassifier.ComputeRollingMean`).
- HandMovementClassifier.WindowLabels: `samples_in_window` is a natural number here. In the source it is
  `window_length * fs`, which may be fractional.
- Windowing: the window length `fs * 3.0` is a natural number `ws` with `ws == 3 fs`. A fractional window length,
  and the `int()` truncation it would meet, are not modelled.
- Floats are exact reals: no rounding, overflow or infinities. A NaN inside the input samples is not modelled. In
  the gait loop, NaN arises only from the feature values themselves.
- BradykinesiaEndpoints.CalculateHandMovementBoutLengths: its result is stated only for predictions that are all
  0 or 1, as the source documents them. The model runs any input but says nothing about other values.
- BradykinesiaEndpoints.ComputeAggregateLengthOfNoHandMovementBouts: stated only for 0/1 predictions, for the same
  reason.
- `BradykinesiaEndpoints.AggregateHandMovementAmplitude` takes numbers. A NaN amplitude, which would make the NumPy
  mean NaN, is not modelled.
- The printed message of the rolling functions for an even window length is left out. Only the `None` return is
  modelled.
- DataFrame details beyond names, order and values are left out: dtypes, the index of the appended feature set, and
  the mixed 'NA'/number object columns of the filtered predictions, which are a `Cell` datatype here.
- The `__main__` blocks, CSV reading, model initialisation (`initialize_model`, scikit-learn) and feature selection
  constants are outside the core.
- The hand movement jerk uses `SignalFeatures.JerkRatio` directly. `HandMovementFeatures.MagnitudeJerkTable` proves
  that this equals reading `mag_jerk_ratio` back from `jerk_metric`'s table.
