# MSE-minimisation workflow: a Dafny model

This project models the deterministic core of a Streamlit application that cleans drilling
logs, clusters them, trains a regressor of the rate of penetration (ROP) per cluster, and
searches for the drilling parameters that minimise the mechanical specific energy (MSE).
It covers these parts:

- **Drilling physics.** The friction coefficient Mu and the MSE formula of the drilling
  utilities, and the DOC, Mu and MSE columns the frame gains on load. The two MSE
  formulas are proved to disagree.
- **Frame utilities.** Column lookup by mnemonic substring, the per-cluster parameter
  bounds, and the first-match lookup in the header-pattern table.
- **Cleaning.** The current and the legacy cleaning passes: positivity and sentinel
  filters, numeric coercion, and the sequential inter-quartile fences of outlier removal.
  Plotting preparation is included.
- **Selection rules.** Regressor selection by mean cross-validation score. Cluster-count
  selection by silhouette (`cluster.py`) and by SSE (`unsupervised_learning.py`).
- **Optimisation.** The random initial guess with renormalised lithology fractions, the
  penalised objective, the 10th-percentile filter, parameter ranges and the `MSE_min`
  column, for the single-start and the multi-start files. Also the rock sampling and the
  `(1 + tolerance)` acceptance loop of the parameter optimisation.
- **Files.** Reading with encoding and delimiter retries (current and legacy), header
  building and duplicate-header renaming, base file names, extension dispatch, the
  `"header (unit)"` merge on load and its inverse on save with the units row.
- **Standardisation.** Mnemonic standardisation with its context rules, unit
  standardisation, the unit-conversion table and its converters.
- **State.** The session state (put-if-absent, clear to None, reload restricted to known
  keys), the JSON encoding and decoding hooks, and the `Feature` record with its dictionary
  round trip and its loading from the session.

A frame is a list of column names and a list of rows of cells. A cell is a number, a text
or missing; NaN is collapsed into "missing", or into `None` where the code produces it.
Numbers are Dafny `real`s.

Some things enter the model as parameters: random draws, scaler and model predictions,
solver results, cross-validation means, clustering scores and labels, file readers, the
parsers of `float()`/`to_numeric`, and the header regular expressions. Each method or
function is proved against a pure specification, and the lemmas state the source's
promises about those specifications. Where the code updates something in place, the model
does too: the frame (`Frames.Table`), the session state (`State.SessionState`), the
shared header-pattern table (`Headers.PatternTable`), and the fitted regressors
(`MlModels.Estimator`).

## Model

| member | source | states |
|---|---|---|
| Drilling.ComputeMu | src/utils/drilling_utils.py:4-17 | Mu is defined exactly when the weight on bit and the bit diameter are non-zero, and then Mu times `wob * d / 36` gives back the torque |
| Drilling.MuDenominatorZero | src/utils/drilling_utils.py:13 | the normal-force denominator of Mu is zero exactly when the weight on bit or the diameter is zero |
| Drilling.MuLinearInTorque | src/utils/drilling_utils.py:13 | Mu scales linearly with the torque |
| Drilling.ComputeMse | src/utils/drilling_utils.py:21-35 | MSE is defined exactly when the bit diameter and the rate of penetration are non-zero, and is then the thrust term plus the rotary term |
| Drilling.MseDenominatorSign | src/utils/drilling_utils.py:33 | the rotary denominator `d**2 * rop * 3.2808` is zero exactly when the diameter or the rate of penetration is zero, and positive for a non-zero diameter and positive rate |
| Drilling.SquareSign | src/utils/drilling_utils.py:32-33 | a square is positive for a non-zero base and zero for a zero base |
| Drilling.MseDecreasingInRop | src/utils/drilling_utils.py:32-35 | with positive torque, speed and diameter, a faster rate of penetration strictly lowers MSE |
| Drilling.MseIndependentOfRop | src/utils/drilling_utils.py:33 | without torque or without rotation, MSE does not depend on the rate of penetration |
| Drilling.MseNonNegativeMonotoneInWob | src/utils/drilling_utils.py:32-35 | for non-negative inputs MSE is non-negative and does not decrease as the weight on bit grows |
| DfUtils.FirstMatchFrom | src/utils/df_utils.py:29-32 | the position found is the first column at or after the start whose lower-cased name contains the lower-cased mnemonic; no position means no such column |
| DfUtils.ColumnsByMnemonics | src/utils/df_utils.py:27-33 | at most one column per mnemonic is returned, and every returned name is a column of the frame |
| DfUtils.GetColumnsByMnemonics | src/utils/df_utils.py:5-33 | fails exactly when the argument is a Series or a list and there is a mnemonic to look up (the loop reads `df.columns`); otherwise returns, mnemonic by mnemonic, the first matching column; a single string is searched as a one-element list |
| DfUtils.CollectMatches | src/utils/df_utils.py:27-33 | the outer loop appends, in mnemonic order, what each mnemonic finds |
| DfUtils.FirstMatching | src/utils/df_utils.py:29-32 | the inner loop keeps the first matching column and stops there (`break`), or nothing |
| DfUtils.ColumnsByMnemonicsSnoc | src/utils/df_utils.py:28-32 | one more mnemonic appends exactly what it finds |
| DfUtils.AllResolved | src/utils/df_utils.py:27-33 | the result is as long as the mnemonic list exactly when every mnemonic matches a column, and then position i holds mnemonic i's first matching column |
| DfUtils.ExactNameFound | src/utils/df_utils.py:30 | a column's own name used as a mnemonic always finds a column |
| DfUtils.AbsentWhenNotFound | src/utils/df_utils.py:30 | a mnemonic that finds nothing is not itself a column name |
| DfUtils.ClusterValues | src/utils/df_utils.py:55-56 | every value collected for a cluster comes from a row whose cluster column holds that label |
| DfUtils.MnemonicBound | src/utils/df_utils.py:53-60 | a bound is computed exactly when the mnemonic finds a column (else `[0]` raises IndexError) and the frame has a 'cluster' column (else KeyError) |
| DfUtils.BuildMapSnoc | src/utils/df_utils.py:51-60 | one more mnemonic either ends the loop with its error or sets its own entry of the dictionary |
| DfUtils.BuildMapEntries | src/utils/df_utils.py:50-61 | the dictionary is built exactly when every mnemonic's bound is; it has one key per mnemonic and no other, each holding a bound computed for that mnemonic |
| DfUtils.BuildMapErrorPersists | src/utils/df_utils.py:51-60 | the first failure ends the loop and is the result |
| DfUtils.BuildMapDistinct | src/utils/df_utils.py:50-61 | with distinct mnemonics, each key holds the bound computed for that mnemonic |
| DfUtils.MnemonicBounds | src/utils/df_utils.py:51-60 | one bound result per mnemonic, in order |
| DfUtils.MnemonicBoundAt | src/utils/df_utils.py:51-60 | entry i is the bound of mnemonic i |
| DfUtils.FillBounds | src/utils/df_utils.py:50-61 | the loop yields the dictionary of the bounds of every mnemonic, or the first failure |
| DfUtils.ClampedBound | src/utils/df_utils.py:57-60 | the low end is the cluster minimum when it is not negative and 0.0001 otherwise (a NaN minimum included); the high end is the maximum, times 100 unless the mnemonic is Si, Shale, Dolomite or Limestone, and NaN for an empty cluster |
| DfUtils.GetBoundsForCluster | src/utils/df_utils.py:36-61 | the bounds dictionary for the cluster under the clamping rule |
| DfUtils.ClampedLowNonNegative | src/utils/df_utils.py:57-58 | every low bound produced is a non-negative number |
| DfUtils.FirstEntryFrom | src/utils/df_utils.py:75-77 | the entry found is the first at or after the start whose pattern is not None and matches |
| DfUtils.GetHeaderFromMnemonic | src/utils/df_utils.py:64-78 | None exactly when no entry's pattern matches; otherwise the header of the first entry, in table order, whose pattern is not None and matches |
| AddColumns.DocValue | src/data_wrangle/add_columns.py:18-19 | the depth of cut `rop * 39.3701 / 60 / bit_rpm` is a number exactly when the bit speed is non-zero |
| AddColumns.ColumnMseDenominatorZero | src/data_wrangle/add_columns.py:27 | the column formula's denominator `d**2 * rop` is zero exactly when the diameter or the rate of penetration is zero |
| AddColumns.ColumnMse | src/data_wrangle/add_columns.py:24-27 | the MSE column value is a number exactly when the diameter and the rate of penetration are non-zero |
| AddColumns.TorqueTermsDiffer | src/data_wrangle/add_columns.py:26-27 | the rotary term of the column is 3.2808 times the one of `compute_mse` (src/utils/drilling_utils.py:33): the column omits that factor |
| AddColumns.MseFormulasDisagree | src/data_wrangle/add_columns.py:25 | the column's thrust term `wob / pi * (d/2)**2` differs from `compute_mse`'s `wob / (d/2)**2 * pi`: on one concrete input the two give pi and 1/pi |
| AddColumns.DerivedCell | src/data_wrangle/add_columns.py:16 | a derived cell is never a text: an input that is not a number gives a missing cell (text inputs are refused before, see `AddColumns.AddIfAbsentExtends`) |
| AddColumns.DerivedColumn | src/data_wrangle/add_columns.py:16 | a derived column has one cell per row and holds no text |
| AddColumns.AddIfAbsent | src/data_wrangle/add_columns.py:12-16 | the only error adding one derived column can raise is TypeError |
| AddColumns.ExtendsTransitive | src/data_wrangle/add_columns.py:7-29 | appending columns in several steps is appending columns |
| AddColumns.AddIfAbsentExtends | src/data_wrangle/add_columns.py:12-16 | adding a derived column raises TypeError exactly when it is computed and one of its input columns holds a text; otherwise it is appended exactly when all its input mnemonics resolve and no column already contains its name, as the last column holding the values computed from the inputs, no appended cell is a text and no existing column or cell changes |
| AddColumns.AddColumnsErrors | src/data_wrangle/add_columns.py:7-29 | `add_columns` raises only TypeError, and only on a frame that already held a text cell: the columns it appends never hold one |
| AddColumns.NeverOverwrites | src/data_wrangle/add_columns.py:14 | a derived column whose name is already a column is never recomputed |
| AddColumns.AddColumnsProperties | src/data_wrangle/add_columns.py:7-29 | afterwards the bit diameter column exists (the configured 8.5 when it was absent) and every earlier column and cell is unchanged |
| AddColumns.ExtendsKeeps | src/data_wrangle/add_columns.py:7-29 | a column is still present after columns are appended |
| AddColumns.WithBitDiameterExtends | src/data_wrangle/add_columns.py:9-10 | an absent bit diameter column is appended holding the configured constant in every row |
| AddColumns.AddColumnIfNotExists | src/data_wrangle/add_columns.py:12-16 | the frame is updated in place to the functional result for one derived column; a TypeError is returned and leaves the frame as it was |
| AddColumns.AddColumnsInPlace | src/data_wrangle/add_columns.py:7-29 | the frame is updated in place to the functional result: bit diameter, then DOC, Mu and MSE in that order; the first TypeError stops the steps, keeps the columns added before it and is returned |
| Cluster.SilhouetteScores | src/cluster/cluster.py:22-29 | the loop over `range(2, 11)` collects the silhouette score of each candidate k, in order |
| Cluster.CandidateScores | src/cluster/cluster.py:25-29 | nine scores, entry i being the score of k = i + 2 |
| Cluster.BestK | src/cluster/cluster.py:38 | the chosen k lies in [2, 10], its score is the maximum, and every smaller k scores strictly less (ties go to the first, as `index(max(...))` does) |
| Cluster.SearchRefusal | src/cluster/cluster.py:24-28 | the candidate loop goes through exactly when every candidate from its start to 10 asks for no more clusters than rows and gets a labelling with 2 to n - 1 distinct labels, as `silhouette_score` demands |
| Cluster.Refusal | src/cluster/cluster.py:11-42 | clustering proceeds exactly when at least one feature column resolves, there is a row, every feature cell is a number or a text that `float()` reads as one (StandardScaler converts those and fails on any other text; KMeans fails on a NaN), and either the given k lies in [1, rows] or, when k is chosen, every candidate 2..10 fits the rows and gets a labelling `silhouette_score` accepts |
| Cluster.ChosenNeedsTenRows | src/cluster/cluster.py:24-28 | when k is chosen, clustering goes ahead only with at least ten rows |
| Cluster.FitWithOneLabelRefused | src/cluster/cluster.py:24-28 | when k is chosen, a two-cluster fit with a single label (as identical rows give) makes clustering fail |
| Cluster.PerformKmeans | src/cluster/cluster.py:9-47 | fails exactly when clustering is refused (a feature text `float()` cannot read, a NaN feature cell, too few rows, a refused labelling), and then the frame is unchanged; otherwise k is the given one or the best-silhouette one, and the frame gains (or has replaced) a 'cluster' column with one label per row, nothing else changing |
| Cluster.Labels | src/cluster/cluster.py:45 | one numeric cell per label, in row order |
| UnsupervisedLearning.CandidateSse | unsupervised_learning.py:14-17 | ten inertia values, entry i being the inertia of k = i + 1 |
| UnsupervisedLearning.SseCurve | unsupervised_learning.py:11-17 | the loop over `range(1, 11)` collects the inertia of each candidate k, in order |
| UnsupervisedLearning.SmallestSseK | unsupervised_learning.py:27 | the chosen k lies in [1, 10], its inertia is the minimum and every smaller k's is strictly larger (the first minimum, as `index(min(...))` gives; not an elbow) |
| UnsupervisedLearning.Refusal | unsupervised_learning.py:7-31 | clustering proceeds exactly when every named column exists, there is at least one column and one row, every cell of those columns is a number or a text that `float()` reads as one, and there are at least as many rows as clusters; an unreadable text and a NaN cell are refused with their own messages, after the sample count and then the feature count |
| UnsupervisedLearning.NumberTextClustered | unsupervised_learning.py:15 | a feature cell "1.5" that `float()` reads as 1.5 is clustered, with the same outcome as the number 1.5 |
| UnsupervisedLearning.WordTextRefused | unsupervised_learning.py:15 | a feature cell `float()` cannot read stops the clustering with "could not convert string to float" |
| UnsupervisedLearning.KmeansCluster | unsupervised_learning.py:5-36 | fails exactly when clustering is refused (so a text such as "1.5" is clustered as its number), leaving the frame unchanged; otherwise k is the given one or the smallest-inertia one, and the frame gains (or has replaced) a 'cluster' column of labels, nothing else changing |
| MlModels.Select | src/ml_models/ml_models.py:13-28 | a model is chosen exactly when some mean score is a number; the chosen mean is at most every numeric mean, every earlier model's mean is NaN or strictly larger (ties keep the first), and with no numeric mean the result is (None, inf) |
| MlModels.Estimator.constructor | src/ml_models/ml_models.py:70-77 | a regressor is built unfitted |
| MlModels.Estimator.Fit | src/ml_models/ml_models.py:17 | fitting records the cluster the model was last trained on |
| MlModels.EvaluateModels | src/ml_models/ml_models.py:12-28 | the first model raises the fit's error before anything is fitted, or cross-validation's error once it is fitted, and then nothing else changes; otherwise every model is fitted on the cluster and the returned model and score are those of the selection |
| MlModels.Scaler.constructor | src/ml_models/ml_models.py:88-89 | a fresh scaler is fitted on one cluster's features |
| MlModels.ReadInputs | src/ml_models/ml_models.py:59-65 | fails exactly when the target mnemonic resolves to no column (`[0]` raises IndexError) or there is no 'cluster' column (KeyError); otherwise the feature columns, the first target column, and each distinct value of 'cluster' once |
| MlModels.ClusterRowsSound | src/ml_models/ml_models.py:81 | every row selected for a cluster is a row of the frame carrying that label |
| MlModels.ClusterRowsComplete | src/ml_models/ml_models.py:81 | every row of the frame carrying the label is selected for that cluster |
| MlModels.ScalerError | src/ml_models/ml_models.py:88-89 | the scaler raises exactly when the cluster has no row (as with a NaN label), no feature column resolves, or a feature cell is a text `float()` cannot read; texts that spell numbers are converted and NaN features pass |
| MlModels.NumberTextFitted | src/ml_models/ml_models.py:88-89 | a feature text "1.5" that `float()` reads as 1.5 passes the scaler and the first fit |
| MlModels.WordTextUnscaled | src/ml_models/ml_models.py:88-89 | a feature text `float()` cannot read stops the scaler with "could not convert string to float" |
| MlModels.FitError | src/ml_models/ml_models.py:17 | with no unreadable feature text, the first fit raises exactly when some feature cell is NaN or some target cell is NaN or a text `float()` cannot read; a NaN target is reported before an unreadable one |
| MlModels.FoldError | src/ml_models/ml_models.py:18-19 | cross-validation with k folds raises exactly when the cluster has fewer than k rows |
| MlModels.ClusterError | src/ml_models/ml_models.py:81-93 | a cluster's loop body raises nothing exactly when the cluster has at least one and at least k rows, a feature column, and feature and target cells that are numbers or texts `float()` reads as numbers |
| MlModels.FirstErrorAt | src/ml_models/ml_models.py:79-96 | when every cluster before position j passes and cluster j raises, the loop raises cluster j's error |
| MlModels.LoopErrorNone | src/ml_models/ml_models.py:79-96 | the loop raises nothing exactly when no cluster's body raises, and what it raises is some cluster's error |
| MlModels.FitCluster | src/ml_models/ml_models.py:80-96 | one pass of the loop body raises exactly the cluster's error; otherwise the stored entry has a scaler fitted on that cluster and the regressor chosen for it, and every shared regressor was last fitted on it |
| MlModels.Means | src/ml_models/ml_models.py:16-21 | one mean score per regressor, six in all |
| MlModels.ClusterLoop | src/ml_models/ml_models.py:79-96 | fails exactly with the error of the first cluster, in label order, whose body raises; otherwise one entry per distinct cluster label, each with a scaler fitted on that cluster and the regressor selected for it, and every shared regressor was last fitted on the last label |
| MlModels.BuildModels | src/ml_models/ml_models.py:70-77 | six fresh unfitted regressors named rf, xgb, svr, gbm, lgbm and catboost, in that order |
| MlModels.FitClusters | src/ml_models/ml_models.py:70-96 | the regressors are built once and the cluster loop's outcome holds, failure included |
| MlModels.PerformOptimization | src/ml_models/ml_models.py:31-98 | fails exactly with the first of: the target's IndexError, the missing 'cluster' KeyError, `KFold`'s ValueError for k < 2, the first failing cluster's error; otherwise one entry per distinct cluster label with its own scaler and its chosen regressor, every stored regressor object having been last fitted on the last cluster |
| MlModels.OptimizationSucceeds | src/ml_models/ml_models.py:31-98 | the optimisation succeeds exactly when the target and 'cluster' resolve, k >= 2, and every cluster has at least k rows, a feature column, and feature and target cells that are numbers or texts `float()` reads as numbers |
| MlModels.SmallClusterRefused | src/ml_models/ml_models.py:68-93 | with the default seven folds, a cluster of fewer than seven rows, or a NaN label, makes the optimisation fail |
| OptimizeMseMin.Larger | src/optimize_for_mse_min/optimize_for_mse_min.py:28 | Python's `max` of two numbers: at least both, and one of them |
| OptimizeMseMin.DrawWithin | src/optimize_for_mse_min/optimize_for_mse_min.py:28-31 | a uniform draw lies between max(low, floor) and high whenever that interval is not empty |
| OptimizeMseMin.Draws | src/optimize_for_mse_min/optimize_for_mse_min.py:25-31 | one raw draw per mnemonic, entry i drawn from mnemonic i's interval |
| OptimizeMseMin.LithologyIndices | src/optimize_for_mse_min/optimize_for_mse_min.py:24-35 | exactly the positions whose lower-cased mnemonic is si, shale, dolomite or limestone, in increasing order |
| OptimizeMseMin.Rescale | src/optimize_for_mse_min/optimize_for_mse_min.py:37-38 | lithology entries are multiplied by the factor and every other entry is unchanged |
| OptimizeMseMin.Normalised | src/optimize_for_mse_min/optimize_for_mse_min.py:33-38 | fails exactly when there are lithology entries and they sum to zero (division by zero); otherwise one entry per mnemonic with every non-lithology entry unchanged |
| OptimizeMseMin.InitialGuess | src/optimize_for_mse_min/optimize_for_mse_min.py:22-40 | the starting point has one entry per mnemonic and each non-lithology entry is its own draw, never rescaled |
| OptimizeMseMin.GetRandomInitialGuess | src/optimize_for_mse_min/optimize_for_mse_min.py:22-40 | the draw loop followed by the renormalisation yields the starting point |
| OptimizeMseMin.LithologyPositions | src/optimize_for_mse_min/optimize_for_mse_min.py:34-35 | the comprehension collects the lithology positions |
| OptimizeMseMin.SumPositions | src/optimize_for_mse_min/optimize_for_mse_min.py:36 | the sum over the lithology positions, added left to right |
| OptimizeMseMin.NormaliseLithologies | src/optimize_for_mse_min/optimize_for_mse_min.py:33-38 | summing and rescaling in place yields the renormalised vector, or the division-by-zero failure |
| OptimizeMseMin.RescaleSum | src/optimize_for_mse_min/optimize_for_mse_min.py:36-38 | rescaling the lithology entries multiplies their sum by the same factor |
| OptimizeMseMin.NormalisedSum | src/optimize_for_mse_min/optimize_for_mse_min.py:33-38 | after renormalisation the lithology entries sum to exactly 100 |
| OptimizeMseMin.ScaledQuotient | src/optimize_for_mse_min/optimize_for_mse_min.py:38 | b times a/b is a |
| OptimizeMseMin.GuessLithologySum | src/optimize_for_mse_min/optimize_for_mse_min.py:22-40 | the lithology entries of a starting point sum to exactly 100 |
| OptimizeMseMin.GuessKeepsRatios | src/optimize_for_mse_min/optimize_for_mse_min.py:37-38 | renormalising keeps the ratio between any two lithology entries |
| OptimizeMseMin.ScaledSwap | src/optimize_for_mse_min/optimize_for_mse_min.py:38 | products of three factors commute |
| OptimizeMseMin.GuessWithoutLithology | src/optimize_for_mse_min/optimize_for_mse_min.py:34-38 | without lithology mnemonics the starting point is the raw draws and nothing is divided |
| OptimizeMseMin.SumAtPositive | src/optimize_for_mse_min/optimize_for_mse_min.py:36 | a sum of positive entries is non-negative, and positive when not empty |
| OptimizeMseMin.GuessDefined | src/optimize_for_mse_min/optimize_for_mse_min.py:22-40 | with a positive floor and non-empty intervals, the starting point exists and every draw lies in [floor, high] |
| OptimizeMseMin.FirstLowerFrom | src/optimize_for_mse_min/optimize_for_mse_min.py:71-78 | the first position at or after the start whose lower-cased mnemonic equals the name, or none |
| OptimizeMseMin.ObjectiveSlots | src/optimize_for_mse_min/optimize_for_mse_min.py:71-78 | the objective can index its argument exactly when some mnemonic lower-cases to each of wob, rpm, torque and mu; each slot holds such a mnemonic (else `[0]` raises IndexError) |
| OptimizeMseMin.MuWritten | src/optimize_for_mse_min/optimize_for_mse_min.py:80-83 | the Mu slot is overwritten with compute_mu(wob, torque, 8.5), defined exactly when wob is non-zero; every other entry is unchanged |
| OptimizeMseMin.ObjectiveValue | src/optimize_for_mse_min/optimize_for_mse_min.py:80-105 | the objective is defined exactly when Mu and the predicted ROP are usable, and is then the MSE at the predicted ROP plus the penalty of the written WOB, torque and Mu |
| OptimizeMseMin.Objective | src/optimize_for_mse_min/optimize_for_mse_min.py:70-105 | the caller's array has its Mu slot overwritten before predicting, and the value returned is the objective |
| OptimizeMseMin.Violations | src/optimize_for_mse_min/optimize_for_mse_min.py:97-103 | counts the broken limits among WOB < 10, torque < 5 and Mu > 1000: at most 3, and 0 exactly when none is broken |
| OptimizeMseMin.MseMinPenalty | src/optimize_for_mse_min/optimize_for_mse_min.py:97-103 | the penalty is 1e6 per broken limit, and 0 exactly when WOB >= 10, torque >= 5 and Mu <= 1000 |
| OptimizeMseMin.ObjectivePenalised | src/optimize_for_mse_min/optimize_for_mse_min.py:97-105 | within the limits the objective is the plain MSE; outside them it is at least 1e6 above it |
| OptimizeMseMin.MseMinConstraints | src/optimize_for_mse_min/optimize_for_mse_min.py:44-58 | three constraints exist exactly when 'WOB' and 'TORQUE' are (exactly) among the mnemonics; `list.index` raises ValueError otherwise |
| OptimizeMseMin.MseMinFeasible | src/optimize_for_mse_min/optimize_for_mse_min.py:50-58 | a point satisfies the constraints exactly when WOB >= 15, torque >= 5, WOB is non-zero and compute_mu(WOB, torque, 8.5) <= 1000 |
| OptimizeMseMin.Funs | src/optimize_for_mse_min/optimize_for_mse_min.py:118 | the objective values of the results, in order |
| OptimizeMseMin.LowMse | src/optimize_for_mse_min/optimize_for_mse_min.py:120-124 | the percentile filter fails exactly when there is no result (numpy cannot take the percentile of nothing) |
| OptimizeMseMin.LowMseKept | src/optimize_for_mse_min/optimize_for_mse_min.py:120-124 | the kept pairs are exactly the results at or below the 10th percentile, in order and with their pairing, at least one is kept, and the threshold lies between the smallest and largest value |
| OptimizeMseMin.Guesses | src/optimize_for_mse_min/optimize_for_mse_min.py:109-110 | one starting point per iteration |
| OptimizeMseMin.GuessAt | src/optimize_for_mse_min/optimize_for_mse_min.py:110 | iteration k starts from the point drawn with its own draws |
| OptimizeMseMin.Runs | src/optimize_for_mse_min/optimize_for_mse_min.py:113-115 | one solver result per starting point, in order |
| OptimizeMseMin.MonteCarloOptimization | src/optimize_for_mse_min/optimize_for_mse_min.py:108-124 | the loop draws a starting point, then fails with ValueError when 'WOB' or 'TORQUE' is not an exact mnemonic, or with IndexError when the objective finds no mnemonic lower-casing to wob, rpm, torque or mu; otherwise it runs the solver once per iteration, appends every (x, fun), then filters |
| OptimizeMseMin.Prepared | src/optimize_for_mse_min/optimize_for_mse_min.py:44-78 | a solver call gets past its look-ups exactly when the constraints' exact names and the objective's lower-case names all resolve; the constraints' ValueError comes first |
| OptimizeMseMin.Iteration | src/optimize_for_mse_min/optimize_for_mse_min.py:108-115 | one iteration fails with the starting point's error, else with the first look-up error, and otherwise yields the solver's result from that starting point |
| OptimizeMseMin.IterationOutcome | src/optimize_for_mse_min/optimize_for_mse_min.py:108-115 | an iteration goes through exactly when its starting point is drawn and the look-ups resolve; the starting point's error comes before the look-up error, and a success is the solver's result from that point |
| OptimizeMseMin.StepFails | src/optimize_for_mse_min/optimize_for_mse_min.py:108-115 | an iteration that fails after the earlier ones went through fails the whole run with that iteration's error |
| OptimizeMseMin.StepsDone | src/optimize_for_mse_min/optimize_for_mse_min.py:108-124 | once every iteration went through, the run is the percentile filter of the solver results collected in order |
| OptimizeMseMin.RunKeeps | src/optimize_for_mse_min/optimize_for_mse_min.py:108-124 | with every starting point drawn, the run succeeds exactly when there was an iteration and the look-ups succeed, and then keeps at least one pair, in order, exactly those at or below the 10th percentile |
| OptimizeMseMin.MonteCarloKeeps | src/optimize_for_mse_min/optimize_for_mse_min.py:69-124 | the run succeeds exactly when there was an iteration, 'WOB' and 'TORQUE' are exact mnemonics and some mnemonic lower-cases to each of wob, rpm, torque and mu; then exactly one result per iteration is collected and the filter keeps at least one pair, in order, exactly those at or below the 10th percentile |
| OptimizeMseMin.ParamColumn | src/optimize_for_mse_min/optimize_for_mse_min.py:131 | `low_mse_params[:, i]`: entry k is vector k's component i |
| OptimizeMseMin.RangeOf | src/optimize_for_mse_min/optimize_for_mse_min.py:130-131 | the (min, max) of a component exists exactly when there is a kept vector |
| OptimizeMseMin.Ranges | src/optimize_for_mse_min/optimize_for_mse_min.py:129-131 | one range per mnemonic position |
| OptimizeMseMin.GetParamRanges | src/optimize_for_mse_min/optimize_for_mse_min.py:127-132 | the loop builds the dictionary of the ranges of every mnemonic |
| OptimizeMseMin.ParamRangesContain | src/optimize_for_mse_min/optimize_for_mse_min.py:127-132 | for distinct mnemonics the ranges exist when there is a kept vector; every kept vector lies inside each range and both ends are attained |
| OptimizeMseMin.RangeOfContains | src/optimize_for_mse_min/optimize_for_mse_min.py:131 | a component lies inside its (min, max) and both ends occur |
| OptimizeMseMin.ExpandedBound | src/optimize_for_mse_min/optimize_for_mse_min.py:172-173 | both ends of a bound are numbers exactly when the cluster has values (NaN otherwise) |
| OptimizeMseMin.ExpandedBoundContains | src/optimize_for_mse_min/optimize_for_mse_min.py:161-174 | the low end is the cluster minimum; lithologies (Si, Shale, Dolomite, Limestone) keep their maximum; for non-negative data and a factor of at least 1 every cluster value lies inside its bound |
| OptimizeMseMin.ScaledAtLeast | src/optimize_for_mse_min/optimize_for_mse_min.py:172-173 | multiplying a non-negative maximum by a factor of at least 1 does not lower it |
| OptimizeMseMin.MonteCarloNeedsExactNames | src/optimize_for_mse_min/optimize_for_mse_min.py:108-113 | with an iteration and 'WOB' or 'TORQUE' missing, the run fails: with the starting point's error, or else with the ValueError of `list.index` |
| OptimizeMseMin.MonteCarloNeedsLowerNames | src/optimize_for_mse_min/optimize_for_mse_min.py:69-113 | with both exact names but no mnemonic lower-casing to rpm or to mu, the run fails: with the starting point's error, or else with IndexError |
| OptimizeMseMin.DefaultMnemonicsLackRpm | src/optimize_for_mse_min/optimize_for_mse_min.py:70-78 | the default mnemonics WOB, BIT_RPM, TORQUE and Mu hold no name lower-casing to rpm, so the objective's look-ups fail on them |
| OptimizeMseMin.GetBoundsForCluster | src/optimize_for_mse_min/optimize_for_mse_min.py:161-174 | one bound per mnemonic from the cluster's min and max times 10000, or the first failure |
| OptimizeMseMin.Trunc | src/optimize_for_mse_min/optimize_for_mse_min.py:221 | Python's `int(x)`: the floor for non-negative x and within 1 of x otherwise |
| OptimizeMseMin.MseMinCell | src/optimize_for_mse_min/optimize_for_mse_min.py:220-221 | a cluster cell maps to the minimum kept MSE of cluster int(x), which must exist, carry 'low_mses' and be non-empty |
| OptimizeMseMin.MseMinColumn | src/optimize_for_mse_min/optimize_for_mse_min.py:220-221 | the mapped column exists only when the frame has a 'cluster' column, with one cell per row |
| OptimizeMseMin.MseMinPerRow | src/optimize_for_mse_min/optimize_for_mse_min.py:219-222 | every row gets the smallest kept MSE of its own cluster, which is one of those values and no larger than any |
| OptimizeMseMin.AddMseMinToOriginalData | src/optimize_for_mse_min/optimize_for_mse_min.py:219-222 | the 'MSE_min (ksi)' column is computed and assigned in place, no other column changing; a failure leaves the frame as it was |
| OptimizeMultiStart.GetRandomInitialGuess | src/optimize_for_mse_min/optimize_for_mse_min_multi_start.py:22-39 | this file's starting point is the shared draw-and-renormalise computation with the 0.0001 floor; every non-lithology entry is its own draw |
| OptimizeMultiStart.GuessWithinAndNormalised | src/optimize_for_mse_min/optimize_for_mse_min_multi_start.py:22-39 | with non-empty intervals the starting point exists, every non-lithology entry lies in [max(low, 0.0001), high] and the lithology entries sum to 100 |
| OptimizeMultiStart.MultiStartPenalty | src/optimize_for_mse_min/optimize_for_mse_min_multi_start.py:101-103 | the penalty is 1000 exactly when WOB <= 0.1 and 0 exactly when WOB > 0.1 |
| OptimizeMultiStart.Objective | src/optimize_for_mse_min/optimize_for_mse_min_multi_start.py:76-105 | the caller's array has its Mu slot overwritten from WOB and torque, and the value is the MSE at the predicted ROP plus this file's penalty |
| OptimizeMultiStart.ObjectivePenalty | src/optimize_for_mse_min/optimize_for_mse_min_multi_start.py:86-105 | overwriting Mu keeps WOB; the objective equals the MSE when WOB > 0.1 and is exactly 1000 above it otherwise |
| OptimizeMultiStart.MultiStartConstraints | src/optimize_for_mse_min/optimize_for_mse_min_multi_start.py:51-64 | two constraints exist exactly when 'WOB' and 'TORQUE' are among the mnemonics (`list.index` raises ValueError otherwise) |
| OptimizeMultiStart.MultiStartFeasible | src/optimize_for_mse_min/optimize_for_mse_min_multi_start.py:58-64 | a point satisfies the constraints exactly when WOB >= 1 and torque >= 5; Mu is not constrained |
| OptimizeMultiStart.Repeated | src/optimize_for_mse_min/optimize_for_mse_min_multi_start.py:107-111 | one solver result per iteration, every one from the same given starting point |
| OptimizeMultiStart.Trials | src/optimize_for_mse_min/optimize_for_mse_min_multi_start.py:75-120 | with an iteration, the missing exact names fail first with ValueError, then the missing lower-case names with IndexError; otherwise the percentile filter of the repeated results |
| OptimizeMultiStart.MonteCarloOptimization | src/optimize_for_mse_min/optimize_for_mse_min_multi_start.py:75-120 | with an iteration, the loop fails with the ValueError of `list.index` when 'WOB' or 'TORQUE' is not an exact mnemonic, then with IndexError when the objective finds no mnemonic lower-casing to wob, rpm, torque or mu; otherwise it collects one result per iteration from the given starting point, then applies the 10th-percentile filter |
| OptimizeMultiStart.RepeatedAllKept | src/optimize_for_mse_min/optimize_for_mse_min_multi_start.py:107-120 | with one starting point all results are equal, so the threshold is their value and every iteration is kept |
| OptimizeMultiStart.MultiStartOptimization | src/optimize_for_mse_min/optimize_for_mse_min_multi_start.py:123-133 | the loop over the starts draws a fresh starting point per start and appends that start's filtered pairs to the pool, stopping at the first failure, including the ValueError or IndexError of a start whose trials cannot look up their mnemonics |
| OptimizeMultiStart.PoolNeedsExactNames | src/optimize_for_mse_min/optimize_for_mse_min_multi_start.py:51-133 | with a start, an iteration and 'WOB' or 'TORQUE' missing, the multi-start run fails |
| OptimizeMultiStart.PoolNeedsLowerNames | src/optimize_for_mse_min/optimize_for_mse_min_multi_start.py:75-133 | with a start, an iteration and no mnemonic lower-casing to rpm or to mu, the multi-start run fails |
| OptimizeMultiStart.PoolSnoc | src/optimize_for_mse_min/optimize_for_mse_min_multi_start.py:126-131 | a successful pool is the pool of the earlier starts followed by the last start's repeated results |
| OptimizeMultiStart.PoolErrorPersists | src/optimize_for_mse_min/optimize_for_mse_min_multi_start.py:123-133 | once a start fails, the later starts do not change the outcome |
| OptimizeMultiStart.PoolStep | src/optimize_for_mse_min/optimize_for_mse_min_multi_start.py:126-131 | a successful pool comes from an iteration per start, both constraint names and all four objective names present, and is the pool of the earlier starts followed by all the repeated results of the last start |
| OptimizeMultiStart.PoolSize | src/optimize_for_mse_min/optimize_for_mse_min_multi_start.py:123-133 | a successful pool holds exactly number of starts times iterations pairs |
| OptimizeMultiStart.PoolMembers | src/optimize_for_mse_min/optimize_for_mse_min_multi_start.py:123-133 | every pooled pair is the solver's result from the starting point of one of the starts |
| OptimizeMultiStart.Summarise | src/optimize_for_mse_min/optimize_for_mse_min_multi_start.py:184-188 | the summary exists exactly when the pool is not empty, and its per-parameter minima and maxima and its MSE range enclose every pooled pair |
| OptimizeMultiStart.StorePooled | src/optimize_for_mse_min/optimize_for_mse_min_multi_start.py:181 | the pooled pairs are stored under int(cluster) and every other cluster's entry is kept |
| OptimizeMultiStart.PooledDoesNotCompose | src/optimize_for_mse_min/optimize_for_mse_min_multi_start.py:181-203 | what this file stores per cluster has no 'low_mses' field, so adding the MSE_min column fails on any frame with a row |
| OptimizeParameters.FindFrom | src/optimize_parameters/optimize_parameters.py:73 | the first position at or after j holding the key, or none exactly when no later entry holds it |
| OptimizeParameters.Find | src/optimize_parameters/optimize_parameters.py:73 | the first position of the key in the dict, or none exactly when it is absent |
| OptimizeParameters.Put | src/optimize_parameters/optimize_parameters.py:62-70 | setting an existing key keeps the length, a new key adds one entry |
| OptimizeParameters.SameLookup | src/optimize_parameters/optimize_parameters.py:73 | two dicts that agree wherever either holds the key answer `get` the same way |
| OptimizeParameters.PutSame | src/optimize_parameters/optimize_parameters.py:62-83 | after `d[key] = v`, `d.get(key)` is v |
| OptimizeParameters.PutOther | src/optimize_parameters/optimize_parameters.py:62-83 | `d[key] = v` leaves every other key's value as it was |
| OptimizeParameters.PutAllHolds | src/optimize_parameters/optimize_parameters.py:69 | after `update` with distinct keys each key holds its new value |
| OptimizeParameters.PutAllKeepsOthers | src/optimize_parameters/optimize_parameters.py:69 | `update` leaves the keys it does not name as they were |
| OptimizeParameters.RangeRule | src/optimize_parameters/optimize_parameters.py:31-32 | the sampling interval of a column is its cluster minimum and maximum, NaN when the cluster has no number there |
| OptimizeParameters.RockDraw | src/optimize_parameters/optimize_parameters.py:30-32 | a raw draw exists only when the mnemonic resolves to a column with a cluster range; a column with no number in the cluster gives NaN bounds, on which `np.random.uniform` raises OverflowError |
| OptimizeParameters.RockDrawWithin | src/optimize_parameters/optimize_parameters.py:30-32 | a raw draw lies between the cluster's minimum and maximum of its column |
| OptimizeParameters.Shares | src/optimize_parameters/optimize_parameters.py:34 | one share per raw draw |
| OptimizeParameters.RockDraws | src/optimize_parameters/optimize_parameters.py:29-32 | one raw draw per mnemonic, entry i from mnemonic i |
| OptimizeParameters.SampleRockComponents | src/optimize_parameters/optimize_parameters.py:17-34 | on success one normalised component per mnemonic |
| OptimizeParameters.SharesPrefix | src/optimize_parameters/optimize_parameters.py:33-34 | the shares of a prefix add up to 100 times that prefix's part of the total |
| OptimizeParameters.SharesSum | src/optimize_parameters/optimize_parameters.py:33-34 | scaling every draw by 100 over their total gives shares that add up to exactly 100 |
| OptimizeParameters.SampleRockSum | src/optimize_parameters/optimize_parameters.py:17-34 | the sampled rock components add up to exactly 100 |
| OptimizeParameters.SampleRockErrors | src/optimize_parameters/optimize_parameters.py:30 | a mnemonic that resolves to no column makes sampling fail (`[0]` raises IndexError) |
| OptimizeParameters.DrawParams | src/optimize_parameters/optimize_parameters.py:60-61 | one drawn value per entry of the bounds |
| OptimizeParameters.AssembleHoldsMu | src/optimize_parameters/optimize_parameters.py:62-70 | the assembled parameters hold the computed Mu under 'mu' and the label under 'cluster' |
| OptimizeParameters.AssembleHoldsRock | src/optimize_parameters/optimize_parameters.py:66-69 | the assembled parameters hold each rock component under its mnemonic |
| OptimizeParameters.Features | src/optimize_parameters/optimize_parameters.py:73-78 | the feature vector exists exactly when every lower-cased mnemonic is a key, and then holds their values in order; otherwise the loop breaks |
| OptimizeParameters.MseMinOf | src/optimize_parameters/optimize_parameters.py:88 | the cluster minimum of 'MSE_min (ksi)' exists exactly when the frame has that column and 'cluster' |
| OptimizeParameters.Rename | src/optimize_parameters/optimize_parameters.py:91-92 | renaming succeeds exactly when every parameter key resolves to a column |
| OptimizeParameters.RowOf | src/optimize_parameters/optimize_parameters.py:93-94 | one cell per result column, the renamed parameter's value where there is one and NaN elsewhere |
| OptimizeParameters.Judge | src/optimize_parameters/optimize_parameters.py:90-94 | a missing tolerance raises; a sample is accepted exactly when its MSE is at most MSE_min times one plus the tolerance, and its row has one cell per result column |
| OptimizeParameters.Score | src/optimize_parameters/optimize_parameters.py:83-94 | scoring needs 'wob', 'rpm' and 'torque' and the cluster's MSE_min, then judges the sample's MSE at the predicted ROP |
| OptimizeParameters.EvaluateAccepted | src/optimize_parameters/optimize_parameters.py:72-94 | the iteration breaks exactly when a feature is missing; an accepted sample had a tolerance, its predicted MSE passed the test, and its row fits the result columns |
| OptimizeParameters.NoToleranceNoAccept | src/optimize_parameters/optimize_parameters.py:37-90 | with the default tolerance None no sample is accepted or rejected: the test raises TypeError |
| OptimizeParameters.IterationOutcome | src/optimize_parameters/optimize_parameters.py:58-94 | an accepted iteration's row has one cell per result column |
| OptimizeParameters.SampledParamsHold | src/optimize_parameters/optimize_parameters.py:60-70 | Mu is always computed from the drawn WOB and torque, overriding any bound for 'mu'; the rock components are stored under their mnemonics and add up to 100 |
| OptimizeParameters.StepsOf | src/optimize_parameters/optimize_parameters.py:58 | one outcome per iteration, in order |
| OptimizeParameters.GatherAccepted | src/optimize_parameters/optimize_parameters.py:58-94 | every gathered row is the row of an accepted iteration, so a cluster yields at most one row per iteration |
| OptimizeParameters.GatherStops | src/optimize_parameters/optimize_parameters.py:75-78 | the `break` ends the cluster: nothing after the first missing-feature iteration contributes |
| OptimizeParameters.AllRowsAccepted | src/optimize_parameters/optimize_parameters.py:56-94 | every result row is the accepted row of an iteration of one of the clusters, and there are at most as many rows as iterations |
| OptimizeParameters.Labels | src/optimize_parameters/optimize_parameters.py:56 | the cluster labels exist exactly when the frame has a 'cluster' column |
| OptimizeParameters.RunAccepted | src/optimize_parameters/optimize_parameters.py:58-94 | an accepted iteration comes from sampled parameters whose evaluation accepted the sample |
| OptimizeParameters.AcceptedRow | src/optimize_parameters/optimize_parameters.py:90-94 | an accepted row has one cell per result column, and acceptance needs a tolerance |
| OptimizeParameters.MonteCarloResult | src/optimize_parameters/optimize_parameters.py:37-96 | the result frame has the feature columns then 'ROP (m/h)', 'MSE (ksi)', 'MSE_min (ksi)', 'cluster', every row fits them, there are at most as many rows as iterations, and none without a tolerance |
| OptimizeParameters.ClusterLoop | src/optimize_parameters/optimize_parameters.py:58-94 | the inner loop, with its `break`, gathers the accepted rows of one cluster |
| OptimizeParameters.ClustersLoop | src/optimize_parameters/optimize_parameters.py:56-94 | the outer loop gathers the rows of the clusters in order |
| OptimizeParameters.MonteCarloOptimization | src/optimize_parameters/optimize_parameters.py:37-96 | both loops together compute the result frame of the specification |
| CleanDf.Locate | src/data_wrangle/clean_df.py:21-24 | selecting the listed columns succeeds exactly when each is a column of the frame (KeyError otherwise), giving each one's first position |
| CleanDf.ToNumeric | src/data_wrangle/clean_df.py:24 | coercion leaves numbers and NaN alone and turns a text into a number exactly when it spells one, NaN otherwise |
| CleanDf.DropNonPositive | src/data_wrangle/clean_df.py:27 | a cell stays a number exactly when it is a number above zero; zero, negatives and NaN become NaN |
| CleanDf.MapAt | src/data_wrangle/clean_df.py:24-27 | the listed positions of a row are transformed and every other cell is unchanged |
| CleanDf.CleanRow | src/data_wrangle/clean_df.py:24-27 | the listed cells are coerced and non-positive ones replaced, the other cells untouched |
| CleanDf.CleanRows | src/data_wrangle/clean_df.py:20-30 | the four steps never add rows |
| CleanDf.CleanRowsFilterThenClean | src/data_wrangle/clean_df.py:20-30 | the pipeline is one filter on the original rows followed by cleaning each kept row |
| CleanDf.KeepsIff | src/data_wrangle/clean_df.py:20-30 | a row survives exactly when at least one column is listed and every listed cell reads as a number above zero |
| CleanDf.CleanRowsSubsequence | src/data_wrangle/clean_df.py:20-30 | the surviving rows keep their original order |
| CleanDf.CleanRowsFixed | src/data_wrangle/clean_df.py:20-30 | rows whose listed cells are already positive numbers pass unchanged |
| CleanDf.WithBitDiameter | src/data_wrangle/clean_df.py:33 | an existing 'BIT_DIAMETER (in)' column leaves the frame as it is; a missing one is appended and filled with the default on every row |
| CleanDf.Clean | src/data_wrangle/clean_df.py:6-35 | cleaning succeeds exactly when every listed column exists; the result has the bit-diameter column and no more rows than the input |
| CleanDf.LocateAppend | src/data_wrangle/clean_df.py:33 | appending the bit-diameter column does not move the listed columns |
| CleanDf.CleanedPositive | src/data_wrangle/clean_df.py:20-30 | every surviving row holds a positive number in every listed column |
| CleanDf.CleanRowsNoColumns | src/data_wrangle/clean_df.py:21 | with no listed column every row counts as all-zero, so none survives |
| CleanDf.BitDiameterKeepsPositive | src/data_wrangle/clean_df.py:33 | adding the bit diameter leaves the listed cells where they were |
| CleanDf.CleanedRowsFixed | src/data_wrangle/clean_df.py:6-35 | the rows of a cleaned frame pass a second cleaning unchanged |
| CleanDf.CleanIdempotent | src/data_wrangle/clean_df.py:6-35 | cleaning a cleaned frame gives the same frame |
| CleanDf.CleanByMnemonics | src/data_wrangle/clean_df.py:38-63 | cleaning by mnemonics always succeeds and is cleaning of the columns the mnemonics resolve to |
| CleanDf.Numbers | src/data_wrangle/clean_df.py:89-90 | the numbers of a column, NaN skipped: exactly the values of its numeric cells |
| CleanDf.Fence | src/data_wrangle/clean_df.py:89-92 | the interquartile fence exists exactly when the column holds a number |
| CleanDf.CellsAt | src/data_wrangle/clean_df.py:89 | one cell of the column per row |
| CleanDf.FencePass | src/data_wrangle/clean_df.py:88-92 | one pass keeps rows of its input in order, each numeric in the column |
| CleanDf.FencePassKeeps | src/data_wrangle/clean_df.py:89-92 | a row survives a pass exactly when its cell lies inside [Q1 - 1.5 IQR, Q3 + 1.5 IQR] of the column; a column without numbers keeps no row |
| CleanDf.FencePasses | src/data_wrangle/clean_df.py:88-92 | the passes in order keep rows of the input in order, each numeric in every listed column |
| CleanDf.NumericAfterPasses | src/data_wrangle/clean_df.py:88-92 | the first pass's column and the later passes' columns together cover every listed column |
| CleanDf.Coerce | src/data_wrangle/clean_df.py:86 | coercion keeps the columns and the number of rows |
| CleanDf.OutlierInput | src/data_wrangle/clean_df.py:82-86 | the input of the passes exists exactly when every listed column exists |
| CleanDf.RemoveOutliers | src/data_wrangle/clean_df.py:66-94 | the loop rebinding the frame after each column's pass computes the specified result |
| CleanDf.RemoveOutliersKeeps | src/data_wrangle/clean_df.py:66-94 | the result keeps the columns, keeps rows of its input in order, and every kept row holds a number in every listed column |
| CleanDf.RemoveOutliersByMnemonics | src/data_wrangle/clean_df.py:97-118 | by mnemonics no listed column is ever missing, so removal always succeeds |
| DataWrangling.ReplaceNull | data_wrangling.py:6 | after replacement no cell is the number -999.25; that number becomes NaN and every other cell, text included, is unchanged |
| DataWrangling.ReplaceNullRow | data_wrangling.py:6 | every cell of the row is replaced independently |
| DataWrangling.CoerceAt | data_wrangling.py:7-8 | coercing some positions keeps the row's length |
| DataWrangling.PresentAfterReplace | data_wrangling.py:6 | after the replacement a listed cell survives `dropna` exactly when it was neither NaN nor -999.25 |
| DataWrangling.CleanSpec | data_wrangling.py:5-9 | cleaning succeeds exactly when every listed column exists (KeyError otherwise) |
| DataWrangling.CoerceAtGrows | data_wrangling.py:7-8 | coercing one more column after the earlier ones is coercing them all at once |
| DataWrangling.CoerceColumns | data_wrangling.py:7-8 | the loop coerces the listed columns of every kept row |
| DataWrangling.Clean | data_wrangling.py:5-9 | the replace, the drop and the coercion loop compute the specified result |
| DataWrangling.CleanKeeps | data_wrangling.py:5-9 | a row none of whose listed cells is NaN or -999.25 is kept, replaced and coerced, and every result row comes from such a row |
| DataWrangling.UnparsableTextSurvives | data_wrangling.py:6-8 | the drop comes before the coercion, so a listed text that does not read as a number survives and is NaN in the result |
| DataWrangling.OutliersSpec | data_wrangling.py:14-20 | a successful removal keeps rows of the input in order and needs every named column |
| DataWrangling.RemoveOutliers | data_wrangling.py:14-20 | the loop rebinding the frame after each column computes the specified result and keeps the columns |
| DataWrangling.RemoveOutliersNumeric | data_wrangling.py:14-20 | every surviving row holds a number in every column it was fenced on |
| DataWrangling.ProjectNumeric | data_wrangling.py:26-29 | one cell per selected column, each coerced, none left as text |
| DataWrangling.PlotRows | data_wrangling.py:29 | no more rows than the input, each holding a number in every selected column |
| DataWrangling.PrepareForPlotting | data_wrangling.py:23-36 | the result holds each requested column once, at least one row, only numbers, and no more rows than the input |
| DataWrangling.PlottingFailsOnlyWhenEmpty | data_wrangling.py:23-36 | with every column present the call fails exactly when no row has a number in all of them or no column was asked for (`st` is not imported, so the warning raises NameError) |
| FileHandling.Occurrences | src/file_handle/file_handling.py:152 | a `Counter` entry never exceeds the length of the list |
| FileHandling.OccurrencesPositive | src/file_handle/file_handling.py:152-156 | a name is counted exactly when it is in the header |
| FileHandling.UniqueHeader | src/file_handle/file_handling.py:150-161 | the renamed header has one name per column |
| FileHandling.UniqueHeaderRenames | src/file_handle/file_handling.py:155-160 | a name that occurs once is kept; the copies of a repeated name become `name_k` with k their copy number |
| FileHandling.CountNames | src/file_handle/file_handling.py:152 | the counting loop gives every name its number of occurrences, zero for absent names |
| FileHandling.GenerateUniqueHeader | src/file_handle/file_handling.py:150-161 | the loop with its seen-counts computes the renamed header |
| FileHandling.OccurrencesStep | src/file_handle/file_handling.py:157 | counting one more name adds one to its count and nothing to the others |
| FileHandling.OccurrencesGrow | src/file_handle/file_handling.py:157 | the count of a name can only grow along the header |
| FileHandling.RankBounds | src/file_handle/file_handling.py:157-158 | each copy of a repeated name is numbered between 1 and its count |
| FileHandling.RankIncreases | src/file_handle/file_handling.py:157-158 | a later copy of the same name gets a larger number |
| FileHandling.RankAttained | src/file_handle/file_handling.py:157-158 | every number from 1 to a name's count is used by some copy |
| FileHandling.TwoCopies | src/file_handle/file_handling.py:156 | two positions with the same name make it repeated |
| FileHandling.PairDistinct | src/file_handle/file_handling.py:155-160 | without a clash any two renamed positions differ |
| FileHandling.UniqueIffNoClash | src/file_handle/file_handling.py:150-161 | the renamed header is free of duplicates exactly when no single name already reads `name_k` for a repeated name and a k up to its count |
| FileHandling.CollisionExample | src/file_handle/file_handling.py:150-161 | `["a", "a", "a_1"]` is renamed with `a_1` twice, so the result is not always unique |
| FileHandling.Basename | src/file_handle/file_handling.py:140-143 | the basename holds no '/', ends the path and follows its last '/' |
| FileHandling.LastDot | src/file_handle/file_handling.py:140-143 | the last '.' of a name, absent exactly when the name has none |
| FileHandling.StripExtension | src/file_handle/file_handling.py:140-143 | `splitext` cuts a prefix at the last '.', unless only dots precede it |
| FileHandling.BaseFilename | src/file_handle/file_handling.py:135-147 | a source with no name gives "unknown_file"; the result never holds '/' |
| FileHandling.NameStem | src/file_handle/file_handling.py:140-143 | the stem of a path holds no '/' |
| FileHandling.BasenameAfterSlash | src/file_handle/file_handling.py:140 | the basename of `dir/name` is `name` |
| FileHandling.LastDotBefore | src/file_handle/file_handling.py:140 | the last dot of `a.b` with no dot in b is at the length of a |
| FileHandling.StemOfPath | src/file_handle/file_handling.py:135-147 | `dir/stem.ext` gives `stem` whatever the directory |
| FileHandling.CombinedHeader | src/file_handle/file_handling.py:182-184 | one combined name per column, each containing the '__' separator |
| FileHandling.WellIsNew | src/file_handle/file_handling.py:184-194 | no combined name is "well", so the well column is always appended, never overwritten |
| FileHandling.TagWell | src/file_handle/file_handling.py:194-196 | a constant well-name column is appended to every row |
| FileHandling.SetHeader | src/file_handle/file_handling.py:165-198 | fails with the two-row ValueError exactly when there are fewer than two rows; otherwise the columns are the unique combined header plus 'well', the first two rows are dropped and the rest carry the base file name |
| FileHandling.Delimiting | src/file_handle/file_handling.py:52-96 | at least one read per encoding: the four delimiters for csv and txt, one plain read for Excel |
| FileHandling.Step | src/file_handle/file_handling.py:59-123 | an attempt ends the search exactly when it parses to a non-empty frame of at least two rows, and then succeeds; otherwise an exception is remembered (a short frame's ValueError is caught by the loop itself) |
| FileHandling.TryDelimiters | src/file_handle/file_handling.py:53-90 | after a non-empty unsuccessful pass over the delimiters an exception is remembered |
| FileHandling.TryEncodings | src/file_handle/file_handling.py:46-123 | after a non-empty unsuccessful pass over the encodings an exception is remembered |
| FileHandling.ReadSpec | src/file_handle/file_handling.py:35-38 | an unknown file type is rejected with the ValueError listing csv, excel and txt, before anything is read |
| FileHandling.ReadFile | src/file_handle/file_handling.py:8-132 | the loops over encodings and delimiters compute the specified result |
| FileHandling.TryEncoding | src/file_handle/file_handling.py:52-123 | the body of the encoding loop is the pass over that file type's delimiters |
| FileHandling.FirstGood | src/file_handle/file_handling.py:63-105 | the first acceptable parse, present exactly when some attempt is acceptable, and with at least two rows |
| FileHandling.Tries | src/file_handle/file_handling.py:53-59 | one reader answer per delimiter |
| FileHandling.FirstGoodAppend | src/file_handle/file_handling.py:46-123 | the first acceptable parse of two runs of attempts is the first run's if it has one, else the second's |
| FileHandling.DelimitersTakeFirstGood | src/file_handle/file_handling.py:53-90 | the delimiter loop returns exactly when some delimiter parses acceptably, and returns the first such parse with its header set |
| FileHandling.EncodingsTakeFirstGood | src/file_handle/file_handling.py:46-123 | the encoding loop returns exactly when some pair parses acceptably, and returns the first such parse with its header set |
| FileHandling.ReadTakesFirstGood | src/file_handle/file_handling.py:8-132 | for a supported type `read_file` succeeds exactly when some encoding and delimiter, in the order tried, parses acceptably, returns the first such parse with its header set, and otherwise raises the last exception, never the generic fallback |
| LegacyFileHandling.StrippedRow | file_handling.py:142 | `.str.strip()` on a header row fails with AttributeError exactly when the row has a number and no text; otherwise text cells are stripped and every other cell becomes NaN |
| LegacyFileHandling.LegacyCombined | file_handling.py:142 | one combined name per column, text exactly when both header cells are text, then the two stripped parts joined by '__'; NaN otherwise; the `.str` error of either row otherwise |
| LegacyFileHandling.CountPositive | file_handling.py:143 | `list.count` of a name is positive exactly when the name occurs |
| LegacyFileHandling.First | file_handling.py:144 | `list.index` gives the position of the first copy of the name |
| LegacyFileHandling.LegacyName | file_handling.py:143-144 | a name is refused exactly when it is a repeated NaN, and then with TypeError; NaN names stay NaN and text names stay text |
| LegacyFileHandling.LegacyHeader | file_handling.py:143-144 | the renamed header has one name per column, NaN exactly where the combined one had NaN; its only error is TypeError |
| LegacyFileHandling.LegacyHeaderFails | file_handling.py:143-144 | the renaming fails exactly when NaN occurs at least twice in the combined header |
| LegacyFileHandling.LegacyHeaderKeepsDuplicates | file_handling.py:143-144 | every copy of a name gets the same new name, because each is numbered by the index of the first copy |
| LegacyFileHandling.OccursOnce | file_handling.py:143 | in a header without repeats every name's count is 1 |
| LegacyFileHandling.LegacyDistinctIff | file_handling.py:143-144 | a renamed header has repeats exactly when the combined one had: the rule does not make names unique |
| LegacyFileHandling.LegacyTwoCopies | file_handling.py:143-144 | two copies of any name `x` both become `x_0` |
| LegacyFileHandling.LegacyVersusNewer | file_handling.py:143-144 | two copies of `a` both become `a_0` here, where the newer reader gives `a_1` and `a_2` |
| LegacyFileHandling.LegacyNanNames | file_handling.py:142-144 | a single NaN name is kept, while two NaN names (two columns with a blank header cell) make the renaming raise TypeError |
| LegacyFileHandling.WellName | file_handling.py:148-151 | a source with neither a path nor a name has no well name |
| LegacyFileHandling.SecondToLast | file_handling.py:149 | `[-2]` exists exactly when there are at least two pieces |
| LegacyFileHandling.WellNameKeepsDirectory | file_handling.py:149 | a path with one dot gives everything before it, directory included |
| LegacyFileHandling.WellNameNeedsDot | file_handling.py:149 | a path without a dot has no well name (IndexError) |
| LegacyFileHandling.LegacyWellIsNew | file_handling.py:142-152 | no renamed name is "well" (every text name contains '_' and NaN is not text), so the well column is always appended |
| LegacyFileHandling.Tagged | file_handling.py:145-152 | the columns are the renamed header plus 'well', which occurs nowhere else, the first two rows are dropped and every remaining row gains the well name |
| LegacyFileHandling.LegacySetHeader | file_handling.py:140-154 | the header expression is evaluated left to right: no row fails on `iloc[0]`; a first row without text fails on `.str`; a single row then fails on `iloc[1]`; a second row without text fails on `.str`; a repeated NaN name fails on the renaming, and a failing well-name lookup with its error; otherwise the columns are the renamed header plus a new 'well', the first two rows are dropped and the rest carry the well name |
| LegacyFileHandling.LegacyNumberRow | file_handling.py:142 | a first row of numbers without text fails with AttributeError before anything else is looked at, even when there is no second row |
| LegacyFileHandling.LegacyStep | file_handling.py:120-129 | after an attempt that does not return, a UnicodeDecodeError or an EmptyDataError is remembered |
| LegacyFileHandling.LegacyDelimiters | file_handling.py:119-129 | after a non-empty pass over the delimiters that does not return, an exception is remembered |
| LegacyFileHandling.LegacyReadSpec | file_handling.py:101-136 | an unknown file type fails with KeyError on the lookup of its reader |
| LegacyFileHandling.LegacyReadFile | file_handling.py:101-136 | the loops, cut short where the first encoding always raises, compute the specified result |
| LegacyFileHandling.DelimitersOnlyRead | file_handling.py:119-129 | the delimiter loop under one encoding depends only on that encoding's reads |
| LegacyFileHandling.OnlyFirstEncoding | file_handling.py:118-136 | the encodings after utf-8 are never tried: two readers that agree under utf-8 give the same outcome |
| LoadFile.Dispatch | src/file_handle/load_file.py:20-29 | no reader is chosen exactly when the name ends in none of .csv, .xlsx, .xls, .txt; the CSV reader exactly when it ends in .csv |
| LoadFile.DispatchBySuffix | src/file_handle/load_file.py:20-26 | each supported extension selects its reader whatever precedes it |
| LoadFile.UpperCaseExtensionUnsupported | src/file_handle/load_file.py:20-29 | the suffix test is case-sensitive: "data.CSV" and "log.TXT" are unsupported |
| LoadFile.LoadFileIntoDataframe | src/file_handle/load_file.py:5-40 | an unsupported name gives None; a result is either the first read's data or, after a decoding failure, the latin1 CSV read's data |
| LoadFile.UnsupportedNeverRead | src/file_handle/load_file.py:27-29 | an unsupported name is refused before any read, whatever the readers do |
| LoadFile.FirstReadWins | src/file_handle/load_file.py:19-40 | a first read that succeeds is the result and the retry is never consulted |
| LoadFile.DecodeErrorRetriesCsv | src/file_handle/load_file.py:30-35 | after a decoding failure the outcome is the latin1 CSV read, for every extension, and None when that read fails too |
| LoadFile.MergeHeaders | src/file_handle/load_file.py:61-62 | one merged name per column |
| LoadFile.MergedAt | src/file_handle/load_file.py:53-62 | entry k merges the stripped header and unit of column k as "header (unit)" |
| LoadFile.MergedHeader | src/file_handle/load_file.py:61-62 | without '(' in the header the header part of a merged name is the stripped header |
| LoadFile.MergedUnit | src/file_handle/load_file.py:61-62 | without parentheses in the unit the unit part of a merged name is the stripped unit |
| LoadFile.MergedRoundTrip | src/file_handle/load_file.py:53-62 | splitting a merged name as the save path does gives back the stripped header and unit, and stripped ones exactly |
| LoadFile.MergeThenSplit | src/file_handle/load_file.py:43-65 | over a whole file, merging on load and splitting on save give back every stripped header and unit in column order |
| LoadFile.LoadFileAndMergeHeaders | src/file_handle/load_file.py:43-65 | succeeds exactly when the file loaded (`data.head()` fails on None); the rows are kept and column k is named "header (unit)" from column k |
| SaveFile.Headers | src/file_handle/save_file.py:125-127 | one header part per column |
| SaveFile.HeaderAt | src/file_handle/save_file.py:127 | the header part of column k is the stripped text before its first "(" |
| SaveFile.LastIndex | src/file_handle/save_file.py:123-131 | a position holding the name |
| SaveFile.LastIndexIsLast | src/file_handle/save_file.py:123-131 | no later position holds the name |
| SaveFile.LastIndexAppend | src/file_handle/save_file.py:131 | appending a name moves its last position to the end and leaves every other name's |
| SaveFile.Units | src/file_handle/save_file.py:134-144 | one unit per column |
| SaveFile.UnitAt | src/file_handle/save_file.py:137-141 | the unit of column k is the stripped text after its last "(" up to the next ")", and "" unless both parentheses occur |
| SaveFile.Source | src/file_handle/save_file.py:122-136 | the source of an output column is a column with that header part |
| SaveFile.DataRows | src/file_handle/save_file.py:125-129 | one data row per input row, with one cell per distinct header part |
| SaveFile.UnitsRow | src/file_handle/save_file.py:134-144 | one unit per distinct header part |
| SaveFile.PlaceUnits | src/file_handle/save_file.py:149-162 | the units become the row labelled 0: prepended with label 0 when no row has that label, otherwise written over it; the columns are kept |
| SaveFile.UnmergeSpec | src/file_handle/save_file.py:107-175 | the output has one column per distinct header part in first-appearance order, a row labelled 0 and the units row among its rows |
| SaveFile.Kept | src/file_handle/save_file.py:119-129 | the rows the loop copies: all of them, or none when there is no column |
| SaveFile.KeptLabels | src/file_handle/save_file.py:119-129 | one label per copied row |
| SaveFile.Unmerged | src/file_handle/save_file.py:125-129 | the frame built from a list of header parts has one column per distinct part and one row per input row |
| SaveFile.Values | src/file_handle/save_file.py:129 | `df[column]`: the column's cell of every row |
| SaveFile.EmptyRows | src/file_handle/save_file.py:119-129 | rows without cells, one per index label |
| SaveFile.UnmergedEmpty | src/file_handle/save_file.py:119 | before the loop the new frame has no column |
| SaveFile.UniqueSnoc | src/file_handle/save_file.py:129 | assigning a new header part appends a column, an existing one stays in place |
| SaveFile.UnmergedAt | src/file_handle/save_file.py:125-129 | each output cell is the row's cell in the last source column with that header part |
| SaveFile.UnmergedSnocCell | src/file_handle/save_file.py:129 | one assignment gives each cell of the frame built from one more column |
| SaveFile.UnmergedSnocRow | src/file_handle/save_file.py:129 | one assignment gives each row of the frame built from one more column |
| SaveFile.UnmergedSnoc | src/file_handle/save_file.py:129 | `new_df[header] = df[column]` turns the frame built from the first columns into the one built from one more |
| SaveFile.OriginalsLast | src/file_handle/save_file.py:123-131 | a header part is in the map exactly when it was seen, and maps to the last column carrying it |
| SaveFile.OriginalUnits | src/file_handle/save_file.py:134-144 | every output column's remembered source name is in the map and yields the unit of its source |
| SaveFile.CollectColumns | src/file_handle/save_file.py:119-131 | the column loop builds the unmerged frame in place and the map from header part to last source name |
| SaveFile.ColumnStep | src/file_handle/save_file.py:127-129 | writing column j under its header part extends the frame built from the first j columns to the first j + 1 |
| SaveFile.WriteColumn | src/file_handle/save_file.py:127-131 | one pass of the loop writes the column in place and records it in the map |
| SaveFile.CollectUnits | src/file_handle/save_file.py:134-144 | the units loop gives, per output column, the unit of its remembered source name |
| SaveFile.PlaceUnitsRow | src/file_handle/save_file.py:149-162 | the units row is placed in the table in place as the specification says |
| SaveFile.Unmerge | src/file_handle/save_file.py:107-162 | the column loop, the units loop and the row-0 placement compute the specified result |
| SaveFile.UnmergeAlreadySorted | src/file_handle/save_file.py:155-162 | for an increasing index of non-negative labels the result is already in index order, so `sort_index` moves nothing |
| SaveFile.LastDuplicateWins | src/file_handle/save_file.py:120-144 | with duplicated header parts the data and the unit of an output column come from the last source column carrying it |
| Headers.Assign | src/file_handle/headers.py:16 | `patterns[key] = value` on an insertion-ordered dict: the pair is present, other keys keep their place and value, and a new key adds one entry |
| Headers.AssignTwice | src/file_handle/headers.py:16 | assigning the same key twice keeps only the second value |
| Headers.PatternTable.constructor | src/file_handle/headers.py:13 | the shared table starts as the configured header patterns |
| Headers.PatternTable.Set | src/file_handle/headers.py:16 | setting a pattern updates the shared table in place |
| Headers.PatternHitFrom | src/file_handle/headers.py:18-20 | the first entry at or after j whose pattern is set, non-empty and matches, with no earlier such entry; none exactly when none matches |
| Headers.AnalyzeRpmContext | src/file_handle/headers.py:46-68 | both surface and motor RPM columns give "BIT_RPM (rpm)", surface alone "SURFACE_RPM (rpm)", motor alone "MOTOR_RPM (rpm)", neither "RPM__unidentified (rpm)" |
| Headers.RpmContextIgnoresValues | src/file_handle/headers.py:46-68 | the decision depends only on the names of the RPM columns, not on the mnemonic, the unit or the averages |
| Headers.AnalyzeContext | src/file_handle/headers.py:29-43 | a name already marked unidentified is kept with its unit; one containing "TEMP" becomes "TEMPERATURE (C)" when the unit contains c in any case and "TEMPERATURE (F)" otherwise; any other is marked unidentified |
| Headers.AnalyzeContextIdempotent | src/file_handle/headers.py:29-43 | analysing the parts of an analysed name again gives the same name: no second "__unidentified" and no change of scale |
| Headers.MapSpec | src/file_handle/headers.py:18-26 | the first matching pattern's mnemonic with the unit; else the RPM rule for a mnemonic containing RPM in any case; else the context rule |
| Headers.UnmatchedIsMarked | src/file_handle/headers.py:18-43 | a mnemonic no pattern matches and without RPM comes back marked unidentified or as a temperature, never bare |
| Headers.MapMnemonic | src/file_handle/headers.py:7-26 | the shared table gets the VOLUME pattern of this unit, then the mnemonic is mapped by the updated table |
| Headers.SplitColumn | src/file_handle/headers.py:96-98 | a name without " (" has no unit; a unit containing "Unnamed" is dropped; with " (" the mnemonic is a proper prefix |
| Headers.RpmValues | src/file_handle/headers.py:90-91 | fails with TypeError exactly when a column whose mnemonic part contains RPM in any case holds a text cell; otherwise the averaged columns are exactly those |
| Headers.StandardNames | src/file_handle/headers.py:94-99 | one new name per column |
| Headers.StandardNameAt | src/file_handle/headers.py:95-99 | new name k is the mapping of column k, with the VOLUME pattern of its own unit |
| Headers.MapAll | src/file_handle/headers.py:94-99 | the renaming loop gives each column its standard name and leaves the shared table holding the last column's VOLUME pattern |
| Headers.StandardizeMnemonics | src/file_handle/headers.py:85-102 | fails with the TypeError of the RPM mean, before any renaming, exactly when an RPM column holds text, leaving the frame and the table unchanged; otherwise every column is renamed in order and the cells are untouched, and the shared table keeps the last column's VOLUME pattern |
| Units.FirstAccepting | src/file_handle/units.py:13-15 | the first pattern at or after j that accepts the unit, with none before it; none exactly when no later pattern accepts it |
| Units.MapUnitIn | src/file_handle/units.py:6-18 | the standard unit of the first accepting pattern in table order, or the unit itself when none accepts it |
| Units.MapUnitFirstMatch | src/file_handle/units.py:6-18 | the result is the unit itself or the standard unit of an accepting pattern with no earlier accepting one, and the unit itself when nothing accepts it |
| Units.MapUnitIgnoresCase | src/file_handle/units.py:14 | matching ignores case: two spellings with the same lower-case form map alike |
| Units.FirstAcceptingIgnoresCase | src/file_handle/units.py:14 | the first accepting pattern is the same for two spellings with the same lower-case form |
| Units.FahrenheitLetterIsFeet | src/file_handle/units.py:13-15 | "f" and "F" are accepted by both the feet and the Fahrenheit pattern, and feet comes first, so both map to "ft"; "c" and "C" map to "C" |
| Units.CelsiusIsC | src/file_handle/units.py:6-18 | any spelling whose lower-case form is "c" maps to "C" |
| Units.LowerKeyed | src/file_handle/units.py:28-29 | the keys of the lowered table are exactly the lower-cased source units |
| Units.SplitName | src/file_handle/units.py:32-33 | the split succeeds exactly when the name splits on " (" into exactly two parts (the unpacking raises otherwise), and the unit loses its trailing ")" |
| Units.Plan | src/file_handle/units.py:32-42 | a column fails exactly when its name does not split; it is converted exactly when its unit's key is in the table, with that entry's converter and the name "mnemonic (new unit)" |
| Units.FirstUnsplittable | src/file_handle/units.py:31-32 | the first column whose name does not split, every earlier one splitting |
| Units.FirstFailing | src/file_handle/units.py:31-32 | the first column the plan cannot handle, every earlier one handled |
| Units.FailingIsUnsplittable | src/file_handle/units.py:31-42 | the plan of a conversion table fails exactly where a name does not split |
| Units.StandardizedUpTo | src/file_handle/units.py:31-42 | standardising the first k columns keeps the column count and the row count |
| Units.StandardizedNone | src/file_handle/units.py:31 | before any column is visited the frame is unchanged |
| Units.StandardizedAt | src/file_handle/units.py:38-42 | a visited column holds its new name and its new cells |
| Units.StandardizedBy | src/file_handle/units.py:21-44 | the standardised frame is well formed |
| Units.Standardized | src/file_handle/units.py:21-44 | the standardised frame is well formed |
| Units.StandardizedColumns | src/file_handle/units.py:28-42 | column count and order are kept; a column whose unit has no conversion keeps its name and cells; a converted column has every cell converted and is renamed "mnemonic (new unit)" |
| Units.UnsplittableStops | src/file_handle/units.py:31-32 | from the first name that does not split on, every column is untouched |
| Units.StandardizedStep | src/file_handle/units.py:41-42 | one conversion step writes the column's cells, then its name |
| Units.StandardizedKeep | src/file_handle/units.py:38 | a column without a conversion leaves the frame as it was |
| Units.LowerKeyedAt | src/file_handle/units.py:28-29 | an entry whose lower-cased source unit no other entry shares is what the lowered table holds under that key |
| Units.ConfiguredLookups | src/file_handle/units.py:28-29 | the configured table keys "c" to Celsius-to-Fahrenheit with "F" and "ft" to feet-to-meters with "m" |
| Units.SplitT | src/file_handle/units.py:32-33 | "T (C)" and "T (F)" split into "T" and their unit |
| Units.CelsiusPlanned | src/file_handle/units.py:32-42 | a "T (C)" column is converted Celsius to Fahrenheit and renamed "T (F)" |
| Units.FahrenheitPlanned | src/file_handle/units.py:32-42 | a "T (F)" column is read as feet, converted by 0.3048 and renamed "T (m)", so standardising twice converts a Celsius column twice |
| Units.PlanConverts | src/file_handle/units.py:32-42 | a name that splits with a unit whose key the table holds is planned with that entry's converter and new name |
| Units.TemperatureKeys | src/file_handle/units.py:36 | "C" is looked up under "c" and "F" under "ft" |
| Units.StandardizeWith | src/file_handle/units.py:31-42 | the loop visits the columns in order, converts and renames in place, and stops with an error at the first column the plan cannot handle |
| Units.StandardizeUnits | src/file_handle/units.py:21-44 | in place, the frame becomes the standardised frame; an error is reported exactly when some name does not split |
| UnitsConfig.ToFloat | src/file_handle/units_config.py:42 | `float(value)` keeps a number and gives nothing for a missing cell |
| UnitsConfig.SafeConvert | src/file_handle/units_config.py:40-47 | a value converts exactly when `float()` accepts it, and then to the converter applied to that number; otherwise None |
| UnitsConfig.ConvertCell | src/file_handle/units_config.py:40-47 | the converted cell is a number exactly when the value reads as one, and missing otherwise |
| UnitsConfig.RejectedIsNone | src/file_handle/units_config.py:44-47 | a value `float()` rejects converts to None under every converter |
| UnitsConfig.CelsiusToFahrenheitValues | src/file_handle/units_config.py:115-117 | Celsius to Fahrenheit is x * 1.8 + 32: 0 gives 32, 100 gives 212, -40 gives -40 |
| UnitsConfig.LpsIsSixtyLpm | src/file_handle/units_config.py:120-127 | the liters-per-second factor is sixty times the liters-per-minute factor |
| UnitsConfig.M3IsThousandLiters | src/file_handle/units_config.py:95-102 | the cubic-meter factor is a thousand times the liter factor |
| UnitsConfig.ConvertersArePositiveScales | src/file_handle/units_config.py:50-155 | every converter of the table except Celsius-to-Fahrenheit multiplies by a positive factor |
| UnitsConfig.PositiveScaleKeepsOrder | src/file_handle/units_config.py:50-132 | a positive scale maps 0 to 0 and keeps the strict order of values |
| UnitsConfig.CelsiusKeepsOrder | src/file_handle/units_config.py:115-117 | Celsius to Fahrenheit keeps the strict order of values but moves 0 |
| UnitsConfig.LoweredKeys | src/file_handle/units_config.py:136-155 | one lower-cased key per table entry |
| UnitsConfig.LoweredSourceUnits | src/file_handle/units_config.py:136-155 | the lower-cased source units of the table, spelled out in order |
| UnitsConfig.SourcesDistinct | src/file_handle/units_config.py:136-155 | no two source units of the table share a lower-cased form, so lower-casing the keys in `standardize_units` drops no entry |
| UnitsConfig.TargetUnits | src/file_handle/units_config.py:136-155 | every target unit, and its lower-cased form, is one of m, klbs, m/h, kLbf.ft, psi, gal, gpm, F, ppg |
| UnitsConfig.TargetsAreNotSources | src/file_handle/units_config.py:136-155 | no target unit is itself a lower-cased source unit, so the table's own keys never convert a converted column again |
| Features.NewFeature | src/feature_registry/features.py:10-16 | the constructor stores each argument in its field and the clock's ISO text as the creation time |
| Features.Execute | src/feature_registry/features.py:18-20 | the base feature cannot execute: every call raises NotImplementedError |
| Features.ToDict | src/feature_registry/features.py:22-28 | the dict form has exactly the keys name, type, description and parameters, holding the feature's fields; creation time and activation are not part of it |
| Features.FromDict | src/feature_registry/features.py:30-37 | rebuilding succeeds exactly when the four keys are present (KeyError otherwise); the rebuilt feature is not activated and is created now |
| Features.ToDictFromDict | src/feature_registry/features.py:22-37 | rebuilding from the dict form keeps the four fields and resets activation and creation time |
| Features.FromDictToDict | src/feature_registry/features.py:22-37 | a feature rebuilt from a dict gives back that dict's four entries |
| Features.Attributes | src/feature_registry/features.py:10-16 | the instance dictionary holds the four dict keys plus created_at and activated |
| Features.AsObject | src/feature_registry/features.py:9-16 | a feature as an object is of class Feature with its instance dictionary |
| Features.FromKeywords | src/feature_registry/features.py:10 | `Feature(**kwargs)` succeeds exactly when the four required keywords are given and no unknown one (TypeError otherwise); activated defaults to False and the four fields come from the keywords |
| Features.ToDictKeywords | src/feature_registry/features.py:10-28 | the dict form is accepted by the constructor and rebuilds the feature, fresh and not activated |
| Features.AttributesRejected | src/feature_registry/features.py:10-15 | the instance dictionary is refused by the constructor, since created_at is not one of its parameters |
| Features.FeatureFromItem | src/feature_registry/features.py:70 | a stored dict is unpacked into the constructor; anything else raises TypeError |
| Features.LoadFeaturesFromSessionState | src/feature_registry/features.py:67-71 | no stored features give none; a stored list loads exactly when every item does, one feature per item in order; an empty dict or text gives none and any other value fails |
| Features.LoadStoredDicts | src/feature_registry/features.py:22-71 | features stored in their dict form load back in order, each with its fields, not activated and created now |
| Features.LoadStoredAttributes | src/feature_registry/features.py:61-71 | features stored as instance dictionaries, as the save function stores them, cannot be loaded: TypeError |
| State.Serialize | src/state/state.py:11-21 | the encoding is plain; plain values come back as they are; a datetime becomes its ISO text; an object becomes a dict of its attribute names plus "__class__" naming its class |
| State.SerializeAttribute | src/state/state.py:14-15 | every attribute of an encoded object other than "__class__" holds the encoding of its value |
| State.SerializeIdempotent | src/state/state.py:11-21 | encoding an encoded value changes nothing |
| State.SerializeFeature | src/state/state.py:11-21 | a feature with plain fields encodes as its instance dictionary plus "__class__": "Feature" |
| State.SerializedFeatureRebuilds | src/state/state.py:11-21 | the base `from_dict` rebuilds an encoded feature with its four fields, not activated and created now |
| State.Deserialize | src/state/state.py:24-30 | a dict whose 'type' is a registry name is rebuilt by that class; a list or dict under 'type' raises TypeError; any other dict comes back unchanged |
| State.DeserializeSerializedFeature | src/state/state.py:11-30 | decoding an encoded feature goes through the registry exactly when its type is a registry name, raises for a list or dict type, and otherwise gives the encoded dict back |
| State.PutIfAbsent | src/state/state.py:153-157 | the key ends up holding its old value or the default when it was absent; the keys grow by that key only and other values are kept |
| State.PutIfAbsentIdempotent | src/state/state.py:153-157 | a second call on the same key, with any default, changes nothing |
| State.Cleared | src/state/state.py:43-47 | the same keys, every one holding None |
| State.Reloaded | src/state/state.py:62-66 | loading items never adds or removes a session key |
| State.LastFor | src/state/state.py:64-66 | the last value the items give a key is one of them, and there is none exactly when no item names the key |
| State.ReloadedValue | src/state/state.py:62-66 | after loading, a session key holds the last value the file gives it, or its earlier value when the file does not name it |
| State.SessionState.EnsureKey | src/state/state.py:153-157 | the state becomes the put-if-absent map and the value returned is the one now under the key |
| State.SessionState.ClearValues | src/state/state.py:43-47 | the loop leaves every key of the old state holding None and no other key |
| State.SessionState.LoadState | src/state/state.py:50-66 | a missing file reports its error and changes nothing; otherwise the state is cleared, a decoding failure ends there, and the decoded items are assigned in order under keys the session already has |

## Left out

- File and directory I/O is not modelled. This covers `save_uploaded_file` (both `file_handling.py` files and `src/file_handle/save_file.py`), the `to_excel` write, the file side of `save_state_file_to_json`, `delete_state_file`, and `save_features_to_file`/`load_features_from_file`. The actual pandas reads appear as reader parameters, and a state file appears already decoded, as a `Result` parameter of `State.SessionState.LoadState`.
- User-interface output is not modelled: `st_read_file` in both `file_handling.py` files, `print_results`, `st.error`/`st.warning` displays, tqdm progress and `print`. Where an error is displayed, the model returns it as a value instead.
- `save_cleaned_df_to_file_and_update_session_state` and `save_clustered_df_to_file_and_update_session_state` (src/file_handle/save_file.py) are not modelled. They only compose a file write with a session update.
- The SLSQP solver (`minimize`), scaler and model fitting and prediction, `cross_val_score`, k-means, `silhouette_score` and `np.random.uniform` are foreign calls. They are parameters, and the model claims nothing about the solver's output beyond what the code checks.
- Cluster.Refusal, UnsupervisedLearning.Refusal, MlModels.ScalerError and MlModels.FitError: `parse` stands for `float()` on a text and yields a real or nothing, so a text `float()` reads as NaN or infinity ("nan", "inf") is either unreadable or a finite number in the model; scikit-learn's "Input X contains NaN" or "infinity" for such a text is not reported.
- Floating point is not modelled: rounding, overflow and IEEE NaN/inf arithmetic. Numbers are exact reals. NaN becomes a missing cell or `None`. The starting `float('inf')` score of `MlModels.Select` is `None`.
- MlModels.FitError: the first regressor is a random forest, whose `fit` rejects NaN features only in scikit-learn before 1.4; with a later release the NaN check of the model list happens at the SVR's `fit`, after the random forest's cross-validation, so a cluster that also has fewer than k rows raises the fold error instead. The model follows the releases that reject NaN at the first `fit`. The error texts are the exception type with scikit-learn's message shortened.
- MlModels.EvaluateModels: `cross_val_score` turns a failure inside one fold into a NaN score (its default `error_score`), which reaches the model as a `None` mean; only the fold-count error is raised.
- Cluster.PerformKmeans: one `fit(k)` stands for both the scored candidate fits (`n_init=10`, src/cluster/cluster.py:26) and the final fit (the default `n_init`, src/cluster/cluster.py:41). The two may label the rows differently; the model takes the final labels to be those of the candidate fit with the same k.
- DfUtils.ClusterValues: only number cells are collected. The callers pass cleaned frames; on a column holding text, pandas' `min`/`max` in the source raise TypeError, which the model does not report.
- OptimizeParameters.AllRows: a cluster label that is not a number cannot come from k-means, which writes integer labels. The model stops on it with an error of its own ("TypeError: non-numeric cluster label") instead of following the source, which goes on with such a label: a NaN label selects no rows at src/optimize_parameters/optimize_parameters.py:57, and what follows depends on whether the dictionary lookup at line 81 finds the NaN key.
- The header patterns are abstract predicates rather than regular expressions. The VOLUME pattern built from a unit is a parameter.
- Case folding and white space are ASCII only (`Text.Lower`, `Text.Upper`, `Text.IsSpace`; `IsSpace` holds the six ASCII white-space characters and the separators 0x1C to 0x1F), where Python's `lower`, `upper`, `strip` and `re.IGNORECASE` follow Unicode: a non-breaking space (or 0x85) is not stripped, and `É` is not lowered. This affects `UnitsConfig.Accepts`, `Units.UnitKey` and `Units.LowerKeyed`, `Headers.SurfaceRpm`, `Headers.MotorRpm` and the temperature unit test in `Headers`, `DfUtils.Matches`, `OptimizeMseMin.IsLithology` and `OptimizeMseMin.FirstLowerFrom`, `FileHandling.CombinedHeader`, `LoadFile.Merged` and `LegacyFileHandling.StrippedRow`.
- LegacyFileHandling.LegacyName: every NaN name is taken to be the same `np.nan` object, so `list.count` counts all of them together; the source relies on pandas filling missing results with that one object.
- `execute_monte_carlo_optimization` of `src/optimize_for_mse_min/optimize_for_mse_min.py` is not modelled as a whole. It only composes the modelled bounds, Monte Carlo run and range functions with printing per cluster, and `OptimizeMseMin.AddMseMinToOriginalData` takes its per-cluster kept values as input. The multi-start file's summary is modelled in `OptimizeMultiStart.Summarise` and `OptimizeMultiStart.StorePooled`. The multi-start file's own `get_bounds_for_cluster` (src/optimize_for_mse_min/optimize_for_mse_min_multi_start.py:155-168) has the factor 10000 written in place of the parameter; with that default the two bodies agree, so `OptimizeMseMin.GetBoundsForCluster` models both.
- The multi-start file's copies of `get_param_ranges` and `add_mse_min_to_original_data` have the same bodies as the single-start ones, so they are modelled once, in `OptimizeMseMin`.
- `save_features_to_session_state` is not modelled as an operation. It refers to an undefined name `features`, so it raises NameError. What it evidently meant to store is shown unloadable by `Features.LoadStoredAttributes`.
- The registry subclasses' `from_dict` is a parameter of `State.Deserialize`. Those classes call `Feature.__init__` without its required arguments, so they define no behaviour to state.
- Units.StandardizeUnits: columns are addressed by position. This matches pandas' addressing by name only when no two columns share a name; frames with duplicate column names are not modelled. A rename in the middle of the loop can itself create a duplicate: `T (C)` renamed to `T (F)` while a later column is already `T (F)`. From then on pandas' `df[col]` selects both columns, which the positional model does not follow.
- Frames with two columns of the same name are read as if `df[name]` selected the first of them (`Frames.ColumnIndex`). pandas returns a frame of all the copies instead, and the operations above that look a column up by name then behave differently.
- SaveFile.Unmerge: when two source columns share a full name, `df[column]` at src/file_handle/save_file.py:129 is a two-column frame and the assignment raises ValueError; the model copies the first such column instead.
- SaveFile.UnmergeSpec: the same duplicate full names are read as their first copy, where the source raises ValueError.
- SaveFile.Unmerge: the frame is modelled up to `sort_index`. `SaveFile.UnmergeAlreadySorted` shows that it is already sorted when the input index is increasing. Reordering an arbitrary index is not modelled.
- The `warnings` filters and the unused `data_dictionary` in `src/file_handle/load_file.py` have no effect on results, so they are not modelled.
- A state file is read as a sequence of key/value items. JSON's rule that a repeated key keeps its last value is not modelled, since `State.Reloaded` already gives later items precedence.
