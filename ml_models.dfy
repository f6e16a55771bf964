/** `src/ml_models/ml_models.py`: choosing the regressor with the lowest mean
    cross-validated error, per cluster. The numerics of fitting and cross-validation are
    not modelled: each model's mean score in a cluster arrives as a number, or `None` for
    NaN. What makes them raise is: no rows, no feature column, NaN cells or text that
    `float()` cannot read, too few rows for the folds. The estimators are objects that remember the cluster they were
    last fitted on, so the sharing of one model list between clusters is visible. */
module MlModels {
  import opened Wrappers
  import opened Frames
  import DfUtils

  // ----- evaluate_models -----

  /** `avg_mse < best_mse`, where a NaN mean (`None`) is never smaller and a best of
      `None` stands for the starting `float('inf')`. */
  predicate Improves(mean: Option<real>, best: Option<real>) {
    mean.Some? && (best.None? || mean.value < best.value)
  }

  /** The selection: the position of the best model (`None` when `best_model` stays
      `None`) and the best mean (`None` for infinity). */
  datatype Choice = Choice(index: Option<nat>, mse: Option<real>)

  /** The loop of `evaluate_models` over the models' mean scores: the first model with the
      smallest numeric mean; NaN means are skipped. */
  function Select(means: seq<Option<real>>): (c: Choice)
    ensures c.index.None? <==> c.mse.None?
    ensures c.index.Some? <==> exists i :: 0 <= i < |means| && means[i].Some?
    ensures c.index.Some? ==> c.index.value < |means| && means[c.index.value] == c.mse
    ensures forall i :: 0 <= i < |means| && means[i].Some? ==> c.mse.Some? && c.mse.value <= means[i].value
    ensures c.index.Some? ==>
      forall i :: 0 <= i < c.index.value ==> means[i].None? || means[i].value > c.mse.value
    decreases |means|
  {
    if |means| == 0 then Choice(None, None)
    else
      var n := |means| - 1;
      assert forall i :: 0 <= i < n ==> means[..n][i] == means[i];
      var prev := Select(means[..n]);
      if Improves(means[n], prev.mse) then Choice(Some(n), means[n]) else prev
  }

  /** A regression model; `trainedOn` is the cluster label of its latest `fit`. */
  class Estimator {
    const name: string
    var trainedOn: Option<Cell>

    constructor(name: string)
      ensures this.name == name && trainedOn.None?
    {
      this.name := name;
      trainedOn := None;
    }

    /** `model.fit(X, y)` on the data of one cluster. */
    method Fit(cluster: Cell)
      modifies this
      ensures trainedOn == Some(cluster)
    {
      trainedOn := Some(cluster);
    }
  }

  /** `evaluate_models(models_list, X, y, kfold)` on one cluster's data. `fitError` is
      what `model.fit(X, y)` raises on that data and `cvError` what `cross_val_score`
      raises for the fold count; both depend on the data only, so when either is set the
      first model already raises it: the first `fit` before anything is fitted, the first
      cross-validation once the first model is fitted. Otherwise every model is fitted,
      and the first one with the smallest mean score is returned with that score; with
      no numeric score the result is `(None, inf)`. */
  method EvaluateModels(models: seq<Estimator>, means: seq<Option<real>>, cluster: Cell,
                        fitError: Option<string>, cvError: Option<string>)
    returns (best: Option<Estimator>, bestMse: Option<real>, error: Option<string>)
    requires |models| == |means|
    modifies set m | m in models
    ensures error == if |models| == 0 then None else if fitError.Some? then fitError else cvError
    ensures error.Some? && fitError.Some? ==> forall m | m in models :: m.trainedOn == old(m.trainedOn)
    ensures error.Some? && fitError.None? ==>
      models[0].trainedOn == Some(cluster) &&
      forall m | m in models && m != models[0] :: m.trainedOn == old(m.trainedOn)
    ensures error.None? ==> forall m | m in models :: m.trainedOn == Some(cluster)
    ensures error.None? ==> bestMse == Select(means).mse
    ensures error.None? ==> (best.Some? <==> Select(means).index.Some?)
    ensures error.None? && best.Some? ==> best.value == models[Select(means).index.value]
  {
    best := None;
    bestMse := None;
    error := None;
    if |models| > 0 && fitError.Some? {
      return best, bestMse, fitError;
    }
    if |models| > 0 && cvError.Some? {
      models[0].Fit(cluster);
      return best, bestMse, cvError;
    }
    var i := 0;
    while i < |models|
      invariant 0 <= i <= |models|
      invariant forall m | m in models[..i] :: m.trainedOn == Some(cluster)
      invariant bestMse == Select(means[..i]).mse
      invariant best.Some? <==> Select(means[..i]).index.Some?
      invariant best.Some? ==> best.value == models[Select(means[..i]).index.value]
    {
      models[i].Fit(cluster);
      assert means[..i + 1][..i] == means[..i];
      if Improves(means[i], bestMse) {
        best := Some(models[i]);
        bestMse := means[i];
      }
      i := i + 1;
    }
    assert models[..i] == models && means[..i] == means;
  }

  // ----- perform_optimization -----

  /** The names of the six regressors, in the order they are evaluated. */
  const ModelNames: seq<string> := ["rf", "xgb", "svr", "gbm", "lgbm", "catboost"]

  /** A `StandardScaler`, fitted on one cluster's features. */
  class Scaler {
    const fittedOn: Cell

    constructor(cluster: Cell)
      ensures fittedOn == cluster
    {
      fittedOn := cluster;
    }
  }

  /** The `{'scaler': ..., 'model': ...}` entry stored for a cluster. */
  datatype ClusterModel = ClusterModel(scaler: Scaler, model: Option<Estimator>)

  /** What `perform_optimization` reads from the frame before its loop: the feature
      columns, the target column, the position of 'cluster' and the distinct labels. */
  datatype Inputs = Inputs(xCols: seq<string>, yCol: string, clusterColumn: nat, labels: seq<Cell>)

  /** The feature columns, then `get_columns_by_mnemonics(dataframe, y_mnemonic)[0]`
      (IndexError when the target does not resolve), then `dataframe['cluster'].unique()`
      (KeyError without a 'cluster' column). */
  function ReadInputs(f: Frame, xMnemonics: seq<string>, yMnemonic: DfUtils.Mnemonics): (r: Result<Inputs>)
    requires WellFormed(f)
    ensures r.Ok? <==> DfUtils.ColumnsByMnemonics(f.columns, DfUtils.Names(yMnemonic)) != [] && "cluster" in f.columns
    ensures DfUtils.ColumnsByMnemonics(f.columns, DfUtils.Names(yMnemonic)) == [] ==>
      r == Err("IndexError: list index out of range")
    ensures r.Ok? ==> r.value.xCols == DfUtils.ColumnsByMnemonics(f.columns, xMnemonics)
    ensures r.Ok? ==> r.value.yCol == DfUtils.ColumnsByMnemonics(f.columns, DfUtils.Names(yMnemonic))[0]
    ensures r.Ok? ==> r.value.clusterColumn < |f.columns| && f.columns[r.value.clusterColumn] == "cluster"
    ensures r.Ok? ==> forall c :: c in r.value.labels <==> exists i :: 0 <= i < |f.rows| && f.rows[i][r.value.clusterColumn] == c
    ensures r.Ok? ==> forall i, j :: 0 <= i < j < |r.value.labels| ==> r.value.labels[i] != r.value.labels[j]
  {
    var xCols := DfUtils.ColumnsByMnemonics(f.columns, xMnemonics);
    var yCols := DfUtils.ColumnsByMnemonics(f.columns, DfUtils.Names(yMnemonic));
    if |yCols| == 0 then Err("IndexError: list index out of range")
    else
      var k :- ColumnIndex(f.columns, "cluster").ToResult("KeyError: 'cluster'");
      var column := Column(f, k);
      assert forall c :: c in column <==> exists i :: 0 <= i < |f.rows| && f.rows[i][k] == c;
      Ok(Inputs(xCols, yCols[0], k, Unique(column)))
  }

  /** The rows whose value in `column` is `cluster`, in frame order. */
  function ClusterRows(rows: seq<Row>, column: nat, cluster: Cell): seq<Row> {
    if |rows| == 0 then []
    else if column < |rows[0]| && rows[0][column] == cluster then [rows[0]] + ClusterRows(rows[1..], column, cluster)
    else ClusterRows(rows[1..], column, cluster)
  }

  /** `dataframe[dataframe['cluster'] == cluster]`: a NaN label equals nothing, so it
      selects no row. */
  function ClusterData(f: Frame, column: nat, cluster: Cell): Frame {
    Frame(f.columns, if cluster.Missing? then [] else ClusterRows(f.rows, column, cluster))
  }

  /** Every row of a cluster's data is a row of the frame carrying that label. */
  lemma {:induction false} ClusterRowsSound(rows: seq<Row>, column: nat, cluster: Cell)
    ensures forall row :: row in ClusterRows(rows, column, cluster) ==>
      row in rows && column < |row| && row[column] == cluster
  {
    if |rows| > 0 {
      ClusterRowsSound(rows[1..], column, cluster);
    }
  }

  /** Every row of the frame carrying the label is in that cluster's data. */
  lemma {:induction false} ClusterRowsComplete(rows: seq<Row>, column: nat, cluster: Cell, i: nat)
    requires i < |rows| && column < |rows[i]| && rows[i][column] == cluster
    ensures rows[i] in ClusterRows(rows, column, cluster)
  {
    if i > 0 {
      ClusterRowsComplete(rows[1..], column, cluster, i - 1);
    }
  }

  /** What `StandardScaler().fit_transform(cluster_data[X_cols])` raises: no rows (a NaN
      label selects none), no feature column, or a feature text `float()` (given as
      `parse`) cannot read; the other texts are converted. NaN features pass. */
  function ScalerError(g: Frame, xCols: seq<string>, parse: string -> Option<real>): (e: Option<string>)
    ensures e.None? <==> |g.rows| > 0 && |xCols| > 0 && !UnreadableIn(g, xCols, parse)
  {
    if |g.rows| == 0 then Some("ValueError: Found array with 0 sample(s)")
    else if |xCols| == 0 then Some("ValueError: Found array with 0 feature(s)")
    else if UnreadableIn(g, xCols, parse) then Some("ValueError: could not convert string to float")
    else None
  }

  /** What the first `model.fit(X, y)` raises on the scaled features and the raw target:
      a NaN feature; then a NaN target, which scikit-learn finds before it converts the
      target; then a target text `float()` cannot read. */
  function FitError(g: Frame, xCols: seq<string>, yCol: string, parse: string -> Option<real>): (e: Option<string>)
    ensures !UnreadableIn(g, xCols, parse) ==>
      (e.None? <==> FloatsIn(g, xCols, parse) && FloatsIn(g, [yCol], parse))
    ensures FloatsIn(g, xCols, parse) && MissingIn(g, [yCol]) ==> e == Some("ValueError: Input y contains NaN")
  {
    if !FloatsIn(g, xCols, parse) then Some("ValueError: Input X contains NaN")
    else if MissingIn(g, [yCol]) then Some("ValueError: Input y contains NaN")
    else if UnreadableIn(g, [yCol], parse) then Some("ValueError: could not convert string to float")
    else None
  }

  /** A feature cell holding text that spells a number, such as "1.5", is scaled and
      fitted like the number. */
  lemma NumberTextFitted(parse: string -> Option<real>)
    requires parse("1.5") == Some(1.5)
    ensures ScalerError(Frame(["x", "y"], [[Str("1.5"), Num(2.0)]]), ["x"], parse).None?
    ensures FitError(Frame(["x", "y"], [[Str("1.5"), Num(2.0)]]), ["x"], "y", parse).None?
  {
    var g := Frame(["x", "y"], [[Str("1.5"), Num(2.0)]]);
    assert "y" !in ["x"] && "x" !in ["y"];
  }

  /** A feature cell holding text that `float()` cannot read stops the scaler. */
  lemma WordTextUnscaled(parse: string -> Option<real>)
    requires parse("shale") == None
    ensures ScalerError(Frame(["x", "y"], [[Str("shale"), Num(2.0)]]), ["x"], parse) ==
      Some("ValueError: could not convert string to float")
  {
    var h := Frame(["x", "y"], [[Str("shale"), Num(2.0)]]);
    assert h.columns[0] in ["x"] && h.rows[0][0].Str?;
  }

  /** What `cross_val_score(..., cv=KFold(n_splits=k))` raises on `n` rows. */
  function FoldError(n: nat, k: int): (e: Option<string>)
    ensures e.None? <==> n >= k
  {
    if n < k then Some("ValueError: Cannot have number of splits n_splits greater than the number of samples")
    else None
  }

  /** The error the loop body raises on one cluster, in the order the body meets them:
      the scaler, the first fit, the first cross-validation. */
  function ClusterError(f: Frame, d: Inputs, k: int, cluster: Cell, parse: string -> Option<real>): (e: Option<string>)
    requires WellFormed(f)
    ensures var g := ClusterData(f, d.clusterColumn, cluster);
      e.None? <==> (|g.rows| >= 1 && |g.rows| >= k && |d.xCols| > 0 &&
                    FloatsIn(g, d.xCols, parse) && FloatsIn(g, [d.yCol], parse))
  {
    var g := ClusterData(f, d.clusterColumn, cluster);
    if ScalerError(g, d.xCols, parse).Some? then ScalerError(g, d.xCols, parse)
    else if FitError(g, d.xCols, d.yCol, parse).Some? then FitError(g, d.xCols, d.yCol, parse)
    else
      assert |d.xCols| > 0 ==> d.xCols[0] in d.xCols;
      FoldError(|g.rows|, k)
  }

  /** The first error in a sequence of outcomes. */
  function FirstError(errors: seq<Option<string>>): (e: Option<string>)
    ensures e.None? <==> forall j :: 0 <= j < |errors| ==> errors[j].None?
    ensures e.Some? ==> e in errors
  {
    if |errors| == 0 then None
    else if errors[0].Some? then errors[0]
    else FirstError(errors[1..])
  }

  /** When every outcome before position `j` is fine and the one at `j` is an error, that
      is the first error. */
  lemma {:induction false} FirstErrorAt(errors: seq<Option<string>>, j: nat)
    requires j < |errors| && errors[j].Some? && forall i :: 0 <= i < j ==> errors[i].None?
    ensures FirstError(errors) == errors[j]
  {
    if j > 0 {
      assert errors[0].None?;
      assert forall i :: 0 <= i < j - 1 ==> errors[1..][i] == errors[i + 1];
      FirstErrorAt(errors[1..], j - 1);
      assert errors[1..][j - 1] == errors[j];
    }
  }

  /** The error each cluster's loop body raises, in label order. */
  function ClusterErrors(f: Frame, d: Inputs, k: int, labels: seq<Cell>, parse: string -> Option<real>):
    (errors: seq<Option<string>>)
    requires WellFormed(f)
    ensures |errors| == |labels|
  {
    if |labels| == 0 then [] else [ClusterError(f, d, k, labels[0], parse)] + ClusterErrors(f, d, k, labels[1..], parse)
  }

  /** The `j`-th entry of `ClusterErrors` is the error of the `j`-th label. */
  lemma {:induction false} ClusterErrorsAt(f: Frame, d: Inputs, k: int, labels: seq<Cell>, j: nat,
                                          parse: string -> Option<real>)
    requires WellFormed(f) && j < |labels|
    ensures ClusterErrors(f, d, k, labels, parse)[j] == ClusterError(f, d, k, labels[j], parse)
  {
    if j > 0 {
      ClusterErrorsAt(f, d, k, labels[1..], j - 1, parse);
    }
  }

  /** The error of the first cluster, in label order, whose loop body raises. */
  function LoopError(f: Frame, d: Inputs, k: int, labels: seq<Cell>, parse: string -> Option<real>): Option<string>
    requires WellFormed(f)
  {
    FirstError(ClusterErrors(f, d, k, labels, parse))
  }

  /** The loop raises nothing exactly when no cluster's body raises, and what it raises
      is some cluster's error. */
  lemma LoopErrorNone(f: Frame, d: Inputs, k: int, labels: seq<Cell>, parse: string -> Option<real>)
    requires WellFormed(f)
    ensures LoopError(f, d, k, labels, parse).None? <==>
      forall j :: 0 <= j < |labels| ==> ClusterError(f, d, k, labels[j], parse).None?
    ensures LoopError(f, d, k, labels, parse).Some? ==>
      exists j :: 0 <= j < |labels| && LoopError(f, d, k, labels, parse) == ClusterError(f, d, k, labels[j], parse)
  {
    forall j | 0 <= j < |labels|
      ensures ClusterErrors(f, d, k, labels, parse)[j] == ClusterError(f, d, k, labels[j], parse)
    {
      ClusterErrorsAt(f, d, k, labels, j, parse);
    }
  }

  /** The mean scores of the six regressors on one cluster. */
  function Means(cv: (Cell, nat) -> Option<real>, cluster: Cell): (means: seq<Option<real>>)
    ensures |means| == |ModelNames|
  {
    seq(|ModelNames|, i requires 0 <= i < |ModelNames| => cv(cluster, i))
  }

  /** The entry a cluster's loop iteration stores is right for that cluster: a scaler
      fitted on it, and the regressor chosen for it among the shared models. */
  predicate EntryFor(e: ClusterModel, c: Cell, cv: (Cell, nat) -> Option<real>, models: seq<Estimator>)
    requires |models| == |ModelNames|
  {
    e.scaler.fittedOn == c &&
    (e.model.Some? <==> Select(Means(cv, c)).index.Some?) &&
    (e.model.Some? ==> e.model.value == models[Select(Means(cv, c)).index.value])
  }

  /** One pass of the loop body, on the `j`-th label: scale the cluster's features with a
      fresh scaler, then evaluate the shared regressors on them. */
  method FitCluster(f: Frame, d: Inputs, k: int, models: seq<Estimator>, cv: (Cell, nat) -> Option<real>,
                    labels: seq<Cell>, j: nat, parse: string -> Option<real>)
    returns (entry: ClusterModel, error: Option<string>)
    requires WellFormed(f) && |models| == |ModelNames| && j < |labels|
    modifies set m | m in models
    ensures error == ClusterErrors(f, d, k, labels, parse)[j]
    ensures error.None? ==> EntryFor(entry, labels[j], cv, models)
    ensures error.None? ==> forall m | m in models :: m.trainedOn == Some(labels[j])
  {
    ClusterErrorsAt(f, d, k, labels, j, parse);
    var cluster := labels[j];
    var g := ClusterData(f, d.clusterColumn, cluster);
    var scaler := new Scaler(cluster);
    entry := ClusterModel(scaler, None);
    error := ScalerError(g, d.xCols, parse);
    if error.Some? {
      return;
    }
    var best, bestMse;
    best, bestMse, error := EvaluateModels(models, Means(cv, cluster), cluster,
                                           FitError(g, d.xCols, d.yCol, parse), FoldError(|g.rows|, k));
    entry := ClusterModel(scaler, best);
  }

  /** The loop over the cluster labels: a fresh scaler per cluster and the shared
      regressors refitted on each; the first cluster whose data the scaler, a fit or the
      cross-validation refuses ends the loop with that error (the regressors are then
      discarded with the exception). */
  method ClusterLoop(f: Frame, d: Inputs, k: int, models: seq<Estimator>, cv: (Cell, nat) -> Option<real>,
                     parse: string -> Option<real>)
    returns (r: Result<map<Cell, ClusterModel>>)
    requires WellFormed(f) && |models| == |ModelNames|
    modifies set m | m in models
    ensures r.Err? <==> LoopError(f, d, k, d.labels, parse).Some?
    ensures r.Err? ==> r.error == LoopError(f, d, k, d.labels, parse).value
    ensures r.Ok? ==> r.value.Keys == set c | c in d.labels
    ensures r.Ok? ==> forall c | c in r.value :: EntryFor(r.value[c], c, cv, models)
    ensures r.Ok? && d.labels != [] ==> forall m | m in models :: m.trainedOn == Some(d.labels[|d.labels| - 1])
  {
    var labels := d.labels;
    ghost var errors := ClusterErrors(f, d, k, labels, parse);
    var result := map[];
    var j := 0;
    while j < |labels|
      invariant 0 <= j <= |labels|
      invariant forall i :: 0 <= i < j ==> errors[i].None?
      invariant forall c :: c in result <==> exists i :: 0 <= i < j && labels[i] == c
      invariant forall c | c in result :: EntryFor(result[c], c, cv, models)
      invariant j > 0 ==> forall m | m in models :: m.trainedOn == Some(labels[j - 1])
    {
      var entry, error := FitCluster(f, d, k, models, cv, labels, j, parse);
      if error.Some? {
        FirstErrorAt(errors, j);
        return Err(error.value);
      }
      assert errors[j].None?;
      result := result[labels[j] := entry];
      assert forall i :: 0 <= i < j + 1 ==> errors[i].None?;
      assert forall c :: c in result <==> exists i :: 0 <= i < j + 1 && labels[i] == c;
      j := j + 1;
    }
    assert result.Keys == set c | c in labels by {
      forall c | c in labels ensures c in result {
        var i :| 0 <= i < |labels| && labels[i] == c;
      }
    }
    r := Ok(result);
  }

  /** `models_list`: one fresh, unfitted regressor per name. */
  method BuildModels() returns (models: seq<Estimator>)
    ensures |models| == |ModelNames|
    ensures forall i :: 0 <= i < |models| ==> models[i].name == ModelNames[i] && models[i].trainedOn.None?
    ensures forall i :: 0 <= i < |models| ==> fresh(models[i])
  {
    var rf := new Estimator("rf");
    var xgb := new Estimator("xgb");
    var svr := new Estimator("svr");
    var gbm := new Estimator("gbm");
    var lgbm := new Estimator("lgbm");
    var catboost := new Estimator("catboost");
    models := [rf, xgb, svr, gbm, lgbm, catboost];
    assert models[0].name == ModelNames[0] && models[1].name == ModelNames[1];
    assert models[2].name == ModelNames[2] && models[3].name == ModelNames[3];
    assert models[4].name == ModelNames[4] && models[5].name == ModelNames[5];
  }

  /** The outcome of the loop over the cluster labels: one entry per distinct label,
      and every shared regressor last fitted on the last label. */
  predicate Fitted(result: map<Cell, ClusterModel>, labels: seq<Cell>, cv: (Cell, nat) -> Option<real>,
                   models: seq<Estimator>)
    requires |models| == |ModelNames|
    reads set m | m in models
  {
    result.Keys == (set c | c in labels) &&
    (forall c | c in result :: EntryFor(result[c], c, cv, models)) &&
    (labels != [] ==> forall m | m in models :: m.trainedOn == Some(labels[|labels| - 1]))
  }

  /** The six regressors built, then the loop over the cluster labels. */
  method FitClusters(f: Frame, d: Inputs, k: int, cv: (Cell, nat) -> Option<real>, parse: string -> Option<real>)
    returns (r: Result<map<Cell, ClusterModel>>, models: seq<Estimator>)
    requires WellFormed(f)
    ensures |models| == |ModelNames| && forall i :: 0 <= i < |models| ==> models[i].name == ModelNames[i]
    ensures r.Err? <==> LoopError(f, d, k, d.labels, parse).Some?
    ensures r.Err? ==> r.error == LoopError(f, d, k, d.labels, parse).value
    ensures r.Ok? ==> Fitted(r.value, d.labels, cv, models)
  {
    models := BuildModels();
    r := ClusterLoop(f, d, k, models, cv, parse);
  }

  const FoldCount: string :=
    "ValueError: k-fold cross-validation requires at least one train/test split by setting n_splits=2 or more"

  /** The outcome of `perform_optimization` apart from the fitted objects: the input
      look-ups, `KFold(n_splits=k)`, then the first cluster that raises. */
  function Outcome(f: Frame, xMnemonics: seq<string>, yMnemonic: DfUtils.Mnemonics, k: int,
                   parse: string -> Option<real>): Option<string>
    requires WellFormed(f)
  {
    match ReadInputs(f, xMnemonics, yMnemonic)
    case Err(e) => Some(e)
    case Ok(d) => if k < 2 then Some(FoldCount) else LoopError(f, d, k, d.labels, parse)
  }

  /** `perform_optimization(dataframe, X_mnemonics, y_mnemonic, k)`, with `cv(c, i)` the
      mean cross-validated error of the i-th regressor on cluster `c`. It fails with the
      first error `Outcome` names; otherwise one entry per distinct cluster label, each
      holding a scaler of its own and the chosen regressor. The six regressors are built
      once and refitted in every cluster, so every stored model object was last fitted on
      the last cluster, whatever cluster it was chosen for. */
  method PerformOptimization(f: Frame, xMnemonics: seq<string>, yMnemonic: DfUtils.Mnemonics, k: int,
                             cv: (Cell, nat) -> Option<real>, parse: string -> Option<real>)
    returns (r: Result<map<Cell, ClusterModel>>, models: seq<Estimator>)
    requires WellFormed(f)
    ensures r.Err? <==> Outcome(f, xMnemonics, yMnemonic, k, parse).Some?
    ensures r.Err? ==> r.error == Outcome(f, xMnemonics, yMnemonic, k, parse).value
    ensures |models| == |ModelNames| && forall i :: 0 <= i < |models| ==> models[i].name == ModelNames[i]
    ensures r.Ok? ==> Fitted(r.value, ReadInputs(f, xMnemonics, yMnemonic).value.labels, cv, models)
  {
    var inputs := ReadInputs(f, xMnemonics, yMnemonic);
    if inputs.Err? {
      models := BuildModels();
      return Err(inputs.error), models;
    }
    if k < 2 {
      models := BuildModels();
      return Err(FoldCount), models;
    }
    r, models := FitClusters(f, inputs.value, k, cv, parse);
  }

  /** `perform_optimization` succeeds exactly when the target and 'cluster' resolve, k is
      at least 2, and every cluster has at least k rows (so at least one), at least one
      feature column, and feature and target cells that are numbers or texts `float()` reads
      as numbers. */
  lemma OptimizationSucceeds(f: Frame, xMnemonics: seq<string>, yMnemonic: DfUtils.Mnemonics, k: int,
                             parse: string -> Option<real>)
    requires WellFormed(f)
    ensures Outcome(f, xMnemonics, yMnemonic, k, parse).None? <==>
      ReadInputs(f, xMnemonics, yMnemonic).Ok? && k >= 2 &&
      var d := ReadInputs(f, xMnemonics, yMnemonic).value;
      forall j :: 0 <= j < |d.labels| ==>
        var g := ClusterData(f, d.clusterColumn, d.labels[j]);
        |g.rows| >= k && |d.xCols| > 0 && FloatsIn(g, d.xCols, parse) && FloatsIn(g, [d.yCol], parse)
  {
    if ReadInputs(f, xMnemonics, yMnemonic).Ok? {
      var d := ReadInputs(f, xMnemonics, yMnemonic).value;
      LoopErrorNone(f, d, k, d.labels, parse);
    }
  }

  /** With the default seven folds, a cluster of fewer than seven rows makes the whole
      optimisation fail, and so does a NaN cluster label, which selects no rows. */
  lemma SmallClusterRefused(f: Frame, xMnemonics: seq<string>, yMnemonic: DfUtils.Mnemonics, j: nat,
                            parse: string -> Option<real>)
    requires WellFormed(f) && ReadInputs(f, xMnemonics, yMnemonic).Ok?
    requires var d := ReadInputs(f, xMnemonics, yMnemonic).value;
      j < |d.labels| && (|ClusterData(f, d.clusterColumn, d.labels[j]).rows| < 7 || d.labels[j].Missing?)
    ensures Outcome(f, xMnemonics, yMnemonic, 7, parse).Some?
  {
    var d := ReadInputs(f, xMnemonics, yMnemonic).value;
    assert ClusterError(f, d, 7, d.labels[j], parse).Some?;
    LoopErrorNone(f, d, 7, d.labels, parse);
  }
}
