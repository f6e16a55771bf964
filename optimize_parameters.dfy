/** `src/optimize_parameters/optimize_parameters.py`: random search for drilling
    parameters whose predicted MSE comes close to the minimum MSE seen in each cluster.
    The random numbers arrive as unit draws and the trained models as a `predict`
    function; the parameter dictionary is an ordered association list so that a
    key that is set again keeps its place, as in a Python dict. */
module OptimizeParameters {
  import opened Wrappers
  import opened Frames
  import Text
  import DfUtils
  import Drilling
  import Stats
  import OptimizeMseMin

  // ----- the parameter dictionary -----

  /** A Python dict from names to floats, in insertion order. */
  type Dict = seq<(string, real)>

  function FindFrom(d: Dict, key: string, j: nat): (r: Option<nat>)
    requires j <= |d|
    ensures r.Some? ==> j <= r.value < |d| && d[r.value].0 == key
    ensures r.Some? ==> forall i :: j <= i < r.value ==> d[i].0 != key
    ensures r.None? <==> forall i :: j <= i < |d| ==> d[i].0 != key
    decreases |d| - j
  {
    if j == |d| then None
    else if d[j].0 == key then Some(j)
    else FindFrom(d, key, j + 1)
  }

  /** The position of `key`, if the dict holds it. */
  function Find(d: Dict, key: string): (r: Option<nat>)
    ensures r.Some? ==> r.value < |d| && d[r.value].0 == key
    ensures r.Some? ==> forall i :: 0 <= i < r.value ==> d[i].0 != key
    ensures r.None? <==> forall i :: 0 <= i < |d| ==> d[i].0 != key
  {
    FindFrom(d, key, 0)
  }

  /** `d.get(key)`. */
  function Get(d: Dict, key: string): Option<real> {
    match Find(d, key)
    case Some(i) => Some(d[i].1)
    case None => None
  }

  /** `d[key] = v`: an existing key keeps its position, a new key goes last. */
  function Put(d: Dict, key: string, v: real): (r: Dict)
    ensures Find(d, key).Some? ==> |r| == |d|
    ensures Find(d, key).None? ==> |r| == |d| + 1
  {
    match Find(d, key)
    case Some(i) => d[i := (key, v)]
    case None => d + [(key, v)]
  }

  /** Two dicts whose entries agree wherever either holds `k` give the same `get(k)`. */
  lemma SameLookup(d: Dict, e: Dict, k: string)
    requires forall j :: 0 <= j < |d| && d[j].0 == k ==> j < |e| && e[j] == d[j]
    requires forall j :: 0 <= j < |e| && e[j].0 == k ==> j < |d| && d[j] == e[j]
    ensures Get(d, k) == Get(e, k)
  {
    match Find(d, k)
    case Some(i) =>
      assert e[i] == d[i];
      assert forall m :: 0 <= m < i ==> e[m].0 != k;
      assert Find(e, k) == Some(i);
    case None =>
      assert forall m :: 0 <= m < |e| ==> e[m].0 != k;
  }

  /** After `d[key] = v`, `d.get(key)` is `v`. */
  lemma PutSame(d: Dict, key: string, v: real)
    ensures Get(Put(d, key, v), key) == Some(v)
  {
    var r := Put(d, key, v);
    match Find(d, key)
    case Some(i) =>
      assert r[i].0 == key;
      assert forall m :: 0 <= m < i ==> r[m] == d[m];
      assert Find(r, key) == Some(i);
    case None =>
      assert r[|d|].0 == key;
      assert forall m :: 0 <= m < |d| ==> r[m] == d[m];
      assert Find(r, key) == Some(|d|);
  }

  /** `d[key] = v` leaves every other key alone. */
  lemma PutOther(d: Dict, key: string, v: real, k: string)
    requires k != key
    ensures Get(Put(d, key, v), k) == Get(d, k)
  {
    SameLookup(Put(d, key, v), d, k);
  }

  /** `d.update(zip(keys, vals))`, key by key. */
  function PutAll(d: Dict, keys: seq<string>, vals: seq<real>): (r: Dict)
    requires |keys| == |vals|
    decreases |keys|
  {
    if |keys| == 0 then d
    else PutAll(Put(d, keys[0], vals[0]), keys[1..], vals[1..])
  }

  /** After an update with distinct keys, every key holds its new value. */
  lemma {:induction false} PutAllHolds(d: Dict, keys: seq<string>, vals: seq<real>, i: nat)
    requires |keys| == |vals| && i < |keys|
    requires forall a, b :: 0 <= a < b < |keys| ==> keys[a] != keys[b]
    ensures Get(PutAll(d, keys, vals), keys[i]) == Some(vals[i])
    decreases |keys|
  {
    if i == 0 {
      assert keys[0] !in keys[1..];
      PutSame(d, keys[0], vals[0]);
      PutAllKeepsOthers(Put(d, keys[0], vals[0]), keys[1..], vals[1..], keys[0]);
    } else {
      PutAllHolds(Put(d, keys[0], vals[0]), keys[1..], vals[1..], i - 1);
    }
  }

  /** An update leaves the keys it does not mention alone. */
  lemma {:induction false} PutAllKeepsOthers(d: Dict, keys: seq<string>, vals: seq<real>, k: string)
    requires |keys| == |vals| && k !in keys
    ensures Get(PutAll(d, keys, vals), k) == Get(d, k)
    decreases |keys|
  {
    if |keys| > 0 {
      assert k != keys[0];
      assert forall x | x in keys[1..] :: x in keys;
      PutOther(d, keys[0], vals[0], k);
      PutAllKeepsOthers(Put(d, keys[0], vals[0]), keys[1..], vals[1..], k);
    }
  }

  // ----- sample_rock_components -----

  /** The lithology mnemonics sampled for every iteration, in the order the source lists them. */
  const RockMnemonics: seq<string> := ["si", "dolomite", "limestone", "shale"]

  /** The range of a column in the cluster: its minimum and maximum; NaN (`None`) when
      the cluster has no number there. */
  function RangeRule(vs: seq<real>, mnemonic: string): (b: DfUtils.Bound)
    ensures |vs| == 0 ==> b.low.None? && b.high.None?
    ensures |vs| > 0 ==> b.low == Some(Stats.MinOf(vs)) && b.high == Some(Stats.MaxOf(vs))
  {
    if |vs| == 0 then DfUtils.Bound(None, None)
    else DfUtils.Bound(Some(Stats.MinOf(vs)), Some(Stats.MaxOf(vs)))
  }

  /** One component before normalisation: a uniform draw between the minimum and the
      maximum of the first column the mnemonic resolves to, within the cluster. A column
      with no number in the cluster has NaN for both, and `np.random.uniform(nan, nan)`
      raises OverflowError. */
  function RockDraw(f: Frame, cluster: real, mnemonic: string, u: real): (r: Result<real>)
    requires WellFormed(f)
    ensures r.Ok? ==> DfUtils.MnemonicBound(f, mnemonic, cluster, RangeRule).Ok?
  {
    var b :- DfUtils.MnemonicBound(f, mnemonic, cluster, RangeRule);
    if b.low.None? || b.high.None? then Err("OverflowError: Range exceeds valid bounds")
    else Ok(OptimizeMseMin.Uniform(b.low.value, b.high.value, u))
  }

  /** A raw draw lies within the cluster's range of its column. */
  lemma RockDrawWithin(f: Frame, cluster: real, mnemonic: string, u: real)
    requires WellFormed(f) && 0.0 <= u <= 1.0
    requires RockDraw(f, cluster, mnemonic, u).Ok?
    ensures
      var b := DfUtils.MnemonicBound(f, mnemonic, cluster, RangeRule).value;
      b.low.Some? && b.high.Some? &&
      b.low.value <= RockDraw(f, cluster, mnemonic, u).value <= b.high.value
  {
    var b := DfUtils.MnemonicBound(f, mnemonic, cluster, RangeRule).value;
    assert b.low.value <= b.high.value;
    Stats.Lerp(b.low.value, b.high.value, u);
  }

  /** `v * 100 / total`. */
  function Share(v: real, total: real): real
    requires total != 0.0
  {
    Drilling.Quotient(OptimizeMseMin.Scaled(v, 100.0), total)
  }

  function Shares(raw: seq<real>, total: real): (r: seq<real>)
    requires total != 0.0
    ensures |r| == |raw|
  {
    seq(|raw|, i requires 0 <= i < |raw| => Share(raw[i], total))
  }

  function RockDraws(f: Frame, cluster: real, mnemonics: seq<string>, us: seq<real>): (r: seq<Result<real>>)
    requires WellFormed(f) && |us| == |mnemonics|
    ensures |r| == |mnemonics|
    ensures forall i :: 0 <= i < |mnemonics| ==> r[i] == RockDraw(f, cluster, mnemonics[i], us[i])
  {
    seq(|mnemonics|, i requires 0 <= i < |mnemonics| => RockDraw(f, cluster, mnemonics[i], us[i]))
  }

  /** `sample_rock_components(cluster_df, mnemonics)`: a raw draw per mnemonic, then each
      scaled by 100 over their total. */
  function SampleRockComponents(f: Frame, cluster: real, mnemonics: seq<string>, us: seq<real>): (r: Result<seq<real>>)
    requires WellFormed(f) && |us| == |mnemonics|
    ensures r.Ok? ==> |r.value| == |mnemonics|
  {
    var raw :- AllOk(RockDraws(f, cluster, mnemonics, us));
    var total := Stats.Sum(raw);
    if total == 0.0 then Err("ZeroDivisionError: float division by zero")
    else Ok(Shares(raw, total))
  }

  /** Shares of a prefix add up to 100 times the prefix's share of the total. */
  lemma {:induction false} SharesPrefix(raw: seq<real>, total: real, n: nat)
    requires total != 0.0 && n <= |raw|
    ensures Stats.Sum(Shares(raw, total)[..n]) * total == Stats.Sum(raw[..n]) * 100.0
  {
    if n > 0 {
      var s := Shares(raw, total);
      SharesPrefix(raw, total, n - 1);
      assert s[..n][..n - 1] == s[..n - 1];
      assert raw[..n][..n - 1] == raw[..n - 1];
      var a := Stats.Sum(s[..n - 1]);
      var q := s[n - 1];
      assert q * total == raw[n - 1] * 100.0;
      assert (a + q) * total == a * total + q * total;
      assert (Stats.Sum(raw[..n - 1]) + raw[n - 1]) * 100.0
        == Stats.Sum(raw[..n - 1]) * 100.0 + raw[n - 1] * 100.0;
    }
  }

  /** Scaling every draw by 100 over their total gives shares that add up to 100. */
  lemma SharesSum(raw: seq<real>, total: real)
    requires total != 0.0 && total == Stats.Sum(raw)
    ensures Stats.Sum(Shares(raw, total)) == 100.0
  {
    var s := Shares(raw, total);
    SharesPrefix(raw, total, |raw|);
    assert s[..|s|] == s && raw[..|raw|] == raw;
    CancelFactor(Stats.Sum(s), 100.0, total);
  }

  /** The sampled rock components add up to exactly 100. */
  lemma SampleRockSum(f: Frame, cluster: real, mnemonics: seq<string>, us: seq<real>)
    requires WellFormed(f) && |us| == |mnemonics|
    requires SampleRockComponents(f, cluster, mnemonics, us).Ok?
    ensures Stats.Sum(SampleRockComponents(f, cluster, mnemonics, us).value) == 100.0
  {
    var raw := AllOk(RockDraws(f, cluster, mnemonics, us)).value;
    SharesSum(raw, Stats.Sum(raw));
  }

  lemma CancelFactor(x: real, y: real, t: real)
    requires t != 0.0 && x * t == t * y
    ensures x == y
  {
    assert (x - y) * t == 0.0;
  }

  /** Sampling fails exactly when one of the mnemonics resolves to no column, the frame
      has no `cluster` column, a column has no number in the cluster, or the draws sum to zero. */
  lemma SampleRockErrors(f: Frame, cluster: real, mnemonics: seq<string>, us: seq<real>, i: nat)
    requires WellFormed(f) && |us| == |mnemonics| && i < |mnemonics|
    requires ColumnsByMnemonicsMissing(f, mnemonics[i])
    ensures SampleRockComponents(f, cluster, mnemonics, us).Err?
  {
    assert RockDraws(f, cluster, mnemonics, us)[i].Err?;
  }

  predicate ColumnsByMnemonicsMissing(f: Frame, mnemonic: string) {
    DfUtils.ColumnsByMnemonics(f.columns, [mnemonic]) == []
  }

  // ----- one iteration of monte_carlo_optimization -----

  /** The columns appended after the feature columns of the result frame. */
  const ExtraColumns: seq<string> := ["ROP (m/h)", "MSE (ksi)", "MSE_min (ksi)", "cluster"]

  /** `result_df_columns`: the feature columns followed by the four result columns. */
  function ResultColumns(f: Frame, features: seq<string>): seq<string> {
    DfUtils.ColumnsByMnemonics(f.columns, features) + ExtraColumns
  }

  /** The random numbers of one iteration: a unit draw per entry of the bounds and one
      per rock mnemonic. */
  datatype Draws = Draws(params: seq<real>, rock: seq<real>)

  /** The bounds dictionary, in insertion order. */
  type Bounds = seq<(string, (real, real))>

  predicate DistinctKeys(bounds: Bounds) {
    forall a, b :: 0 <= a < b < |bounds| ==> bounds[a].0 != bounds[b].0
  }

  predicate Shaped(bounds: Bounds, d: Draws) {
    |d.params| == |bounds| && |d.rock| == |RockMnemonics|
  }

  /** The outcome of one iteration: a row of the result, no row, or the `break`. */
  datatype Step = Accept(row: seq<Cell>) | Reject | Stop

  /** `{param: uniform(*bounds[param]) for param in bounds}`. */
  function DrawParams(bounds: Bounds, us: seq<real>): (p: Dict)
    requires |us| == |bounds|
    ensures |p| == |bounds|
  {
    seq(|bounds|, i requires 0 <= i < |bounds| =>
      (bounds[i].0, OptimizeMseMin.Uniform(bounds[i].1.0, bounds[i].1.1, us[i])))
  }

  /** The parameters of an iteration before prediction: the drawn bounds, `mu` computed
      from the drawn WOB and torque, the rock components and the cluster label. */
  function SampleParams(f: Frame, bounds: Bounds, cluster: real, d: Draws): (r: Result<Dict>)
    requires WellFormed(f) && Shaped(bounds, d)
  {
    var p0 := DrawParams(bounds, d.params);
    var wob :- Get(p0, "wob").ToResult("KeyError: 'wob'");
    var torque :- Get(p0, "torque").ToResult("KeyError: 'torque'");
    var mu :- Drilling.ComputeMu(wob, torque, Drilling.BitDiameter).ToResult("ZeroDivisionError: float division by zero");
    var rock :- SampleRockComponents(f, cluster, RockMnemonics, d.rock);
    Ok(Assemble(p0, mu, rock, cluster))
  }

  /** `params['mu'] = mu; params.update(rock_components); params['cluster'] = cluster`. */
  function Assemble(p0: Dict, mu: real, rock: seq<real>, cluster: real): Dict
    requires |rock| == |RockMnemonics|
  {
    Put(PutAll(Put(p0, "mu", mu), RockMnemonics, rock), "cluster", cluster)
  }

  /** The assembled parameters hold the computed Mu and the cluster label. */
  lemma AssembleHoldsMu(p0: Dict, mu: real, rock: seq<real>, cluster: real)
    requires |rock| == |RockMnemonics|
    ensures Get(Assemble(p0, mu, rock, cluster), "mu") == Some(mu)
    ensures Get(Assemble(p0, mu, rock, cluster), "cluster") == Some(cluster)
  {
    var p1 := Put(p0, "mu", mu);
    var p2 := PutAll(p1, RockMnemonics, rock);
    PutSame(p0, "mu", mu);
    PutAllKeepsOthers(p1, RockMnemonics, rock, "mu");
    PutOther(p2, "cluster", cluster, "mu");
    PutSame(p2, "cluster", cluster);
  }

  /** The assembled parameters hold each rock component under its mnemonic. */
  lemma AssembleHoldsRock(p0: Dict, mu: real, rock: seq<real>, cluster: real, i: nat)
    requires |rock| == |RockMnemonics| && i < |RockMnemonics|
    ensures Get(Assemble(p0, mu, rock, cluster), RockMnemonics[i]) == Some(rock[i])
  {
    var p1 := Put(p0, "mu", mu);
    var p2 := PutAll(p1, RockMnemonics, rock);
    PutAllHolds(p1, RockMnemonics, rock, i);
    PutOther(p2, "cluster", cluster, RockMnemonics[i]);
  }

  /** `[params.get(m.lower()) for m in X_mnemonics]`, or `None` when one is missing. */
  function Features(p: Dict, features: seq<string>): (r: Option<seq<real>>)
    ensures r.Some? <==> forall i :: 0 <= i < |features| ==> Get(p, Text.Lower(features[i])).Some?
    ensures r.Some? ==> |r.value| == |features|
    ensures r.Some? ==> forall i :: 0 <= i < |features| ==> Get(p, Text.Lower(features[i])) == Some(r.value[i])
  {
    if forall i :: 0 <= i < |features| ==> Get(p, Text.Lower(features[i])).Some? then
      Some(seq(|features|, i requires 0 <= i < |features| => Get(p, Text.Lower(features[i])).value))
    else None
  }

  /** `cluster_df['MSE_min (ksi)'].min()`: NaN (`None`) when the cluster has no number there. */
  function MseMinOf(f: Frame, cluster: real): (r: Result<Option<real>>)
    requires WellFormed(f)
    ensures r.Ok? <==> "MSE_min (ksi)" in f.columns && "cluster" in f.columns
  {
    var j :- ColumnIndex(f.columns, "MSE_min (ksi)").ToResult("KeyError: 'MSE_min (ksi)'");
    var k :- ColumnIndex(f.columns, "cluster").ToResult("KeyError: 'cluster'");
    var vs := DfUtils.ClusterValues(f.rows, j, k, cluster);
    Ok(if |vs| == 0 then None else Some(Stats.MinOf(vs)))
  }

  /** The acceptance test `mse <= mse_min * (1 + mse_tolerance)`; an infinite MSE or a
      NaN minimum never passes. */
  predicate Accepted(mse: Option<real>, mseMin: Option<real>, tolerance: real) {
    mse.Some? && mseMin.Some? && mse.value <= OptimizeMseMin.Scaled(mseMin.value, 1.0 + tolerance)
  }

  /** `{get_columns_by_mnemonics(df, k)[0]: v for k, v in params.items()}`; a later key
      that resolves to the same column overwrites the earlier one. */
  function Rename(columns: seq<string>, p: Dict): (r: Result<Dict>)
    ensures r.Ok? <==> forall i :: 0 <= i < |p| ==> DfUtils.Found(columns, p[i].0) != []
    decreases |p|
  {
    if |p| == 0 then Ok([])
    else
      var n := |p| - 1;
      var prev := Rename(columns, p[..n]);
      assert forall i :: 0 <= i < n ==> p[..n][i] == p[i];
      if prev.Err? then prev
      else
        var found := DfUtils.Found(columns, p[n].0);
        if |found| == 0 then Err("IndexError: list index out of range")
        else Ok(Put(prev.value, found[0], p[n].1))
  }

  /** The row written for an accepted sample: each result column's value, `None` (NaN)
      where no parameter was renamed to it. */
  function RowOf(columns: seq<string>, renamed: Dict): (row: seq<Cell>)
    ensures |row| == |columns|
    ensures forall j :: 0 <= j < |columns| ==>
      row[j] == (if Get(renamed, columns[j]).Some? then Num(Get(renamed, columns[j]).value) else Missing)
  {
    seq(|columns|, j requires 0 <= j < |columns| =>
      if Get(renamed, columns[j]).Some? then Num(Get(renamed, columns[j]).value) else Missing)
  }

  /** The sample's predicted MSE; `None` stands for the infinity numpy returns for a zero ROP. */
  function SampleMse(p: Dict, rop: real): Option<real>
    requires Get(p, "wob").Some? && Get(p, "rpm").Some? && Get(p, "torque").Some?
  {
    Drilling.ComputeMse(Get(p, "wob").value, Get(p, "rpm").value, Get(p, "torque").value, rop, Drilling.BitDiameter)
  }

  /** The acceptance test and, for an accepted sample, its row: `mse_tolerance` must be
      a number, and the sample's parameters are renamed to the frame's columns. */
  function Judge(f: Frame, features: seq<string>, tolerance: Option<real>, q: Dict,
                 mse: Option<real>, mseMin: Option<real>): (r: Result<Step>)
    ensures tolerance.None? ==> r.Err?
    ensures r.Ok? ==> !r.value.Stop?
    ensures r.Ok? && r.value.Accept? ==> tolerance.Some? && Accepted(mse, mseMin, tolerance.value)
    ensures r.Ok? && r.value.Accept? ==> |r.value.row| == |ResultColumns(f, features)|
    ensures r.Ok? && r.value.Reject? <==> tolerance.Some? && !Accepted(mse, mseMin, tolerance.value)
  {
    var tol :- tolerance.ToResult("TypeError: unsupported operand type(s) for +: 'int' and 'NoneType'");
    if !Accepted(mse, mseMin, tol) then Ok(Reject)
    else
      var renamed :- Rename(f.columns, Put(Put(q, "mse", mse.value), "mse_min", mseMin.value));
      Ok(Accept(RowOf(ResultColumns(f, features), renamed)))
  }

  /** From the parameters with the predicted ROP: the MSE of the sample, the cluster's
      minimum MSE, then the acceptance test. */
  function Score(f: Frame, features: seq<string>, tolerance: Option<real>, cluster: real,
                 q: Dict, rop: real): (r: Result<Step>)
    requires WellFormed(f)
    ensures r.Ok? ==> Get(q, "wob").Some? && Get(q, "rpm").Some? && Get(q, "torque").Some?
    ensures r.Ok? ==> MseMinOf(f, cluster).Ok?
    ensures r.Ok? ==> r == Judge(f, features, tolerance, q, SampleMse(q, rop), MseMinOf(f, cluster).value)
  {
    var wob :- Get(q, "wob").ToResult("KeyError: 'wob'");
    var rpm :- Get(q, "rpm").ToResult("KeyError: 'rpm'");
    var torque :- Get(q, "torque").ToResult("KeyError: 'torque'");
    var mse := SampleMse(q, rop);
    var mseMin :- MseMinOf(f, cluster);
    Judge(f, features, tolerance, q, mse, mseMin)
  }

  /** The second half of an iteration, from the sampled parameters: the feature
      vector (or the `break`), the prediction, then the scoring. */
  function Evaluate(f: Frame, features: seq<string>, tolerance: Option<real>,
                    predict: (real, seq<real>) -> real, cluster: real, p: Dict): (r: Result<Step>)
    requires WellFormed(f)
  {
    match Features(p, features)
    case None => Ok(Stop)
    case Some(x) =>
      var rop := predict(cluster, x);
      Score(f, features, tolerance, cluster, Put(p, "rop", rop), rop)
  }

  /** A sample is accepted only when its predicted MSE, computed from the drawn WOB, RPM
      and torque and the ROP the model predicts for its features, is at most the
      cluster's minimum MSE times one plus the tolerance; its row has one cell per result
      column. A missing feature is the `break`. */
  lemma EvaluateAccepted(f: Frame, features: seq<string>, tolerance: Option<real>,
                         predict: (real, seq<real>) -> real, cluster: real, p: Dict)
    requires WellFormed(f)
    ensures Evaluate(f, features, tolerance, predict, cluster, p) == Ok(Stop) <==> Features(p, features).None?
    ensures
      var r := Evaluate(f, features, tolerance, predict, cluster, p);
      r.Ok? && r.value.Accept? ==>
        var x := Features(p, features).value;
        var q := Put(p, "rop", predict(cluster, x));
        tolerance.Some? && Get(q, "wob").Some? && Get(q, "rpm").Some? && Get(q, "torque").Some? &&
        MseMinOf(f, cluster).Ok? &&
        Accepted(SampleMse(q, predict(cluster, x)), MseMinOf(f, cluster).value, tolerance.value) &&
        |r.value.row| == |ResultColumns(f, features)|
  {
    match Features(p, features)
    case None =>
    case Some(x) =>
      var q := Put(p, "rop", predict(cluster, x));
      var r := Score(f, features, tolerance, cluster, q, predict(cluster, x));
      assert Evaluate(f, features, tolerance, predict, cluster, p) == r;
  }

  /** Without a tolerance the acceptance test raises: an iteration either stops at a
      missing feature or fails, so no sample is ever accepted or rejected. */
  lemma NoToleranceNoAccept(f: Frame, features: seq<string>, predict: (real, seq<real>) -> real,
                            cluster: real, p: Dict)
    requires WellFormed(f)
    ensures Evaluate(f, features, None, predict, cluster, p).Ok? ==>
      Evaluate(f, features, None, predict, cluster, p).value.Stop?
  {
  }

  /** The body of the inner loop of `monte_carlo_optimization` for one cluster label. */
  function IterationOutcome(f: Frame, features: seq<string>, bounds: Bounds, tolerance: Option<real>,
                            predict: (real, seq<real>) -> real, cluster: real, d: Draws): (r: Result<Step>)
    requires WellFormed(f) && Shaped(bounds, d)
    ensures r.Ok? && r.value.Accept? ==> |r.value.row| == |ResultColumns(f, features)|
  {
    var p :- SampleParams(f, bounds, cluster, d);
    Evaluate(f, features, tolerance, predict, cluster, p)
  }

  /** `mu` is always computed from the drawn WOB and torque, whatever the bounds say
      about `mu` itself; the rock components are stored under their mnemonics and add
      up to 100. */
  lemma SampledParamsHold(f: Frame, bounds: Bounds, cluster: real, d: Draws)
    requires WellFormed(f) && Shaped(bounds, d)
    requires SampleParams(f, bounds, cluster, d).Ok?
    ensures
      var p0 := DrawParams(bounds, d.params);
      Get(p0, "wob").Some? && Get(p0, "torque").Some? &&
      Get(SampleParams(f, bounds, cluster, d).value, "mu")
        == Drilling.ComputeMu(Get(p0, "wob").value, Get(p0, "torque").value, Drilling.BitDiameter)
    ensures
      var rock := SampleRockComponents(f, cluster, RockMnemonics, d.rock);
      rock.Ok? && Stats.Sum(rock.value) == 100.0 &&
      forall i :: 0 <= i < |RockMnemonics| ==>
        Get(SampleParams(f, bounds, cluster, d).value, RockMnemonics[i]) == Some(rock.value[i])
  {
    var p0 := DrawParams(bounds, d.params);
    var mu := Drilling.ComputeMu(Get(p0, "wob").value, Get(p0, "torque").value, Drilling.BitDiameter).value;
    var rock := SampleRockComponents(f, cluster, RockMnemonics, d.rock).value;
    AssembleHoldsMu(p0, mu, rock, cluster);
    forall i | 0 <= i < |RockMnemonics|
      ensures Get(Assemble(p0, mu, rock, cluster), RockMnemonics[i]) == Some(rock[i])
    {
      AssembleHoldsRock(p0, mu, rock, cluster, i);
    }
    SampleRockSum(f, cluster, RockMnemonics, d.rock);
  }

  // ----- the loops of monte_carlo_optimization -----

  /** Prefix a list of rows onto a result that may have failed. */
  function Then(rows: seq<seq<Cell>>, r: Result<seq<seq<Cell>>>): Result<seq<seq<Cell>>> {
    match r
    case Ok(v) => Ok(rows + v)
    case Err(e) => Err(e)
  }

  /** The iteration body for one cluster label, as a function of the iteration's draws;
      draws that do not fit the bounds are refused. */
  function Iteration(f: Frame, features: seq<string>, bounds: Bounds, tolerance: Option<real>,
                     predict: (real, seq<real>) -> real, cluster: real): Draws -> Result<Step>
    requires WellFormed(f)
  {
    (d: Draws) =>
      if Shaped(bounds, d) then IterationOutcome(f, features, bounds, tolerance, predict, cluster, d)
      else Err("ValueError: the draws do not fit the bounds")
  }

  /** The iteration body for every cluster label. */
  function Runner(f: Frame, features: seq<string>, bounds: Bounds, tolerance: Option<real>,
                  predict: (real, seq<real>) -> real): real -> (Draws -> Result<Step>)
    requires WellFormed(f)
  {
    (cluster: real) => Iteration(f, features, bounds, tolerance, predict, cluster)
  }

  /** The outcomes of a cluster's iterations, one per draw. */
  function StepsOf(outcome: Draws -> Result<Step>, ds: seq<Draws>): (r: seq<Result<Step>>)
    ensures |r| == |ds|
    ensures forall t :: 0 <= t < |ds| ==> r[t] == outcome(ds[t])
  {
    seq(|ds|, t requires 0 <= t < |ds| => outcome(ds[t]))
  }

  /** The inner loop over a cluster's iterations: accepted rows in order, up to the first
      `break`; the first failure stops everything. */
  function Gather(steps: seq<Result<Step>>): (r: Result<seq<seq<Cell>>>)
    decreases |steps|
  {
    if |steps| == 0 then Ok([])
    else
      match steps[0]
      case Err(e) => Err(e)
      case Ok(Stop) => Ok([])
      case Ok(Reject) => Gather(steps[1..])
      case Ok(Accept(row)) => Then([row], Gather(steps[1..]))
  }

  /** Every gathered row is the row of an accepted iteration, so a cluster yields at most
      one row per iteration. */
  lemma {:induction false} GatherAccepted(steps: seq<Result<Step>>)
    requires Gather(steps).Ok?
    ensures |Gather(steps).value| <= |steps|
    ensures forall i :: 0 <= i < |Gather(steps).value| ==>
      exists t :: 0 <= t < |steps| && steps[t] == Ok(Accept(Gather(steps).value[i]))
    decreases |steps|
  {
    if |steps| > 0 && steps[0] != Ok(Stop) {
      var rest := Gather(steps[1..]).value;
      GatherAccepted(steps[1..]);
      var rows := Gather(steps).value;
      forall i | 0 <= i < |rows|
        ensures exists t :: 0 <= t < |steps| && steps[t] == Ok(Accept(rows[i]))
      {
        if steps[0].value.Accept? && i == 0 {
          assert steps[0] == Ok(Accept(rows[0]));
        } else {
          var k := if steps[0].value.Accept? then i - 1 else i;
          assert rows[i] == rest[k];
          var t :| 0 <= t < |steps[1..]| && steps[1..][t] == Ok(Accept(rest[k]));
          assert steps[t + 1] == Ok(Accept(rows[i]));
        }
      }
    }
  }

  /** A `break` ends the cluster: the iterations after the first one whose features are
      missing contribute nothing. */
  lemma {:induction false} GatherStops(steps: seq<Result<Step>>, t: nat)
    requires t < |steps| && steps[t] == Ok(Stop)
    requires forall s :: 0 <= s < t ==> steps[s].Ok?
    ensures Gather(steps) == Gather(steps[..t])
    decreases t
  {
    if t > 0 {
      assert steps[1..][..t - 1] == steps[..t][1..];
      GatherStops(steps[1..], t - 1);
    }
  }

  /** The rows gathered for the clusters in order, each from its own iterations. */
  function AllRows(run: real -> (Draws -> Result<Step>), labels: seq<Cell>, draws: seq<seq<Draws>>): (r: Result<seq<seq<Cell>>>)
    requires |labels| == |draws|
    decreases |labels|
  {
    if |labels| == 0 then Ok([])
    else if !labels[0].Num? then Err("TypeError: non-numeric cluster label")
    else
      var rows :- Gather(StepsOf(run(labels[0].v), draws[0]));
      Then(rows, AllRows(run, labels[1..], draws[1..]))
  }

  /** Every row of the result is the row of an accepted iteration of one of the clusters,
      and there are at most as many rows as iterations. */
  lemma {:induction false} AllRowsAccepted(run: real -> (Draws -> Result<Step>), labels: seq<Cell>, draws: seq<seq<Draws>>)
    requires |labels| == |draws| && AllRows(run, labels, draws).Ok?
    ensures |AllRows(run, labels, draws).value| <= TotalIterations(draws)
    ensures forall i :: 0 <= i < |AllRows(run, labels, draws).value| ==>
      exists c, t :: 0 <= c < |labels| && 0 <= t < |draws[c]| && labels[c].Num? &&
        run(labels[c].v)(draws[c][t]) == Ok(Accept(AllRows(run, labels, draws).value[i]))
    decreases |labels|
  {
    if |labels| > 0 {
      var steps := StepsOf(run(labels[0].v), draws[0]);
      var first := Gather(steps).value;
      var rest := AllRows(run, labels[1..], draws[1..]).value;
      GatherAccepted(steps);
      AllRowsAccepted(run, labels[1..], draws[1..]);
      assert draws[1..] == draws[1..|draws|];
      var rows := AllRows(run, labels, draws).value;
      assert rows == first + rest;
      forall i | 0 <= i < |rows|
        ensures
          exists c, t :: 0 <= c < |labels| && 0 <= t < |draws[c]| && labels[c].Num? &&
            run(labels[c].v)(draws[c][t]) == Ok(Accept(rows[i]))
      {
        if i < |first| {
          var t :| 0 <= t < |steps| && steps[t] == Ok(Accept(first[i]));
          assert run(labels[0].v)(draws[0][t]) == Ok(Accept(rows[i]));
        } else {
          assert rows[i] == rest[i - |first|];
          var c, t :| 0 <= c < |labels[1..]| && 0 <= t < |draws[1..][c]| && labels[1..][c].Num? &&
            run(labels[1..][c].v)(draws[1..][c][t]) == Ok(Accept(rest[i - |first|]));
          assert run(labels[c + 1].v)(draws[c + 1][t]) == Ok(Accept(rows[i]));
        }
      }
    }
  }

  /** `len(unique clusters) * iterations` when every cluster gets the same number of iterations. */
  function TotalIterations(draws: seq<seq<Draws>>): nat {
    if |draws| == 0 then 0 else |draws[0]| + TotalIterations(draws[1..])
  }

  /** The cluster labels in order of first appearance, `df['cluster'].unique()`. */
  function Labels(f: Frame): (r: Result<seq<Cell>>)
    requires WellFormed(f)
    ensures r.Ok? <==> "cluster" in f.columns
  {
    var k :- ColumnIndex(f.columns, "cluster").ToResult("KeyError: 'cluster'");
    Ok(Unique(Column(f, k)))
  }

  /** `monte_carlo_optimization(df, X_mnemonics, scalers_best_models, bounds, mse_tolerance, iterations)`
      with `draws[c]` the draws of the iterations of the c-th cluster label. */
  function MonteCarloSpec(f: Frame, features: seq<string>, bounds: Bounds, tolerance: Option<real>,
                          predict: (real, seq<real>) -> real, draws: seq<seq<Draws>>): (r: Result<Frame>)
    requires WellFormed(f)
    requires Labels(f).Ok? ==> |draws| == |Labels(f).value|
  {
    var labels :- Labels(f);
    var rows :- AllRows(Runner(f, features, bounds, tolerance, predict), labels, draws);
    Ok(Frame(ResultColumns(f, features), rows))
  }

  /** An accepted iteration of any cluster comes from sampled parameters whose
      evaluation accepted the sample. */
  lemma RunAccepted(f: Frame, features: seq<string>, bounds: Bounds, tolerance: Option<real>,
                    predict: (real, seq<real>) -> real, cluster: real, d: Draws, row: seq<Cell>)
    requires WellFormed(f)
    requires Runner(f, features, bounds, tolerance, predict)(cluster)(d) == Ok(Accept(row))
    ensures Shaped(bounds, d) && SampleParams(f, bounds, cluster, d).Ok?
    ensures Evaluate(f, features, tolerance, predict, cluster, SampleParams(f, bounds, cluster, d).value) == Ok(Accept(row))
  {
  }

  /** An accepted row has one cell per result column, and acceptance needs a tolerance. */
  lemma AcceptedRow(f: Frame, features: seq<string>, bounds: Bounds, tolerance: Option<real>,
                    predict: (real, seq<real>) -> real, cluster: real, d: Draws, row: seq<Cell>)
    requires WellFormed(f)
    requires Runner(f, features, bounds, tolerance, predict)(cluster)(d) == Ok(Accept(row))
    ensures |row| == |ResultColumns(f, features)| && tolerance.Some?
  {
    RunAccepted(f, features, bounds, tolerance, predict, cluster, d, row);
    EvaluateAccepted(f, features, tolerance, predict, cluster, SampleParams(f, bounds, cluster, d).value);
  }

  /** The result frame has the feature columns followed by the four result columns, one
      cell per column in every row, at most one row per iteration; and without a
      tolerance it has no rows at all, since the acceptance test raises. */
  lemma MonteCarloResult(f: Frame, features: seq<string>, bounds: Bounds, tolerance: Option<real>,
                         predict: (real, seq<real>) -> real, draws: seq<seq<Draws>>)
    requires WellFormed(f)
    requires Labels(f).Ok? ==> |draws| == |Labels(f).value|
    requires MonteCarloSpec(f, features, bounds, tolerance, predict, draws).Ok?
    ensures
      var g := MonteCarloSpec(f, features, bounds, tolerance, predict, draws).value;
      g.columns == ResultColumns(f, features) && WellFormed(g) && |g.rows| <= TotalIterations(draws)
    ensures tolerance.None? ==> MonteCarloSpec(f, features, bounds, tolerance, predict, draws).value.rows == []
  {
    var run := Runner(f, features, bounds, tolerance, predict);
    var labels := Labels(f).value;
    var rows := AllRows(run, labels, draws).value;
    AllRowsAccepted(run, labels, draws);
    forall i | 0 <= i < |rows|
      ensures |rows[i]| == |ResultColumns(f, features)| && tolerance.Some?
    {
      var c, t :| 0 <= c < |labels| && 0 <= t < |draws[c]| && labels[c].Num? &&
        run(labels[c].v)(draws[c][t]) == Ok(Accept(rows[i]));
      AcceptedRow(f, features, bounds, tolerance, predict, labels[c].v, draws[c][t], rows[i]);
    }
    if |rows| > 0 {
      assert tolerance.Some? by {
        assert |rows[0]| == |ResultColumns(f, features)| && tolerance.Some?;
      }
    }
  }

  /** The rows of one cluster, gathered by the inner loop with its `break`. */
  method ClusterLoop(outcome: Draws -> Result<Step>, ds: seq<Draws>) returns (r: Result<seq<seq<Cell>>>)
    ensures r == Gather(StepsOf(outcome, ds))
  {
    ghost var steps := StepsOf(outcome, ds);
    var rows: seq<seq<Cell>> := [];
    var t := 0;
    assert steps[0..] == steps;
    ThenEmpty(Gather(steps));
    while t < |ds|
      invariant 0 <= t <= |ds|
      invariant Gather(steps) == Then(rows, Gather(steps[t..]))
    {
      assert steps[t..][1..] == steps[t + 1..];
      var step := outcome(ds[t]);
      assert steps[t..][0] == step;
      if step.Err? {
        return Err(step.error);
      }
      if step.value.Stop? {
        assert rows + [] == rows;
        break;
      }
      if step.value.Accept? {
        ThenAssociates(rows, [step.value.row], Gather(steps[t + 1..]));
        rows := rows + [step.value.row];
      }
      t := t + 1;
    }
    if t == |ds| {
      assert steps[t..] == [];
      assert rows + [] == rows;
    }
    return Ok(rows);
  }

  lemma ThenEmpty(r: Result<seq<seq<Cell>>>)
    ensures Then([], r) == r
  {
    if r.Ok? {
      assert [] + r.value == r.value;
    }
  }

  lemma ThenAssociates(a: seq<seq<Cell>>, b: seq<seq<Cell>>, r: Result<seq<seq<Cell>>>)
    ensures Then(a, Then(b, r)) == Then(a + b, r)
  {
    if r.Ok? {
      assert a + (b + r.value) == (a + b) + r.value;
    }
  }

  /** The outer loop over the cluster labels. */
  method ClustersLoop(run: real -> (Draws -> Result<Step>), labels: seq<Cell>, draws: seq<seq<Draws>>)
    returns (r: Result<seq<seq<Cell>>>)
    requires |labels| == |draws|
    ensures r == AllRows(run, labels, draws)
  {
    var results: seq<seq<Cell>> := [];
    var c := 0;
    assert labels[0..] == labels && draws[0..] == draws;
    ThenEmpty(AllRows(run, labels, draws));
    while c < |labels|
      invariant 0 <= c <= |labels|
      invariant AllRows(run, labels, draws) == Then(results, AllRows(run, labels[c..], draws[c..]))
    {
      assert labels[c..][1..] == labels[c + 1..] && draws[c..][1..] == draws[c + 1..];
      if !labels[c].Num? {
        return Err("TypeError: non-numeric cluster label");
      }
      var rows := ClusterLoop(run(labels[c].v), draws[c]);
      if rows.Err? {
        return Err(rows.error);
      }
      ThenAssociates(results, rows.value, AllRows(run, labels[c + 1..], draws[c + 1..]));
      results := results + rows.value;
      c := c + 1;
    }
    assert labels[c..] == [];
    assert results + [] == results;
    return Ok(results);
  }

  /** `monte_carlo_optimization`, proved against `MonteCarloSpec`. */
  method MonteCarloOptimization(f: Frame, features: seq<string>, bounds: Bounds, tolerance: Option<real>,
                                predict: (real, seq<real>) -> real, draws: seq<seq<Draws>>)
    returns (r: Result<Frame>)
    requires WellFormed(f)
    requires Labels(f).Ok? ==> |draws| == |Labels(f).value|
    ensures r == MonteCarloSpec(f, features, bounds, tolerance, predict, draws)
  {
    var columns := ResultColumns(f, features);
    var labels := Labels(f);
    if labels.Err? {
      return Err(labels.error);
    }
    var rows := ClustersLoop(Runner(f, features, bounds, tolerance, predict), labels.value, draws);
    if rows.Err? {
      return Err(rows.error);
    }
    return Ok(Frame(columns, rows.value));
  }
}
