/** The multi-start variant of the MSE search,
    `src/optimize_for_mse_min/optimize_for_mse_min_multi_start.py`: lower bounds are floored at
    0.0001 instead of 1, the objective carries a single 1000 penalty for WOB <= 0.1, the solver
    is constrained by WOB >= 1 and torque >= 5 only, each start runs the solver repeatedly from
    one and the same starting point, and the filtered pairs of all starts are pooled. */
module OptimizeMultiStart {
  import opened Wrappers
  import opened Frames
  import Drilling
  import Stats
  import Text
  import opened OptimizeMseMin

  /** The lower-bound floor of this file. */
  const Floor: real := 0.0001

  /** `get_random_initial_guess` of this file. */
  method GetRandomInitialGuess(box: Box, mnemonics: seq<string>, us: seq<real>) returns (r: Result<seq<real>>)
    requires |us| == |mnemonics| && Covers(box, mnemonics)
    ensures r == InitialGuess(box, mnemonics, us, Floor)
    ensures r.Ok? ==> forall i :: 0 <= i < |mnemonics| && !IsLithology(mnemonics[i]) ==>
      r.value[i] == Draw(box, mnemonics[i], us[i], Floor)
  {
    r := OptimizeMseMin.GetRandomInitialGuess(box, mnemonics, us, Floor);
  }

  /** With non-empty intervals every non-lithology entry is drawn from [max(low, 0.0001), high],
      and the lithology entries sum to 100. */
  lemma GuessWithinAndNormalised(box: Box, mnemonics: seq<string>, us: seq<real>)
    requires |us| == |mnemonics| && Covers(box, mnemonics) && UnitDraws(us)
    requires forall i :: 0 <= i < |mnemonics| ==> Larger(box[mnemonics[i]].0, Floor) <= box[mnemonics[i]].1
    ensures InitialGuess(box, mnemonics, us, Floor).Ok?
    ensures forall i :: 0 <= i < |mnemonics| && !IsLithology(mnemonics[i]) ==>
      Larger(box[mnemonics[i]].0, Floor) <= InitialGuess(box, mnemonics, us, Floor).value[i] <= box[mnemonics[i]].1
    ensures |LithologyIndices(mnemonics)| > 0 ==>
      SumAt(InitialGuess(box, mnemonics, us, Floor).value, LithologyIndices(mnemonics)) == 100.0
  {
    GuessDefined(box, mnemonics, us, Floor);
    forall i | 0 <= i < |mnemonics|
      ensures Larger(box[mnemonics[i]].0, Floor) <= Draw(box, mnemonics[i], us[i], Floor)
    {
      Stats.Lerp(Larger(box[mnemonics[i]].0, Floor), box[mnemonics[i]].1, us[i]);
    }
    if |LithologyIndices(mnemonics)| > 0 {
      GuessLithologySum(box, mnemonics, us, Floor);
    }
  }

  /** The penalty of this file: 1000 when WOB is at most 0.1, nothing otherwise. */
  function MultiStartPenalty(wob: real, torque: real, mu: real): (p: real)
    ensures p == 1000.0 <==> wob <= 0.1
    ensures p == 0.0 <==> wob > 0.1
  {
    if wob > 0.1 then 0.0 else 1000.0
  }

  /** `objective_function(params)` of this file: Mu is overwritten from WOB and torque first. */
  method Objective(params: array<real>, mnemonics: seq<string>, predict: seq<real> -> real) returns (r: Result<real>)
    requires params.Length == |mnemonics|
    modifies params
    ensures r == ObjectiveValue(old(params[..]), mnemonics, predict, MultiStartPenalty)
    ensures params[..] == match MuWritten(old(params[..]), mnemonics)
                          case Ok(q) => q
                          case Err(_) => old(params[..])
  {
    r := OptimizeMseMin.Objective(params, mnemonics, predict, MultiStartPenalty);
  }

  /** The objective exceeds the MSE by exactly 1000 when WOB <= 0.1 and equals it otherwise. */
  lemma ObjectivePenalty(p: seq<real>, mnemonics: seq<string>, predict: seq<real> -> real)
    requires |p| == |mnemonics| && ObjectiveValue(p, mnemonics, predict, MultiStartPenalty).Ok?
    ensures var q := MuWritten(p, mnemonics).value;
      var sl := ObjectiveSlots(mnemonics).value;
      var mse := Drilling.ComputeMse(q[sl.wob], q[sl.rpm], q[sl.torque], predict(q), Drilling.BitDiameter).value;
      var obj := ObjectiveValue(p, mnemonics, predict, MultiStartPenalty).value;
      q[sl.wob] == p[sl.wob] &&
      (p[sl.wob] > 0.1 ==> obj == mse) && (p[sl.wob] <= 0.1 ==> obj == mse + 1000.0)
  {
    var sl := ObjectiveSlots(mnemonics).value;
    assert sl.wob != sl.mu by {
      assert Text.Lower(mnemonics[sl.wob]) == "wob" && Text.Lower(mnemonics[sl.mu]) == "mu";
    }
  }

  /** The constraints of this file's `minimize_objective_function`: WOB >= 1 and torque >= 5. */
  function MultiStartConstraints(mnemonics: seq<string>): (r: Result<seq<Constraint>>)
    ensures r.Ok? <==> "WOB" in mnemonics && "TORQUE" in mnemonics
    ensures r.Ok? ==> |r.value| == 2
  {
    match (ColumnIndex(mnemonics, "WOB"), ColumnIndex(mnemonics, "TORQUE"))
    case (Some(w), Some(t)) => Ok([AtLeast(w, 1.0), AtLeast(t, 5.0)])
    case _ => Err("ValueError: is not in list")
  }

  /** The feasible set is WOB >= 1 and torque >= 5, nothing about Mu. */
  lemma MultiStartFeasible(mnemonics: seq<string>, x: seq<real>)
    requires MultiStartConstraints(mnemonics).Ok? && |x| == |mnemonics|
    ensures var w := ColumnIndex(mnemonics, "WOB").value;
      var t := ColumnIndex(mnemonics, "TORQUE").value;
      (forall c | c in MultiStartConstraints(mnemonics).value :: Satisfies(x, c)) <==> x[w] >= 1.0 && x[t] >= 5.0
  {
    var w := ColumnIndex(mnemonics, "WOB").value;
    var t := ColumnIndex(mnemonics, "TORQUE").value;
    var cs := MultiStartConstraints(mnemonics).value;
    assert cs == [AtLeast(w, 1.0), AtLeast(t, 5.0)];
    assert (forall c | c in cs :: Satisfies(x, c)) <==> Satisfies(x, cs[0]) && Satisfies(x, cs[1]);
  }

  /** `iterations` solver calls, all from the same starting point. */
  function Repeated(guess: seq<real>, iterations: nat, solve: seq<real> -> Solution): (rs: seq<Solution>)
    ensures |rs| == iterations && forall k :: 0 <= k < iterations ==> rs[k] == solve(guess)
  {
    seq(iterations, _ => solve(guess))
  }

  /** One more iteration adds one more result from the same starting point. */
  lemma RepeatedSnoc(guess: seq<real>, k: nat, solve: seq<real> -> Solution)
    ensures Repeated(guess, k + 1, solve) == Repeated(guess, k, solve) + [solve(guess)]
  {
  }

  /** What `monte_carlo_optimization(..., iterations, initial_guess)` of this file returns:
      the first iteration looks up 'WOB' and 'TORQUE' by exact name and raises ValueError
      without them, then has the solver evaluate the objective, which raises IndexError
      without a mnemonic lower-casing to each of wob, rpm, torque and mu; otherwise the
      percentile filter of the repeated solver results. */
  function Trials(mnemonics: seq<string>, guess: seq<real>, iterations: nat,
                  solve: seq<real> -> Solution): (r: Result<seq<Solution>>)
    ensures iterations > 0 && MultiStartConstraints(mnemonics).Err? ==> r == Err(MultiStartConstraints(mnemonics).error)
    ensures iterations > 0 && MultiStartConstraints(mnemonics).Ok? && ObjectiveSlots(mnemonics).Err? ==>
      r == Err(ObjectiveSlots(mnemonics).error)
    ensures !(iterations > 0 && Prepared(MultiStartConstraints(mnemonics), mnemonics).Err?) ==>
      r == LowMse(Repeated(guess, iterations, solve))
  {
    if iterations > 0 && Prepared(MultiStartConstraints(mnemonics), mnemonics).Err? then
      Err(Prepared(MultiStartConstraints(mnemonics), mnemonics).error)
    else LowMse(Repeated(guess, iterations, solve))
  }

  /** `monte_carlo_optimization(..., iterations, initial_guess)` of this file: every iteration
      builds the constraints and calls the solver from the given starting point, which
      first evaluates the objective and its look-ups, then the percentile filter. */
  method MonteCarloOptimization(mnemonics: seq<string>, guess: seq<real>, iterations: nat, solve: seq<real> -> Solution)
    returns (r: Result<seq<Solution>>)
    ensures r == Trials(mnemonics, guess, iterations, solve)
  {
    var results: seq<Solution> := [];
    for k := 0 to iterations
      invariant results == Repeated(guess, k, solve)
      invariant k > 0 ==> Prepared(MultiStartConstraints(mnemonics), mnemonics).Ok?
    {
      var constraints := MultiStartConstraints(mnemonics);
      if constraints.Err? {
        return Err(constraints.error);
      }
      var slots := ObjectiveSlots(mnemonics);
      if slots.Err? {
        return Err(slots.error);
      }
      RepeatedSnoc(guess, k, solve);
      results := results + [solve(guess)];
    }
    r := LowMse(results);
  }

  /** With one starting point the results are all equal, so the percentile is that value and
      the filter keeps every iteration. */
  lemma RepeatedAllKept(guess: seq<real>, iterations: nat, solve: seq<real> -> Solution)
    requires iterations > 0
    ensures LowMse(Repeated(guess, iterations, solve)) == Ok(Repeated(guess, iterations, solve))
  {
    var rs := Repeated(guess, iterations, solve);
    var v := solve(guess).fun;
    var funs := Funs(rs);
    assert funs[0] == v;
    Stats.QuantileBetween(funs, 0.1);
    assert Stats.MinOf(funs) == v && Stats.MaxOf(funs) == v;
    FilterKeepsAll(rs, AtMost(Threshold(rs)));
  }

  /** The pooled pairs of the first `|draws|` starts, one list of unit draws per start. */
  function Pool(box: Box, mnemonics: seq<string>, draws: seq<seq<real>>, iterations: nat,
                solve: seq<real> -> Solution): Result<seq<Solution>>
    requires Covers(box, mnemonics) && forall k :: 0 <= k < |draws| ==> |draws[k]| == |mnemonics|
    decreases |draws|
  {
    if |draws| == 0 then Ok([])
    else
      var n := |draws| - 1;
      var earlier :- Pool(box, mnemonics, draws[..n], iterations, solve);
      var guess :- InitialGuess(box, mnemonics, draws[n], Floor);
      var kept :- Trials(mnemonics, guess, iterations, solve);
      Ok(earlier + kept)
  }

  /** `multi_start_optimization`: for every start a fresh starting point, its filtered pairs
      appended to the pool. */
  method MultiStartOptimization(box: Box, mnemonics: seq<string>, draws: seq<seq<real>>, iterations: nat,
                                solve: seq<real> -> Solution) returns (r: Result<seq<Solution>>)
    requires Covers(box, mnemonics) && forall k :: 0 <= k < |draws| ==> |draws[k]| == |mnemonics|
    ensures r == Pool(box, mnemonics, draws, iterations, solve)
  {
    var all: seq<Solution> := [];
    for s := 0 to |draws|
      invariant Pool(box, mnemonics, draws[..s], iterations, solve) == Ok(all)
    {
      PoolNext(box, mnemonics, draws, iterations, solve, s);
      var guess := GetRandomInitialGuess(box, mnemonics, draws[s]);
      if guess.Err? {
        PoolErrorPersists(box, mnemonics, draws, iterations, solve, s + 1);
        return Err(guess.error);
      }
      var kept := MonteCarloOptimization(mnemonics, guess.value, iterations, solve);
      if kept.Err? {
        PoolErrorPersists(box, mnemonics, draws, iterations, solve, s + 1);
        return Err(kept.error);
      }
      all := all + kept.value;
    }
    assert draws[..|draws|] == draws;
    return Ok(all);
  }

  /** The pool of one more start: the earlier pool's error, that start's error, or the
      earlier pool followed by that start's pairs. */
  lemma PoolNext(box: Box, mnemonics: seq<string>, draws: seq<seq<real>>, iterations: nat,
                 solve: seq<real> -> Solution, s: nat)
    requires Covers(box, mnemonics) && forall k :: 0 <= k < |draws| ==> |draws[k]| == |mnemonics|
    requires s < |draws|
    ensures var earlier := Pool(box, mnemonics, draws[..s], iterations, solve);
      var guess := InitialGuess(box, mnemonics, draws[s], Floor);
      Pool(box, mnemonics, draws[..s + 1], iterations, solve) ==
        if earlier.Err? then earlier
        else if guess.Err? then Err(guess.error)
        else match Trials(mnemonics, guess.value, iterations, solve)
          case Err(e) => Err(e)
          case Ok(kept) => Ok(earlier.value + kept)
  {
    assert draws[..s + 1][..s] == draws[..s];
  }

  /** A failing start ends the pooling with its error. */
  lemma {:induction false} PoolErrorPersists(box: Box, mnemonics: seq<string>, draws: seq<seq<real>>, iterations: nat,
                                             solve: seq<real> -> Solution, n: nat)
    requires Covers(box, mnemonics) && forall k :: 0 <= k < |draws| ==> |draws[k]| == |mnemonics|
    requires n <= |draws| && Pool(box, mnemonics, draws[..n], iterations, solve).Err?
    ensures Pool(box, mnemonics, draws, iterations, solve) == Pool(box, mnemonics, draws[..n], iterations, solve)
    decreases |draws| - n
  {
    if n < |draws| {
      assert draws[..n + 1][..n] == draws[..n];
      PoolErrorPersists(box, mnemonics, draws, iterations, solve, n + 1);
    } else {
      assert draws[..n] == draws;
    }
  }

  /** Without 'WOB' or 'TORQUE' spelled exactly so, pooling at least one start of at least
      one iteration fails. */
  lemma PoolNeedsExactNames(box: Box, mnemonics: seq<string>, draws: seq<seq<real>>, iterations: nat,
                            solve: seq<real> -> Solution)
    requires Covers(box, mnemonics) && forall k :: 0 <= k < |draws| ==> |draws[k]| == |mnemonics|
    requires |draws| > 0 && iterations > 0 && ("WOB" !in mnemonics || "TORQUE" !in mnemonics)
    ensures Pool(box, mnemonics, draws, iterations, solve).Err?
  {
  }

  /** Without a mnemonic lower-casing to exactly rpm or mu, the objective's `[0]` fails at
      its first evaluation, so pooling at least one start of at least one iteration fails. */
  lemma PoolNeedsLowerNames(box: Box, mnemonics: seq<string>, draws: seq<seq<real>>, iterations: nat,
                            solve: seq<real> -> Solution)
    requires Covers(box, mnemonics) && forall k :: 0 <= k < |draws| ==> |draws[k]| == |mnemonics|
    requires |draws| > 0 && iterations > 0 && (!HasLower(mnemonics, "rpm") || !HasLower(mnemonics, "mu"))
    ensures Pool(box, mnemonics, draws, iterations, solve).Err?
  {
  }

  /** A successful pool is the earlier pool followed by the last start's repeated results. */
  lemma PoolSnoc(box: Box, mnemonics: seq<string>, draws: seq<seq<real>>, iterations: nat,
                 solve: seq<real> -> Solution)
    requires Covers(box, mnemonics) && forall k :: 0 <= k < |draws| ==> |draws[k]| == |mnemonics|
    requires |draws| > 0 && Pool(box, mnemonics, draws, iterations, solve).Ok?
    ensures var n := |draws| - 1;
      Pool(box, mnemonics, draws[..n], iterations, solve).Ok? && InitialGuess(box, mnemonics, draws[n], Floor).Ok? &&
      iterations > 0 &&
      Pool(box, mnemonics, draws, iterations, solve).value ==
        Pool(box, mnemonics, draws[..n], iterations, solve).value +
        Repeated(InitialGuess(box, mnemonics, draws[n], Floor).value, iterations, solve)
  {
    var n := |draws| - 1;
    var guess := InitialGuess(box, mnemonics, draws[n], Floor).value;
    RepeatedAllKept(guess, iterations, solve);
  }

  /** One start's share of the pool, given that its starting point exists: every look-up
      of the first solver call succeeded and all its results are kept. */
  lemma PoolStep(box: Box, mnemonics: seq<string>, draws: seq<seq<real>>, iterations: nat,
                 solve: seq<real> -> Solution)
    requires Covers(box, mnemonics) && forall k :: 0 <= k < |draws| ==> |draws[k]| == |mnemonics|
    requires |draws| > 0 && Pool(box, mnemonics, draws, iterations, solve).Ok?
    ensures var n := |draws| - 1;
      Pool(box, mnemonics, draws[..n], iterations, solve).Ok? && InitialGuess(box, mnemonics, draws[n], Floor).Ok? &&
      iterations > 0 && MultiStartConstraints(mnemonics).Ok? && ObjectiveSlots(mnemonics).Ok? &&
      Pool(box, mnemonics, draws, iterations, solve).value ==
        Pool(box, mnemonics, draws[..n], iterations, solve).value +
        Repeated(InitialGuess(box, mnemonics, draws[n], Floor).value, iterations, solve)
  {
    PoolSnoc(box, mnemonics, draws, iterations, solve);
  }

  /** `a * b`, as a function so that its unfolding step carries over to call sites. */
  function Times(a: nat, b: nat): nat {
    a * b
  }

  lemma TimesStep(a: nat, b: nat)
    ensures Times(a + 1, b) == Times(a, b) + b
  {
    assert (a + 1) * b == a * b + b;
  }

  /** Every start contributes all its `iterations` pairs, so the pool holds starts x iterations
      pairs. */
  lemma {:induction false} PoolSize(box: Box, mnemonics: seq<string>, draws: seq<seq<real>>, iterations: nat,
                                    solve: seq<real> -> Solution)
    requires Covers(box, mnemonics) && forall k :: 0 <= k < |draws| ==> |draws[k]| == |mnemonics|
    requires Pool(box, mnemonics, draws, iterations, solve).Ok?
    ensures |draws| > 0 ==> iterations > 0
    ensures |Pool(box, mnemonics, draws, iterations, solve).value| == Times(|draws|, iterations)
    decreases |draws|
  {
    if |draws| > 0 {
      var n := |draws| - 1;
      PoolSnoc(box, mnemonics, draws, iterations, solve);
      PoolSize(box, mnemonics, draws[..n], iterations, solve);
      TimesStep(n, iterations);
    }
  }

  /** Each pooled pair is the solver's result from the starting point of one of the starts. */
  lemma {:induction false} PoolMembers(box: Box, mnemonics: seq<string>, draws: seq<seq<real>>, iterations: nat,
                                       solve: seq<real> -> Solution)
    requires Covers(box, mnemonics) && forall k :: 0 <= k < |draws| ==> |draws[k]| == |mnemonics|
    requires Pool(box, mnemonics, draws, iterations, solve).Ok?
    ensures forall p | p in Pool(box, mnemonics, draws, iterations, solve).value ::
      exists s :: 0 <= s < |draws| && InitialGuess(box, mnemonics, draws[s], Floor).Ok? &&
        p == solve(InitialGuess(box, mnemonics, draws[s], Floor).value)
    decreases |draws|
  {
    if |draws| > 0 {
      var n := |draws| - 1;
      PoolSnoc(box, mnemonics, draws, iterations, solve);
      PoolMembers(box, mnemonics, draws[..n], iterations, solve);
      assert forall k :: 0 <= k < n ==> draws[..n][k] == draws[k];
    }
  }

  // ----- the per-cluster summary of `execute_monte_carlo_optimization` -----

  datatype Overview = Overview(minParams: seq<real>, maxParams: seq<real>, minMse: real, maxMse: real)

  /** `min(axis=0)` / `max(axis=0)` over the pooled points and min / max over their values;
      an empty pool has no minimum. */
  function Summarise(pairs: seq<Solution>, n: nat): (r: Result<Overview>)
    requires forall k :: 0 <= k < |pairs| ==> |pairs[k].x| == n
    ensures r.Ok? <==> |pairs| > 0
    ensures r.Ok? ==> |r.value.minParams| == n && |r.value.maxParams| == n
    ensures r.Ok? ==> forall k, i :: 0 <= k < |pairs| && 0 <= i < n ==>
      r.value.minParams[i] <= pairs[k].x[i] <= r.value.maxParams[i]
    ensures r.Ok? ==> forall k :: 0 <= k < |pairs| ==> r.value.minMse <= pairs[k].fun <= r.value.maxMse
  {
    if |pairs| == 0 then Err("ValueError: zero-size array")
    else
      var xs := seq(|pairs|, k requires 0 <= k < |pairs| => pairs[k].x);
      assert forall k, i :: 0 <= k < |pairs| && 0 <= i < n ==> ParamColumn(xs, i)[k] == pairs[k].x[i];
      Ok(Overview(seq(n, i requires 0 <= i < n => Stats.MinOf(ParamColumn(xs, i))),
                 seq(n, i requires 0 <= i < n => Stats.MaxOf(ParamColumn(xs, i))),
                 Stats.MinOf(Funs(pairs)), Stats.MaxOf(Funs(pairs))))
  }

  /** `clusters[int(cluster)] = results`: the raw pooled pairs are stored. */
  function StorePooled(clusters: map<int, ClusterEntry>, cluster: real, pairs: seq<Solution>): (c: map<int, ClusterEntry>)
    ensures Trunc(cluster) in c && c[Trunc(cluster)] == Pooled(pairs)
    ensures forall key | key in clusters && key != Trunc(cluster) :: key in c && c[key] == clusters[key]
  {
    clusters[Trunc(cluster):= Pooled(pairs)]
  }

  /** What this file's `execute_monte_carlo_optimization` stores cannot feed its
      `add_mse_min_to_original_data`, which looks for a `'low_mses'` field: on any frame with a
      row the new column fails. */
  lemma PooledDoesNotCompose(f: Frame, clusters: map<int, ClusterEntry>)
    requires WellFormed(f) && |f.rows| > 0
    requires forall key | key in clusters :: clusters[key].Pooled?
    ensures MseMinColumn(f, clusters).Err?
  {
    match ColumnIndex(f.columns, "cluster")
    case None =>
    case Some(k) =>
      var cells := seq(|f.rows|, i requires 0 <= i < |f.rows| => MseMinCell(f.rows[i][k], clusters));
      assert MseMinColumn(f, clusters) == AllOk(cells);
      assert cells[0].Err?;
  }
}
