/** The Monte Carlo search for low-MSE drilling parameters of
    `src/optimize_for_mse_min/optimize_for_mse_min.py`: random starting points with the
    lithology fractions renormalised, a penalised MSE objective, the 10th-percentile filter
    over the solver's results, the per-parameter ranges of what is kept, the per-cluster
    bounds, and the `MSE_min (ksi)` column. The random generator, the scaler and regressor,
    and the SLSQP solver are inputs: unit draws, a `predict` function and a `solve` function. */
module OptimizeMseMin {
  import opened Wrappers
  import opened Frames
  import Text
  import DfUtils
  import Drilling
  import Stats

  /** Numeric (low, high) bounds per mnemonic, as the optimiser consumes them. */
  type Box = map<string, (real, real)>

  /** The lithology mnemonics, compared after lower-casing. */
  const Lithologies: seq<string> := ["si", "shale", "dolomite", "limestone"]

  predicate IsLithology(mnemonic: string) {
    Text.Lower(mnemonic) in Lithologies
  }

  /** Python's `max(a, b)`. */
  function Larger(a: real, b: real): (m: real)
    ensures m >= a && m >= b && (m == a || m == b)
  {
    if b > a then b else a
  }

  /** `x * c`, kept as a function so that facts about it carry over to call sites. */
  function Scaled(x: real, c: real): real {
    x * c
  }

  // ----- the random starting point -----

  /** `np.random.uniform(low, high)`: numpy returns low + (high - low) * u for a unit draw u. */
  function Uniform(low: real, high: real, u: real): real {
    Stats.Mix(low, high, u)
  }

  predicate UnitDraws(us: seq<real>) {
    forall i :: 0 <= i < |us| ==> 0.0 <= us[i] < 1.0
  }

  predicate Covers(box: Box, mnemonics: seq<string>) {
    forall m | m in mnemonics :: m in box
  }

  /** The draw for one mnemonic: uniform between max(low, floor) and high. */
  function Draw(box: Box, mnemonic: string, u: real, floor: real): real
    requires mnemonic in box
  {
    Uniform(Larger(box[mnemonic].0, floor), box[mnemonic].1, u)
  }

  /** A draw lies in its interval whenever the interval is not empty. */
  lemma DrawWithin(box: Box, mnemonic: string, u: real, floor: real)
    requires mnemonic in box && 0.0 <= u < 1.0
    requires Larger(box[mnemonic].0, floor) <= box[mnemonic].1
    ensures floor <= Draw(box, mnemonic, u, floor) <= box[mnemonic].1
    ensures box[mnemonic].0 <= Draw(box, mnemonic, u, floor)
  {
    Stats.Lerp(Larger(box[mnemonic].0, floor), box[mnemonic].1, u);
  }

  /** The raw draws, one per mnemonic, before any renormalisation. */
  function Draws(box: Box, mnemonics: seq<string>, us: seq<real>, floor: real): (v: seq<real>)
    requires |us| == |mnemonics| && Covers(box, mnemonics)
    ensures |v| == |mnemonics|
    ensures forall i :: 0 <= i < |mnemonics| ==> v[i] == Draw(box, mnemonics[i], us[i], floor)
  {
    seq(|mnemonics|, i requires 0 <= i < |mnemonics| => Draw(box, mnemonics[i], us[i], floor))
  }

  /** The positions of the lithology mnemonics, in increasing order. */
  function LithologyIndices(mnemonics: seq<string>): (idx: seq<nat>)
    ensures forall k :: 0 <= k < |idx| ==> idx[k] < |mnemonics| && IsLithology(mnemonics[idx[k]])
    ensures forall i :: 0 <= i < |mnemonics| && IsLithology(mnemonics[i]) ==> i in idx
    ensures forall k, l :: 0 <= k < l < |idx| ==> idx[k] < idx[l]
  {
    if |mnemonics| == 0 then []
    else
      var n := |mnemonics| - 1;
      var prev := LithologyIndices(mnemonics[..n]);
      assert forall i :: 0 <= i < n ==> mnemonics[..n][i] == mnemonics[i];
      if IsLithology(mnemonics[n]) then prev + [n] else prev
  }

  /** `sum(v[i] for i in idx)`, added left to right. */
  function SumAt(v: seq<real>, idx: seq<nat>): real
    requires forall k :: 0 <= k < |idx| ==> idx[k] < |v|
  {
    if |idx| == 0 then 0.0 else SumAt(v, idx[..|idx| - 1]) + v[idx[|idx| - 1]]
  }

  /** Multiply the lithology entries by `c`, leave the others alone. */
  function Rescale(mnemonics: seq<string>, v: seq<real>, c: real): (r: seq<real>)
    requires |v| == |mnemonics|
    ensures |r| == |v|
    ensures forall i :: 0 <= i < |v| ==> r[i] == if IsLithology(mnemonics[i]) then Scaled(v[i], c) else v[i]
  {
    seq(|v|, i requires 0 <= i < |v| => if IsLithology(mnemonics[i]) then Scaled(v[i], c) else v[i])
  }

  /** Lithology entries scaled by 100 / (their sum), the others unchanged.
      `np.random.uniform` with scalar bounds returns a plain Python float, so the sum is one
      and a zero sum raises ZeroDivisionError; without lithology mnemonics nothing is
      divided. */
  function Normalised(mnemonics: seq<string>, v: seq<real>): (r: Result<seq<real>>)
    requires |v| == |mnemonics|
    ensures r.Err? <==> |LithologyIndices(mnemonics)| > 0 && SumAt(v, LithologyIndices(mnemonics)) == 0.0
    ensures r.Ok? ==> |r.value| == |mnemonics|
    ensures r.Ok? ==> forall i :: 0 <= i < |mnemonics| && !IsLithology(mnemonics[i]) ==> r.value[i] == v[i]
  {
    var idx := LithologyIndices(mnemonics);
    var s := SumAt(v, idx);
    if |idx| == 0 then Ok(v)
    else if s == 0.0 then Err("ZeroDivisionError: lithology draws sum to zero")
    else Ok(Rescale(mnemonics, v, Drilling.Quotient(100.0, s)))
  }

  /** The starting point of one solver run: the draws, normalised. */
  function InitialGuess(box: Box, mnemonics: seq<string>, us: seq<real>, floor: real): (r: Result<seq<real>>)
    requires |us| == |mnemonics| && Covers(box, mnemonics)
    ensures r.Ok? ==> |r.value| == |mnemonics|
    ensures r.Ok? ==> forall i :: 0 <= i < |mnemonics| && !IsLithology(mnemonics[i]) ==>
      r.value[i] == Draw(box, mnemonics[i], us[i], floor)
  {
    Normalised(mnemonics, Draws(box, mnemonics, us, floor))
  }

  /** `get_random_initial_guess(bounds, X_mnemonics)` with lower bounds raised to `floor`
      (1 in this file): draw every entry, then renormalise the lithologies. */
  method GetRandomInitialGuess(box: Box, mnemonics: seq<string>, us: seq<real>, floor: real)
    returns (r: Result<seq<real>>)
    requires |us| == |mnemonics| && Covers(box, mnemonics)
    ensures r == InitialGuess(box, mnemonics, us, floor)
  {
    ghost var v := Draws(box, mnemonics, us, floor);
    var guess: seq<real> := [];
    var i := 0;
    while i < |mnemonics|
      invariant 0 <= i <= |mnemonics|
      invariant |guess| == i && forall j :: 0 <= j < i ==> guess[j] == v[j]
    {
      var low := Larger(box[mnemonics[i]].0, floor);
      var high := box[mnemonics[i]].1;
      guess := guess + [Uniform(low, high, us[i])];
      i := i + 1;
    }
    assert guess == v;
    r := NormaliseLithologies(mnemonics, guess);
  }

  /** The lithology positions (a list comprehension over the mnemonics). */
  method LithologyPositions(mnemonics: seq<string>) returns (idx: seq<nat>)
    ensures idx == LithologyIndices(mnemonics)
  {
    idx := [];
    var i := 0;
    while i < |mnemonics|
      invariant 0 <= i <= |mnemonics|
      invariant idx == LithologyIndices(mnemonics[..i])
    {
      assert mnemonics[..i + 1][..i] == mnemonics[..i];
      if IsLithology(mnemonics[i]) {
        idx := idx + [i];
      }
      i := i + 1;
    }
    assert mnemonics[..i] == mnemonics;
  }

  /** `sum(v[i] for i in idx)`, accumulated left to right. */
  method SumPositions(v: seq<real>, idx: seq<nat>) returns (s: real)
    requires forall k :: 0 <= k < |idx| ==> idx[k] < |v|
    ensures s == SumAt(v, idx)
  {
    s := 0.0;
    var k := 0;
    while k < |idx|
      invariant 0 <= k <= |idx|
      invariant s == SumAt(v, idx[..k])
    {
      assert idx[..k + 1][..k] == idx[..k];
      s := s + v[idx[k]];
      k := k + 1;
    }
    assert idx[..k] == idx;
  }

  /** The second half of `get_random_initial_guess`: sum the lithology entries, then multiply
      each of them in place by 100 / sum. */
  method NormaliseLithologies(mnemonics: seq<string>, v: seq<real>) returns (r: Result<seq<real>>)
    requires |v| == |mnemonics|
    ensures r == Normalised(mnemonics, v)
  {
    var idx := LithologyPositions(mnemonics);
    var s := SumPositions(v, idx);
    if |idx| == 0 {
      return Ok(v);
    }
    if s == 0.0 {
      return Err("ZeroDivisionError: lithology draws sum to zero");
    }
    var c := Drilling.Quotient(100.0, s);
    var guess := v;
    var k := 0;
    while k < |idx|
      invariant 0 <= k <= |idx|
      invariant |guess| == |mnemonics|
      invariant forall j :: 0 <= j < |mnemonics| ==> guess[j] == if j in idx[..k] then Scaled(v[j], c) else v[j]
    {
      assert idx[k] !in idx[..k];
      guess := guess[idx[k] := Scaled(guess[idx[k]], c)];
      k := k + 1;
    }
    assert idx[..k] == idx;
    assert forall j :: 0 <= j < |mnemonics| ==> (j in idx <==> IsLithology(mnemonics[j]));
    assert guess == Rescale(mnemonics, v, c);
    return Ok(guess);
  }

  /** Rescaling multiplies the sum over lithology positions by the same factor. */
  lemma {:induction false} RescaleSum(mnemonics: seq<string>, v: seq<real>, c: real, idx: seq<nat>)
    requires |v| == |mnemonics|
    requires forall k :: 0 <= k < |idx| ==> idx[k] < |mnemonics| && IsLithology(mnemonics[idx[k]])
    ensures SumAt(Rescale(mnemonics, v, c), idx) == Scaled(SumAt(v, idx), c)
  {
    if |idx| > 0 {
      var n := |idx| - 1;
      RescaleSum(mnemonics, v, c, idx[..n]);
      assert Scaled(SumAt(v, idx[..n]) + v[idx[n]], c) == Scaled(SumAt(v, idx[..n]), c) + Scaled(v[idx[n]], c);
    }
  }

  /** After renormalisation the lithology entries sum to exactly 100. */
  lemma NormalisedSum(mnemonics: seq<string>, v: seq<real>)
    requires |v| == |mnemonics| && Normalised(mnemonics, v).Ok? && |LithologyIndices(mnemonics)| > 0
    ensures SumAt(Normalised(mnemonics, v).value, LithologyIndices(mnemonics)) == 100.0
  {
    var idx := LithologyIndices(mnemonics);
    var s := SumAt(v, idx);
    var c := Drilling.Quotient(100.0, s);
    RescaleSum(mnemonics, v, c, idx);
    ScaledQuotient(100.0, s);
  }

  lemma ScaledQuotient(a: real, b: real)
    requires b != 0.0
    ensures Scaled(b, Drilling.Quotient(a, b)) == a
  {
  }

  /** The lithology entries of a starting point sum to exactly 100. */
  lemma GuessLithologySum(box: Box, mnemonics: seq<string>, us: seq<real>, floor: real)
    requires |us| == |mnemonics| && Covers(box, mnemonics)
    requires InitialGuess(box, mnemonics, us, floor).Ok? && |LithologyIndices(mnemonics)| > 0
    ensures SumAt(InitialGuess(box, mnemonics, us, floor).value, LithologyIndices(mnemonics)) == 100.0
  {
    NormalisedSum(mnemonics, Draws(box, mnemonics, us, floor));
  }

  /** Renormalising keeps the ratios between lithology entries: r[i] / r[j] = v[i] / v[j]. */
  lemma GuessKeepsRatios(box: Box, mnemonics: seq<string>, us: seq<real>, floor: real, i: nat, j: nat)
    requires |us| == |mnemonics| && Covers(box, mnemonics)
    requires InitialGuess(box, mnemonics, us, floor).Ok?
    requires i < |mnemonics| && j < |mnemonics| && IsLithology(mnemonics[i]) && IsLithology(mnemonics[j])
    ensures Scaled(InitialGuess(box, mnemonics, us, floor).value[i], Draw(box, mnemonics[j], us[j], floor)) ==
            Scaled(InitialGuess(box, mnemonics, us, floor).value[j], Draw(box, mnemonics[i], us[i], floor))
  {
    var v := Draws(box, mnemonics, us, floor);
    var c := Drilling.Quotient(100.0, SumAt(v, LithologyIndices(mnemonics)));
    assert InitialGuess(box, mnemonics, us, floor).value == Rescale(mnemonics, v, c);
    ScaledSwap(v[i], v[j], c);
  }

  lemma ScaledSwap(a: real, b: real, c: real)
    ensures Scaled(Scaled(a, c), b) == Scaled(Scaled(b, c), a)
  {
    assert a * c * b == b * c * a;
  }

  /** Without lithology mnemonics the starting point is the raw draws. */
  lemma GuessWithoutLithology(box: Box, mnemonics: seq<string>, us: seq<real>, floor: real)
    requires |us| == |mnemonics| && Covers(box, mnemonics)
    requires forall m | m in mnemonics :: !IsLithology(m)
    ensures InitialGuess(box, mnemonics, us, floor) == Ok(Draws(box, mnemonics, us, floor))
  {
  }

  /** A sum of positive entries is positive. */
  lemma {:induction false} SumAtPositive(v: seq<real>, idx: seq<nat>)
    requires forall k :: 0 <= k < |idx| ==> idx[k] < |v| && v[idx[k]] > 0.0
    ensures |idx| > 0 ==> SumAt(v, idx) > 0.0
    ensures SumAt(v, idx) >= 0.0
  {
    if |idx| > 0 {
      SumAtPositive(v, idx[..|idx| - 1]);
    }
  }

  /** With a positive floor and lithology intervals that are not empty, no division by zero
      can happen and every draw lies in its interval. */
  lemma GuessDefined(box: Box, mnemonics: seq<string>, us: seq<real>, floor: real)
    requires |us| == |mnemonics| && Covers(box, mnemonics) && UnitDraws(us) && floor > 0.0
    requires forall i :: 0 <= i < |mnemonics| ==> Larger(box[mnemonics[i]].0, floor) <= box[mnemonics[i]].1
    ensures InitialGuess(box, mnemonics, us, floor).Ok?
    ensures forall i :: 0 <= i < |mnemonics| ==>
      floor <= Draws(box, mnemonics, us, floor)[i] <= box[mnemonics[i]].1
  {
    var v := Draws(box, mnemonics, us, floor);
    forall i | 0 <= i < |mnemonics|
      ensures floor <= v[i] <= box[mnemonics[i]].1
    {
      DrawWithin(box, mnemonics[i], us[i], floor);
    }
    SumAtPositive(v, LithologyIndices(mnemonics));
  }

  // ----- the penalised objective -----

  /** The index of the first mnemonic whose lower-case form is `name`. */
  function FirstLowerFrom(mnemonics: seq<string>, name: string, j: nat): (r: Option<nat>)
    requires j <= |mnemonics|
    ensures r.Some? ==> j <= r.value < |mnemonics| && Text.Lower(mnemonics[r.value]) == name
    ensures r.Some? ==> forall i :: j <= i < r.value ==> Text.Lower(mnemonics[i]) != name
    ensures r.None? ==> forall i :: j <= i < |mnemonics| ==> Text.Lower(mnemonics[i]) != name
    decreases |mnemonics| - j
  {
    if j == |mnemonics| then None
    else if Text.Lower(mnemonics[j]) == name then Some(j)
    else FirstLowerFrom(mnemonics, name, j + 1)
  }

  predicate HasLower(mnemonics: seq<string>, name: string) {
    exists i :: 0 <= i < |mnemonics| && Text.Lower(mnemonics[i]) == name
  }

  /** The positions the objective reads and writes. */
  datatype Slots = Slots(wob: nat, rpm: nat, torque: nat, mu: nat)

  /** The four index look-ups of the objective; a missing name raises IndexError. */
  function ObjectiveSlots(mnemonics: seq<string>): (r: Result<Slots>)
    ensures r.Ok? <==>
      HasLower(mnemonics, "wob") && HasLower(mnemonics, "rpm") && HasLower(mnemonics, "torque") && HasLower(mnemonics, "mu")
    ensures r.Ok? ==>
      r.value.wob < |mnemonics| && r.value.rpm < |mnemonics| && r.value.torque < |mnemonics| && r.value.mu < |mnemonics|
    ensures r.Ok? ==>
      Text.Lower(mnemonics[r.value.wob]) == "wob" && Text.Lower(mnemonics[r.value.rpm]) == "rpm" &&
      Text.Lower(mnemonics[r.value.torque]) == "torque" && Text.Lower(mnemonics[r.value.mu]) == "mu"
  {
    var w := FirstLowerFrom(mnemonics, "wob", 0);
    var p := FirstLowerFrom(mnemonics, "rpm", 0);
    var t := FirstLowerFrom(mnemonics, "torque", 0);
    var m := FirstLowerFrom(mnemonics, "mu", 0);
    if w.Some? && p.Some? && t.Some? && m.Some? then Ok(Slots(w.value, p.value, t.value, m.value))
    else Err("IndexError: list index out of range")
  }

  /** The argument after `params[mu_index] = compute_mu(wob, torque, 8.5)`; an infinite Mu
      (zero WOB) is reported as an error. */
  function MuWritten(p: seq<real>, mnemonics: seq<string>): (r: Result<seq<real>>)
    requires |p| == |mnemonics|
    ensures r.Ok? ==> ObjectiveSlots(mnemonics).Ok?
    ensures ObjectiveSlots(mnemonics).Ok? ==>
      (r.Ok? <==> p[ObjectiveSlots(mnemonics).value.wob] != 0.0)
    ensures r.Ok? ==> |r.value| == |p|
    ensures r.Ok? ==>
      Drilling.ComputeMu(p[ObjectiveSlots(mnemonics).value.wob], p[ObjectiveSlots(mnemonics).value.torque],
                         Drilling.BitDiameter) == Some(r.value[ObjectiveSlots(mnemonics).value.mu])
    ensures r.Ok? ==> forall i :: 0 <= i < |p| && i != ObjectiveSlots(mnemonics).value.mu ==> r.value[i] == p[i]
  {
    var sl :- ObjectiveSlots(mnemonics);
    match Drilling.ComputeMu(p[sl.wob], p[sl.torque], Drilling.BitDiameter)
    case None => Err("Mu is not finite: zero WOB")
    case Some(mu) => Ok(p[sl.mu := mu])
  }

  /** The objective's value: the MSE at the predicted ROP plus the penalty for the written
      WOB, torque and Mu; a zero predicted ROP (infinite MSE) is reported as an error. */
  function ObjectiveValue(p: seq<real>, mnemonics: seq<string>, predict: seq<real> -> real,
                          penalty: (real, real, real) -> real): (r: Result<real>)
    requires |p| == |mnemonics|
    ensures r.Ok? ==> MuWritten(p, mnemonics).Ok?
    ensures MuWritten(p, mnemonics).Ok? ==>
      var q := MuWritten(p, mnemonics).value;
      var sl := ObjectiveSlots(mnemonics).value;
      (r.Ok? <==> predict(q) != 0.0) &&
      (r.Ok? ==> r.value == Drilling.ComputeMse(q[sl.wob], q[sl.rpm], q[sl.torque], predict(q), Drilling.BitDiameter).value
                            + penalty(q[sl.wob], q[sl.torque], q[sl.mu]))
  {
    var q :- MuWritten(p, mnemonics);
    var sl := ObjectiveSlots(mnemonics).value;
    match Drilling.ComputeMse(q[sl.wob], q[sl.rpm], q[sl.torque], predict(q), Drilling.BitDiameter)
    case None => Err("MSE is not finite: zero predicted ROP")
    case Some(mse) => Ok(mse + penalty(q[sl.wob], q[sl.torque], q[sl.mu]))
  }

  /** `objective_function(params)`: the Mu slot of the caller's array is overwritten before the
      prediction is made; `predict` stands for `trained_model.predict(scaler.transform(.))`. */
  method Objective(params: array<real>, mnemonics: seq<string>, predict: seq<real> -> real,
                   penalty: (real, real, real) -> real) returns (r: Result<real>)
    requires params.Length == |mnemonics|
    modifies params
    ensures r == ObjectiveValue(old(params[..]), mnemonics, predict, penalty)
    ensures params[..] == match MuWritten(old(params[..]), mnemonics)
                          case Ok(q) => q
                          case Err(_) => old(params[..])
  {
    var sl := ObjectiveSlots(mnemonics);
    if sl.Err? {
      return Err(sl.error);
    }
    var s := sl.value;
    var mu := Drilling.ComputeMu(params[s.wob], params[s.torque], Drilling.BitDiameter);
    if mu.None? {
      return Err("Mu is not finite: zero WOB");
    }
    params[s.mu] := mu.value;
    var rop := predict(params[..]);
    var mse := Drilling.ComputeMse(params[s.wob], params[s.rpm], params[s.torque], rop, Drilling.BitDiameter);
    if mse.None? {
      return Err("MSE is not finite: zero predicted ROP");
    }
    r := Ok(mse.value + penalty(params[s.wob], params[s.torque], params[s.mu]));
  }

  /** How many of the three physical limits a point breaks. */
  function Violations(wob: real, torque: real, mu: real): (n: nat)
    ensures n <= 3
    ensures n == 0 <==> wob >= 10.0 && torque >= 5.0 && mu <= 1000.0
  {
    (if wob < 10.0 then 1 else 0) + (if torque < 5.0 then 1 else 0) + (if mu > 1000.0 then 1 else 0)
  }

  /** The penalty of this file: 1e6 for each of WOB < 10, torque < 5, Mu > 1000. */
  function MseMinPenalty(wob: real, torque: real, mu: real): (p: real)
    ensures p == 1000000.0 * Violations(wob, torque, mu) as real
    ensures p == 0.0 <==> wob >= 10.0 && torque >= 5.0 && mu <= 1000.0
  {
    (if wob < 10.0 then 1000000.0 else 0.0) + (if torque < 5.0 then 1000000.0 else 0.0) +
    (if mu > 1000.0 then 1000000.0 else 0.0)
  }

  /** Within the limits the objective is the plain MSE; outside them it is at least 1e6 above. */
  lemma ObjectivePenalised(p: seq<real>, mnemonics: seq<string>, predict: seq<real> -> real)
    requires |p| == |mnemonics| && ObjectiveValue(p, mnemonics, predict, MseMinPenalty).Ok?
    ensures var q := MuWritten(p, mnemonics).value;
      var sl := ObjectiveSlots(mnemonics).value;
      var mse := Drilling.ComputeMse(q[sl.wob], q[sl.rpm], q[sl.torque], predict(q), Drilling.BitDiameter).value;
      var obj := ObjectiveValue(p, mnemonics, predict, MseMinPenalty).value;
      (q[sl.wob] >= 10.0 && q[sl.torque] >= 5.0 && q[sl.mu] <= 1000.0 ==> obj == mse) &&
      (q[sl.wob] < 10.0 || q[sl.torque] < 5.0 || q[sl.mu] > 1000.0 ==> obj >= mse + 1000000.0)
  {
  }

  // ----- the solver's problem -----

  /** One inequality constraint `g(x) >= 0` handed to SLSQP. */
  datatype Constraint = AtLeast(slot: nat, limit: real) | MuAtMost(wob: nat, torque: nat, limit: real)

  /** The constraints of `minimize_objective_function`: WOB >= 15, torque >= 5 and
      1000 - compute_mu(WOB, torque, 8.5) >= 0, with `list.index` on the exact names. */
  function MseMinConstraints(mnemonics: seq<string>): (r: Result<seq<Constraint>>)
    ensures r.Ok? <==> "WOB" in mnemonics && "TORQUE" in mnemonics
    ensures r.Ok? ==> |r.value| == 3
  {
    match (Frames.ColumnIndex(mnemonics, "WOB"), Frames.ColumnIndex(mnemonics, "TORQUE"))
    case (Some(w), Some(t)) => Ok([AtLeast(w, 15.0), AtLeast(t, 5.0), MuAtMost(w, t, 1000.0)])
    case _ => Err("ValueError: is not in list")
  }

  /** A point satisfies one constraint (an infinite Mu satisfies no upper limit). */
  predicate Satisfies(x: seq<real>, c: Constraint) {
    match c
    case AtLeast(i, limit) => i < |x| && x[i] - limit >= 0.0
    case MuAtMost(w, t, limit) =>
      w < |x| && t < |x| &&
      match Drilling.ComputeMu(x[w], x[t], Drilling.BitDiameter)
      case Some(mu) => limit - mu >= 0.0
      case None => false
  }

  /** The feasible set the solver is asked to respect, spelled out. */
  lemma MseMinFeasible(mnemonics: seq<string>, x: seq<real>)
    requires MseMinConstraints(mnemonics).Ok? && |x| == |mnemonics|
    ensures var w := Frames.ColumnIndex(mnemonics, "WOB").value;
      var t := Frames.ColumnIndex(mnemonics, "TORQUE").value;
      (forall c | c in MseMinConstraints(mnemonics).value :: Satisfies(x, c)) <==>
        x[w] >= 15.0 && x[t] >= 5.0 && x[w] != 0.0 && Drilling.ComputeMu(x[w], x[t], Drilling.BitDiameter).value <= 1000.0
  {
    var w := Frames.ColumnIndex(mnemonics, "WOB").value;
    var t := Frames.ColumnIndex(mnemonics, "TORQUE").value;
    var cs := MseMinConstraints(mnemonics).value;
    assert cs == [AtLeast(w, 15.0), AtLeast(t, 5.0), MuAtMost(w, t, 1000.0)];
    assert Satisfies(x, cs[0]) <==> x[w] >= 15.0;
    assert Satisfies(x, cs[1]) <==> x[t] >= 5.0;
    assert Satisfies(x, cs[2]) <==>
      x[w] != 0.0 && Drilling.ComputeMu(x[w], x[t], Drilling.BitDiameter).value <= 1000.0;
    assert (forall c | c in cs :: Satisfies(x, c)) <==> Satisfies(x, cs[0]) && Satisfies(x, cs[1]) && Satisfies(x, cs[2]);
  }

  /** What one solver call meets once its starting point exists: the constraints'
      exact-name look-ups, then the objective's lower-case look-ups when `minimize`
      first evaluates it at the starting point. */
  function Prepared(constraints: Result<seq<Constraint>>, mnemonics: seq<string>): (r: Result<Slots>)
    ensures r.Ok? <==> constraints.Ok? && ObjectiveSlots(mnemonics).Ok?
    ensures constraints.Err? ==> r == Err(constraints.error)
    ensures constraints.Ok? ==> r == ObjectiveSlots(mnemonics)
  {
    if constraints.Err? then Err(constraints.error) else ObjectiveSlots(mnemonics)
  }

  // ----- the Monte Carlo loop and the percentile filter -----

  /** What `minimize` reports: the final point and the objective value there. */
  datatype Solution = Solution(x: seq<real>, fun: real)

  function Funs(rs: seq<Solution>): (v: seq<real>)
    ensures |v| == |rs| && forall i :: 0 <= i < |rs| ==> v[i] == rs[i].fun
  {
    seq(|rs|, i requires 0 <= i < |rs| => rs[i].fun)
  }

  /** `np.percentile(mse_values, 10)`. */
  function Threshold(rs: seq<Solution>): real
    requires |rs| > 0
  {
    Stats.Quantile(Funs(rs), 0.1)
  }

  function AtMost(t: real): Solution -> bool {
    (s: Solution) => s.fun <= t
  }

  /** The pairs whose value is at or below the 10th percentile, in order; numpy cannot take
      the percentile of no values. */
  function LowMse(rs: seq<Solution>): (r: Result<seq<Solution>>)
    ensures r.Err? <==> |rs| == 0
  {
    if |rs| == 0 then Err("IndexError: percentile of an empty array")
    else Ok(Filter(rs, AtMost(Threshold(rs))))
  }

  /** The filter keeps exactly the results at or below the threshold, in order, and keeps at
      least one. */
  lemma LowMseKept(rs: seq<Solution>)
    requires |rs| > 0
    ensures forall s :: s in LowMse(rs).value <==> s in rs && s.fun <= Threshold(rs)
    ensures IsSubsequence(LowMse(rs).value, rs)
    ensures |LowMse(rs).value| >= 1
    ensures Stats.MinOf(Funs(rs)) <= Threshold(rs) <= Stats.MaxOf(Funs(rs))
  {
    var t := Threshold(rs);
    forall s | s in rs && s.fun <= t
      ensures s in LowMse(rs).value
    {
      FilterComplete(rs, AtMost(t), s);
    }
    FilterIsSubsequence(rs, AtMost(t));
    Stats.QuantileBetween(Funs(rs), 0.1);
    var i := Stats.QuantileReached(Funs(rs), 0.1);
    FilterComplete(rs, AtMost(t), rs[i]);
  }

  /** The starting points of all iterations, each from its own unit draws. */
  function Guesses(box: Box, mnemonics: seq<string>, draws: seq<seq<real>>, floor: real): (g: seq<Result<seq<real>>>)
    requires Covers(box, mnemonics) && forall k :: 0 <= k < |draws| ==> |draws[k]| == |mnemonics|
    ensures |g| == |draws|
  {
    seq(|draws|, k requires 0 <= k < |draws| => InitialGuess(box, mnemonics, draws[k], floor))
  }

  /** Entry `k` of `Guesses` is the starting point drawn from `draws[k]`. */
  lemma GuessAt(box: Box, mnemonics: seq<string>, draws: seq<seq<real>>, floor: real, k: nat)
    requires Covers(box, mnemonics) && forall j :: 0 <= j < |draws| ==> |draws[j]| == |mnemonics|
    requires k < |draws|
    ensures Guesses(box, mnemonics, draws, floor)[k] == InitialGuess(box, mnemonics, draws[k], floor)
  {
  }

  /** One solver result per starting point, in order. */
  function Runs(guesses: seq<seq<real>>, solve: seq<real> -> Solution): (rs: seq<Solution>)
    ensures |rs| == |guesses| && forall k :: 0 <= k < |guesses| ==> rs[k] == solve(guesses[k])
  {
    seq(|guesses|, k requires 0 <= k < |guesses| => solve(guesses[k]))
  }

  /** One more starting point adds its solver result at the end. */
  lemma RunsSnoc(guesses: seq<seq<real>>, g: seq<real>, solve: seq<real> -> Solution)
    ensures Runs(guesses + [g], solve) == Runs(guesses, solve) + [solve(g)]
  {
    assert forall k :: 0 <= k < |guesses| ==> (guesses + [g])[k] == guesses[k];
  }

  /** The outcome of `monte_carlo_optimization`, with one list of unit draws per iteration
      and `check` the outcome of the look-ups of the first solver call. Each iteration
      draws its starting point before those look-ups, so with an iteration and a failing
      look-up the run fails with the first starting point's error or the look-up's. */
  function MonteCarloRun(box: Box, mnemonics: seq<string>, draws: seq<seq<real>>,
                         solve: seq<real> -> Solution, check: Result<Slots>): Result<seq<Solution>>
    requires Covers(box, mnemonics) && forall k :: 0 <= k < |draws| ==> |draws[k]| == |mnemonics|
  {
    if |draws| > 0 && check.Err? then
      var first :- InitialGuess(box, mnemonics, draws[0], 1.0);
      Err(check.error)
    else
      var guesses :- AllOk(Guesses(box, mnemonics, draws, 1.0));
      LowMse(Runs(guesses, solve))
  }

  /** `monte_carlo_optimization`: each iteration draws its starting point, looks up 'WOB'
      and 'TORQUE' by exact name for the constraints, and has the solver evaluate the
      objective, which looks up wob, rpm, torque and mu by lower-case name. */
  function MonteCarloSpec(box: Box, mnemonics: seq<string>, draws: seq<seq<real>>,
                          solve: seq<real> -> Solution): Result<seq<Solution>>
    requires Covers(box, mnemonics) && forall k :: 0 <= k < |draws| ==> |draws[k]| == |mnemonics|
  {
    MonteCarloRun(box, mnemonics, draws, solve, Prepared(MseMinConstraints(mnemonics), mnemonics))
  }

  /** The outcome of one iteration of `monte_carlo_optimization`: the starting point's
      error, else the first look-up error of the solver call, else the solver's result. */
  function IterationOutcome(box: Box, mnemonics: seq<string>, us: seq<real>, solve: seq<real> -> Solution):
    (r: Result<Solution>)
    requires Covers(box, mnemonics) && |us| == |mnemonics|
    ensures InitialGuess(box, mnemonics, us, 1.0).Err? ==> r == Err(InitialGuess(box, mnemonics, us, 1.0).error)
    ensures InitialGuess(box, mnemonics, us, 1.0).Ok? && Prepared(MseMinConstraints(mnemonics), mnemonics).Err? ==>
      r == Err(Prepared(MseMinConstraints(mnemonics), mnemonics).error)
    ensures r.Ok? <==> InitialGuess(box, mnemonics, us, 1.0).Ok? && Prepared(MseMinConstraints(mnemonics), mnemonics).Ok?
    ensures r.Ok? ==> r.value == solve(InitialGuess(box, mnemonics, us, 1.0).value)
  {
    var g :- InitialGuess(box, mnemonics, us, 1.0);
    var slots :- Prepared(MseMinConstraints(mnemonics), mnemonics);
    Ok(solve(g))
  }

  /** One iteration of `monte_carlo_optimization`: a fresh starting point, the constraints
      of `minimize_objective_function` with their exact-name look-ups, the objective's
      look-ups at its first evaluation, and one solver call. */
  method Iteration(box: Box, mnemonics: seq<string>, us: seq<real>, solve: seq<real> -> Solution)
    returns (r: Result<Solution>)
    requires Covers(box, mnemonics) && |us| == |mnemonics|
    ensures r == IterationOutcome(box, mnemonics, us, solve)
  {
    var g := GetRandomInitialGuess(box, mnemonics, us, 1.0);
    if g.Err? {
      return Err(g.error);
    }
    var constraints := MseMinConstraints(mnemonics);
    if constraints.Err? {
      return Err(constraints.error);
    }
    var slots := ObjectiveSlots(mnemonics);
    if slots.Err? {
      return Err(slots.error);
    }
    r := Ok(solve(g.value));
  }

  /** `monte_carlo_optimization`: one iteration per list of unit draws, every (x, fun)
      appended to `results`, then the percentile filter. */
  method MonteCarloOptimization(box: Box, mnemonics: seq<string>, draws: seq<seq<real>>,
                                solve: seq<real> -> Solution) returns (r: Result<seq<Solution>>)
    requires Covers(box, mnemonics) && forall k :: 0 <= k < |draws| ==> |draws[k]| == |mnemonics|
    ensures r == MonteCarloSpec(box, mnemonics, draws, solve)
  {
    SpecIsRun(box, mnemonics, draws, solve);
    var results: seq<Solution> := [];
    ghost var guesses: seq<seq<real>> := [];
    StepStart(box, mnemonics, draws);
    for k := 0 to |draws|
      invariant AllOk(Guesses(box, mnemonics, draws, 1.0)[..k]) == Ok(guesses)
      invariant results == Runs(guesses, solve)
      invariant k > 0 ==> Prepared(MseMinConstraints(mnemonics), mnemonics).Ok?
    {
      var step := Iteration(box, mnemonics, draws[k], solve);
      if step.Err? {
        StepFails(box, mnemonics, draws, solve, k);
        return Err(step.error);
      }
      ghost var g := StepGoes(box, mnemonics, draws, solve, k, guesses);
      results := results + [step.value];
      guesses := guesses + [g];
    }
    StepsDone(box, mnemonics, draws, solve, guesses, Prepared(MseMinConstraints(mnemonics), mnemonics));
    r := LowMse(results);
  }

  /** Before the first iteration no starting point has been drawn. */
  lemma StepStart(box: Box, mnemonics: seq<string>, draws: seq<seq<real>>)
    requires Covers(box, mnemonics) && forall k :: 0 <= k < |draws| ==> |draws[k]| == |mnemonics|
    ensures AllOk(Guesses(box, mnemonics, draws, 1.0)[..0]) == Ok([])
  {
    assert Guesses(box, mnemonics, draws, 1.0)[..0] == [];
  }

  /** An iteration that fails, after the earlier ones went through, fails the run with its error. */
  lemma StepFails(box: Box, mnemonics: seq<string>, draws: seq<seq<real>>, solve: seq<real> -> Solution, k: nat)
    requires Covers(box, mnemonics) && forall j :: 0 <= j < |draws| ==> |draws[j]| == |mnemonics|
    requires k < |draws| && AllOk(Guesses(box, mnemonics, draws, 1.0)[..k]).Ok?
    requires k > 0 ==> Prepared(MseMinConstraints(mnemonics), mnemonics).Ok?
    requires IterationOutcome(box, mnemonics, draws[k], solve).Err?
    ensures MonteCarloRun(box, mnemonics, draws, solve, Prepared(MseMinConstraints(mnemonics), mnemonics)) ==
      Err(IterationOutcome(box, mnemonics, draws[k], solve).error)
  {
    var check := Prepared(MseMinConstraints(mnemonics), mnemonics);
    if InitialGuess(box, mnemonics, draws[k], 1.0).Err? {
      SpecGuessFails(box, mnemonics, draws, solve, check, k);
    } else {
      SpecPreparedFails(box, mnemonics, draws, solve, check);
    }
  }

  /** An iteration that goes through adds its starting point to those drawn so far, and its
      result is the solver's result from that point. */
  lemma StepGoes(box: Box, mnemonics: seq<string>, draws: seq<seq<real>>, solve: seq<real> -> Solution, k: nat,
                 guesses: seq<seq<real>>) returns (g: seq<real>)
    requires Covers(box, mnemonics) && forall j :: 0 <= j < |draws| ==> |draws[j]| == |mnemonics|
    requires k < |draws| && AllOk(Guesses(box, mnemonics, draws, 1.0)[..k]) == Ok(guesses)
    requires IterationOutcome(box, mnemonics, draws[k], solve).Ok?
    ensures Prepared(MseMinConstraints(mnemonics), mnemonics).Ok?
    ensures AllOk(Guesses(box, mnemonics, draws, 1.0)[..k + 1]) == Ok(guesses + [g])
    ensures Runs(guesses + [g], solve) == Runs(guesses, solve) + [IterationOutcome(box, mnemonics, draws[k], solve).value]
  {
    g := InitialGuess(box, mnemonics, draws[k], 1.0).value;
    GuessAt(box, mnemonics, draws, 1.0, k);
    AllOkSnoc(Guesses(box, mnemonics, draws, 1.0), k);
    RunsSnoc(guesses, g, solve);
  }

  /** After the last iteration, the run is the filter of the solver results. */
  lemma StepsDone(box: Box, mnemonics: seq<string>, draws: seq<seq<real>>, solve: seq<real> -> Solution,
                  guesses: seq<seq<real>>, check: Result<Slots>)
    requires Covers(box, mnemonics) && forall j :: 0 <= j < |draws| ==> |draws[j]| == |mnemonics|
    requires AllOk(Guesses(box, mnemonics, draws, 1.0)[..|draws|]) == Ok(guesses)
    requires |draws| > 0 ==> check.Ok?
    ensures MonteCarloRun(box, mnemonics, draws, solve, check) == LowMse(Runs(guesses, solve))
  {
    WholePrefix(Guesses(box, mnemonics, draws, 1.0));
    SpecGoes(box, mnemonics, draws, solve, check);
  }

  lemma WholePrefix<T>(s: seq<T>)
    ensures s[..|s|] == s
  {
  }

  /** The specification is the run with the look-ups of `minimize_objective_function`. */
  lemma SpecIsRun(box: Box, mnemonics: seq<string>, draws: seq<seq<real>>, solve: seq<real> -> Solution)
    requires Covers(box, mnemonics) && forall k :: 0 <= k < |draws| ==> |draws[k]| == |mnemonics|
    ensures MonteCarloSpec(box, mnemonics, draws, solve) ==
      MonteCarloRun(box, mnemonics, draws, solve, Prepared(MseMinConstraints(mnemonics), mnemonics))
  {
  }

  /** A starting point that cannot be drawn fails the run with its error, when the
      iterations before it went through. */
  lemma SpecGuessFails(box: Box, mnemonics: seq<string>, draws: seq<seq<real>>, solve: seq<real> -> Solution,
                       check: Result<Slots>, k: nat)
    requires Covers(box, mnemonics) && forall j :: 0 <= j < |draws| ==> |draws[j]| == |mnemonics|
    requires k < |draws| && AllOk(Guesses(box, mnemonics, draws, 1.0)[..k]).Ok?
    requires InitialGuess(box, mnemonics, draws[k], 1.0).Err?
    requires k > 0 ==> check.Ok?
    ensures MonteCarloRun(box, mnemonics, draws, solve, check) == Err(InitialGuess(box, mnemonics, draws[k], 1.0).error)
  {
    var gs := Guesses(box, mnemonics, draws, 1.0);
    GuessAt(box, mnemonics, draws, 1.0, k);
    if check.Ok? {
      AllOkSnoc(gs, k);
      AllOkErrPersists(gs, k + 1);
    }
  }

  /** With a first starting point but a failing look-up, the run fails with the look-up's error. */
  lemma SpecPreparedFails(box: Box, mnemonics: seq<string>, draws: seq<seq<real>>, solve: seq<real> -> Solution,
                          check: Result<Slots>)
    requires Covers(box, mnemonics) && forall j :: 0 <= j < |draws| ==> |draws[j]| == |mnemonics|
    requires |draws| > 0 && InitialGuess(box, mnemonics, draws[0], 1.0).Ok? && check.Err?
    ensures MonteCarloRun(box, mnemonics, draws, solve, check) == Err(check.error)
  {
  }

  /** When every starting point is drawn and, with an iteration, the look-ups succeed, the
      run is the filter of the solver results. */
  lemma SpecGoes(box: Box, mnemonics: seq<string>, draws: seq<seq<real>>, solve: seq<real> -> Solution,
                 check: Result<Slots>)
    requires Covers(box, mnemonics) && forall j :: 0 <= j < |draws| ==> |draws[j]| == |mnemonics|
    requires AllOk(Guesses(box, mnemonics, draws, 1.0)).Ok?
    requires |draws| > 0 ==> check.Ok?
    ensures MonteCarloRun(box, mnemonics, draws, solve, check) ==
      LowMse(Runs(AllOk(Guesses(box, mnemonics, draws, 1.0)).value, solve))
  {
  }

  /** With every starting point drawn, the run succeeds exactly when there was an iteration
      and the look-ups succeed, and keeps at least one pair, in order, exactly those at or
      below the 10th percentile. */
  lemma RunKeeps(box: Box, mnemonics: seq<string>, draws: seq<seq<real>>, solve: seq<real> -> Solution,
                 check: Result<Slots>)
    requires Covers(box, mnemonics) && forall k :: 0 <= k < |draws| ==> |draws[k]| == |mnemonics|
    requires AllOk(Guesses(box, mnemonics, draws, 1.0)).Ok?
    ensures var rs := Runs(AllOk(Guesses(box, mnemonics, draws, 1.0)).value, solve);
      var run := MonteCarloRun(box, mnemonics, draws, solve, check);
      |rs| == |draws| &&
      (run.Ok? <==> |draws| > 0 && check.Ok?) &&
      (run.Ok? ==>
        |run.value| >= 1 && IsSubsequence(run.value, rs) &&
        forall s :: s in run.value <==> s in rs && s.fun <= Threshold(rs))
  {
    var rs := Runs(AllOk(Guesses(box, mnemonics, draws, 1.0)).value, solve);
    if |draws| > 0 {
      GuessAt(box, mnemonics, draws, 1.0, 0);
      if check.Ok? {
        LowMseKept(rs);
      }
    }
  }

  /** Exactly one result per iteration is filtered; the loop succeeds exactly when there was
      an iteration, 'WOB' and 'TORQUE' are exact mnemonics and some mnemonic lower-cases to
      each of wob, rpm, torque and mu, and what is kept is at least one pair, in order, and
      exactly those at or below the 10th percentile. */
  lemma MonteCarloKeeps(box: Box, mnemonics: seq<string>, draws: seq<seq<real>>, solve: seq<real> -> Solution)
    requires Covers(box, mnemonics) && forall k :: 0 <= k < |draws| ==> |draws[k]| == |mnemonics|
    requires AllOk(Guesses(box, mnemonics, draws, 1.0)).Ok?
    ensures var rs := Runs(AllOk(Guesses(box, mnemonics, draws, 1.0)).value, solve);
      |rs| == |draws| &&
      (MonteCarloSpec(box, mnemonics, draws, solve).Ok? <==>
        |draws| > 0 && "WOB" in mnemonics && "TORQUE" in mnemonics &&
        HasLower(mnemonics, "wob") && HasLower(mnemonics, "rpm") &&
        HasLower(mnemonics, "torque") && HasLower(mnemonics, "mu")) &&
      (MonteCarloSpec(box, mnemonics, draws, solve).Ok? ==>
        var kept := MonteCarloSpec(box, mnemonics, draws, solve).value;
        |kept| >= 1 && IsSubsequence(kept, rs) &&
        forall s :: s in kept <==> s in rs && s.fun <= Threshold(rs))
  {
    RunKeeps(box, mnemonics, draws, solve, Prepared(MseMinConstraints(mnemonics), mnemonics));
  }

  /** Without 'WOB' or 'TORQUE' spelled exactly so, no iteration completes: the loop raises
      the starting point's error or, once a starting point exists, ValueError. */
  lemma MonteCarloNeedsExactNames(box: Box, mnemonics: seq<string>, draws: seq<seq<real>>, solve: seq<real> -> Solution)
    requires Covers(box, mnemonics) && forall k :: 0 <= k < |draws| ==> |draws[k]| == |mnemonics|
    requires |draws| > 0 && ("WOB" !in mnemonics || "TORQUE" !in mnemonics)
    ensures MonteCarloSpec(box, mnemonics, draws, solve) ==
      if InitialGuess(box, mnemonics, draws[0], 1.0).Err? then Err(InitialGuess(box, mnemonics, draws[0], 1.0).error)
      else Err("ValueError: is not in list")
  {
  }

  /** With both exact names but without some lower-case name, the objective's `[0]` fails
      at the first evaluation: the loop raises the starting point's error or IndexError. */
  lemma MonteCarloNeedsLowerNames(box: Box, mnemonics: seq<string>, draws: seq<seq<real>>, solve: seq<real> -> Solution)
    requires Covers(box, mnemonics) && forall k :: 0 <= k < |draws| ==> |draws[k]| == |mnemonics|
    requires |draws| > 0 && "WOB" in mnemonics && "TORQUE" in mnemonics
    requires !HasLower(mnemonics, "rpm") || !HasLower(mnemonics, "mu")
    ensures MonteCarloSpec(box, mnemonics, draws, solve) ==
      if InitialGuess(box, mnemonics, draws[0], 1.0).Err? then Err(InitialGuess(box, mnemonics, draws[0], 1.0).error)
      else Err("IndexError: list index out of range")
  {
  }

  /** The mnemonics the app offers by default, 'WOB', 'BIT_RPM', 'TORQUE' and 'Mu', hold
      no name that lower-cases to exactly rpm, so the objective cannot run on them. */
  lemma DefaultMnemonicsLackRpm()
    ensures !HasLower(["WOB", "BIT_RPM", "TORQUE", "Mu"], "rpm")
    ensures ObjectiveSlots(["WOB", "BIT_RPM", "TORQUE", "Mu"]).Err?
  {
    var ms: seq<string> := ["WOB", "BIT_RPM", "TORQUE", "Mu"];
    forall i | 0 <= i < |ms|
      ensures Text.Lower(ms[i]) != "rpm"
    {
      if i == 0 {
        assert Text.Lower(ms[0])[0] == 'w';
      } else if i == 2 {
        assert |Text.Lower(ms[2])| == 6;
      } else {
        assert |Text.Lower(ms[i])| != 3;
      }
    }
  }

  // ----- parameter ranges -----

  /** `low_mse_params[:, i]`. */
  function ParamColumn(xs: seq<seq<real>>, i: nat): (c: seq<real>)
    requires forall k :: 0 <= k < |xs| ==> i < |xs[k]|
    ensures |c| == |xs| && forall k :: 0 <= k < |xs| ==> c[k] == xs[k][i]
  {
    seq(|xs|, k requires 0 <= k < |xs| => xs[k][i])
  }

  /** `(column.min(), column.max())`; numpy refuses the minimum of an empty column. */
  function RangeOf(xs: seq<seq<real>>, i: nat): (r: Result<(real, real)>)
    requires forall k :: 0 <= k < |xs| ==> i < |xs[k]|
    ensures r.Ok? <==> |xs| > 0
  {
    if |xs| == 0 then Err("ValueError: zero-size array")
    else Ok((Stats.MinOf(ParamColumn(xs, i)), Stats.MaxOf(ParamColumn(xs, i))))
  }

  predicate Shaped(xs: seq<seq<real>>, n: nat) {
    forall k :: 0 <= k < |xs| ==> |xs[k]| == n
  }

  function Ranges(xs: seq<seq<real>>, mnemonics: seq<string>): (rs: seq<Result<(real, real)>>)
    requires Shaped(xs, |mnemonics|)
    ensures |rs| == |mnemonics| && forall i :: 0 <= i < |mnemonics| ==> rs[i] == RangeOf(xs, i)
  {
    seq(|mnemonics|, i requires 0 <= i < |mnemonics| => RangeOf(xs, i))
  }

  function ParamRanges(xs: seq<seq<real>>, mnemonics: seq<string>): Result<Box>
    requires Shaped(xs, |mnemonics|)
  {
    DfUtils.BuildMap(mnemonics, Ranges(xs, mnemonics))
  }

  /** `get_param_ranges(low_mse_params, X_mnemonics)`. */
  method GetParamRanges(xs: seq<seq<real>>, mnemonics: seq<string>) returns (r: Result<Box>)
    requires Shaped(xs, |mnemonics|)
    ensures r == ParamRanges(xs, mnemonics)
  {
    ghost var results := Ranges(xs, mnemonics);
    var ranges: Box := map[];
    var i := 0;
    while i < |mnemonics|
      invariant 0 <= i <= |mnemonics|
      invariant DfUtils.BuildMap(mnemonics[..i], results[..i]) == Ok(ranges)
    {
      assert mnemonics[..i + 1][..i] == mnemonics[..i] && results[..i + 1][..i] == results[..i];
      var range := RangeOf(xs, i);
      if range.Err? {
        DfUtils.BuildMapErrorPersists(mnemonics, results, i + 1);
        return Err(range.error);
      }
      ranges := ranges[mnemonics[i] := range.value];
      i := i + 1;
    }
    assert mnemonics[..i] == mnemonics && results[..i] == results;
    return Ok(ranges);
  }

  /** For distinct mnemonics, every kept vector lies inside the range of each parameter, and
      both ends of each range are attained by some kept vector. */
  lemma ParamRangesContain(xs: seq<seq<real>>, mnemonics: seq<string>)
    requires Shaped(xs, |mnemonics|)
    requires forall i, j :: 0 <= i < j < |mnemonics| ==> mnemonics[i] != mnemonics[j]
    ensures ParamRanges(xs, mnemonics).Ok? <==> |xs| > 0 || |mnemonics| == 0
    ensures ParamRanges(xs, mnemonics).Ok? ==>
      var ranges := ParamRanges(xs, mnemonics).value;
      forall i :: 0 <= i < |mnemonics| ==>
        mnemonics[i] in ranges &&
        (forall k :: 0 <= k < |xs| ==> ranges[mnemonics[i]].0 <= xs[k][i] <= ranges[mnemonics[i]].1) &&
        (exists k :: 0 <= k < |xs| && xs[k][i] == ranges[mnemonics[i]].0) &&
        (exists k :: 0 <= k < |xs| && xs[k][i] == ranges[mnemonics[i]].1)
  {
    var results := Ranges(xs, mnemonics);
    DfUtils.BuildMapEntries(mnemonics, results);
    if |mnemonics| > 0 && |xs| == 0 {
      assert results[0].Err?;
    }
    if ParamRanges(xs, mnemonics).Ok? {
      DfUtils.BuildMapDistinct(mnemonics, results);
      forall i | 0 <= i < |mnemonics| {
        RangeOfContains(xs, i);
      }
    }
  }

  /** A column lies inside its (min, max), and both ends occur in it. */
  lemma RangeOfContains(xs: seq<seq<real>>, i: nat)
    requires forall k :: 0 <= k < |xs| ==> i < |xs[k]|
    requires |xs| > 0
    ensures forall k :: 0 <= k < |xs| ==> RangeOf(xs, i).value.0 <= xs[k][i] <= RangeOf(xs, i).value.1
    ensures exists k :: 0 <= k < |xs| && xs[k][i] == RangeOf(xs, i).value.0
    ensures exists k :: 0 <= k < |xs| && xs[k][i] == RangeOf(xs, i).value.1
  {
    var c := ParamColumn(xs, i);
    assert Stats.MinOf(c) in c && Stats.MaxOf(c) in c;
  }

  // ----- bounds per cluster -----

  /** The rule of this file's `get_bounds_for_cluster`: (min, max * factor), the factor being 1
      for the lithology columns (compared case-sensitively); an empty cluster gives NaN ends. */
  function ExpandedBound(vs: seq<real>, mnemonic: string, factor: real): (b: DfUtils.Bound)
    ensures b.low.Some? <==> |vs| > 0
    ensures b.high.Some? <==> |vs| > 0
  {
    if |vs| == 0 then DfUtils.Bound(None, None)
    else
      var f := if mnemonic in DfUtils.LithologyMnemonics then 1.0 else factor;
      DfUtils.Bound(Some(Stats.MinOf(vs)), Some(Scaled(Stats.MaxOf(vs), f)))
  }

  function ExpandRule(factor: real): (seq<real>, string) -> DfUtils.Bound {
    (vs, mnemonic) => ExpandedBound(vs, mnemonic, factor)
  }

  /** The low end is the cluster minimum; lithologies keep their maximum, and every other column's
      high end, for non-negative data and a factor of at least 1, is at or above it: the whole
      cluster lies inside its bound. */
  lemma ExpandedBoundContains(vs: seq<real>, mnemonic: string, factor: real)
    requires |vs| > 0 && factor >= 1.0 && Stats.MaxOf(vs) >= 0.0
    ensures ExpandedBound(vs, mnemonic, factor).low == Some(Stats.MinOf(vs))
    ensures mnemonic in DfUtils.LithologyMnemonics ==> ExpandedBound(vs, mnemonic, factor).high == Some(Stats.MaxOf(vs))
    ensures forall x | x in vs ::
      ExpandedBound(vs, mnemonic, factor).low.value <= x <= ExpandedBound(vs, mnemonic, factor).high.value
  {
    ScaledAtLeast(Stats.MaxOf(vs), if mnemonic in DfUtils.LithologyMnemonics then 1.0 else factor);
  }

  lemma ScaledAtLeast(m: real, f: real)
    requires m >= 0.0 && f >= 1.0
    ensures Scaled(m, f) >= m
    ensures f == 1.0 ==> Scaled(m, f) == m
  {
    assert (f - 1.0) * m >= 0.0;
  }

  /** `get_bounds_for_cluster(df, X_mnemonics, cluster)` with its default factor of 10000. */
  method GetBoundsForCluster(f: Frame, mnemonics: seq<string>, cluster: real)
    returns (r: Result<map<string, DfUtils.Bound>>)
    requires WellFormed(f)
    ensures r == DfUtils.BoundsFor(f, mnemonics, cluster, ExpandRule(10000.0))
  {
    r := DfUtils.FillBounds(f, mnemonics, cluster, ExpandRule(10000.0));
  }

  // ----- the MSE_min column -----

  const MseMinColumnName: string := "MSE_min (ksi)"

  /** What is stored per cluster: this file stores the parameter ranges and the kept MSE values;
      the multi-start variant stores the raw pooled pairs. */
  datatype ClusterEntry =
    | Summary(paramRanges: Box, lowMses: seq<real>)
    | Pooled(pairs: seq<Solution>)

  /** Python's `int(x)`: truncation toward zero. */
  function Trunc(x: real): (n: int)
    ensures x >= 0.0 ==> n == x.Floor
    ensures -1.0 < x - n as real < 1.0
  {
    if x >= 0.0 then x.Floor else -((-x).Floor)
  }

  /** `clusters[int(x)]['low_mses'].min()` for one cluster cell. */
  function MseMinCell(cell: Cell, clusters: map<int, ClusterEntry>): (r: Result<Cell>)
    ensures r.Ok? <==> cell.Num? && Trunc(cell.v) in clusters && clusters[Trunc(cell.v)].Summary? &&
                       |clusters[Trunc(cell.v)].lowMses| > 0
    ensures r.Ok? ==> r.value == Num(Stats.MinOf(clusters[Trunc(cell.v)].lowMses))
  {
    match cell
    case Num(x) =>
      if Trunc(x) !in clusters then Err("KeyError: cluster")
      else
        (match clusters[Trunc(x)]
         case Pooled(_) => Err("TypeError: list indices must be integers or slices, not str")
         case Summary(_, lows) =>
           if |lows| == 0 then Err("ValueError: zero-size array") else Ok(Num(Stats.MinOf(lows))))
    case _ => Err("ValueError: cannot convert the cell to int")
  }

  /** The new column: `df['cluster'].map(...)`, failing at the first row that cannot be mapped. */
  function MseMinColumn(f: Frame, clusters: map<int, ClusterEntry>): (r: Result<seq<Cell>>)
    requires WellFormed(f)
    ensures r.Ok? ==> "cluster" in f.columns && |r.value| == |f.rows|
  {
    match ColumnIndex(f.columns, "cluster")
    case None => Err("KeyError: 'cluster'")
    case Some(k) =>
      AllOk(seq(|f.rows|, i requires 0 <= i < |f.rows| => MseMinCell(f.rows[i][k], clusters)))
  }

  /** Every row gets the smallest kept MSE of its own cluster, which no kept MSE of that cluster
      undercuts. */
  lemma MseMinPerRow(f: Frame, clusters: map<int, ClusterEntry>)
    requires WellFormed(f) && MseMinColumn(f, clusters).Ok?
    ensures var k := ColumnIndex(f.columns, "cluster").value;
      forall i :: 0 <= i < |f.rows| ==>
        f.rows[i][k].Num? && Trunc(f.rows[i][k].v) in clusters && clusters[Trunc(f.rows[i][k].v)].Summary? &&
        var lows := clusters[Trunc(f.rows[i][k].v)].lowMses;
        |lows| > 0 && MseMinColumn(f, clusters).value[i] == Num(Stats.MinOf(lows)) &&
        (forall j :: 0 <= j < |lows| ==> Stats.MinOf(lows) <= lows[j]) && Stats.MinOf(lows) in lows
  {
    var k := ColumnIndex(f.columns, "cluster").value;
    var cells := seq(|f.rows|, i requires 0 <= i < |f.rows| => MseMinCell(f.rows[i][k], clusters));
    assert MseMinColumn(f, clusters) == AllOk(cells);
    forall i | 0 <= i < |f.rows|
      ensures MseMinCell(f.rows[i][k], clusters) == Ok(MseMinColumn(f, clusters).value[i])
    {
      assert cells[i] == MseMinCell(f.rows[i][k], clusters);
    }
  }

  /** `add_mse_min_to_original_data(df, clusters)`: the column is computed first and assigned in
      place; a failure leaves the frame as it was. */
  method AddMseMinToOriginalData(t: Table, clusters: map<int, ClusterEntry>) returns (r: Result<seq<Cell>>)
    requires t.Valid()
    modifies t
    ensures t.Valid() && r == MseMinColumn(old(t.Snapshot()), clusters)
    ensures r.Ok? ==> t.Snapshot() == WithColumn(old(t.Snapshot()), MseMinColumnName, r.value)
    ensures r.Err? ==> t.Snapshot() == old(t.Snapshot())
  {
    r := MseMinColumn(t.Snapshot(), clusters);
    if r.Ok? {
      t.SetColumn(MseMinColumnName, r.value);
    }
  }
}
