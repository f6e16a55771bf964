/** `unsupervised_learning.py`: the earlier k-means helper. The feature columns are taken
    by name, and when no k is given the k with the smallest within-cluster sum of squares
    over k = 1..10 is used. K-means is not modelled: `sse(k)` is the inertia of the fit
    with k clusters and `fit(k)` its label per row. */
module UnsupervisedLearning {
  import opened Wrappers
  import opened Frames
  import Stats
  import Cluster

  /** The candidate numbers of clusters, `range(1, 11)`. */
  const FirstK: nat := 1
  const LastK: nat := 10

  /** The inertia of the candidates, k = 1 first. */
  function CandidateSse(sse: nat -> real): (s: seq<real>)
    ensures |s| == LastK - FirstK + 1
    ensures forall i :: 0 <= i < |s| ==> s[i] == sse(i + FirstK)
  {
    seq(LastK - FirstK + 1, i requires 0 <= i => sse(i + FirstK))
  }

  /** The loop over `range(1, 11)`: one inertia per candidate k, in order. */
  method SseCurve(sse: nat -> real) returns (values: seq<real>)
    ensures values == CandidateSse(sse)
  {
    values := [];
    var k := FirstK;
    while k <= LastK
      invariant FirstK <= k <= LastK + 1
      invariant |values| == k - FirstK
      invariant forall i :: 0 <= i < |values| ==> values[i] == sse(i + FirstK)
    {
      values := values + [sse(k)];
      k := k + 1;
    }
  }

  /** `sse.index(min(sse)) + 1`: a k in [1, 10] whose inertia is at most every
      candidate's and strictly below every smaller candidate's. Inertia never grows
      with k, so this is the first k reaching the smallest inertia, not an elbow. */
  function SmallestSseK(values: seq<real>): (k: nat)
    requires |values| == LastK - FirstK + 1
    ensures FirstK <= k <= LastK
    ensures forall i :: 0 <= i < |values| ==> values[k - FirstK] <= values[i]
    ensures forall i :: 0 <= i < k - FirstK ==> values[k - FirstK] < values[i]
  {
    Stats.ArgMin(values) + FirstK
  }

  /** Every name in `columns` is a column of the frame. */
  predicate HasColumns(f: Frame, columns: seq<string>) {
    forall c :: c in columns ==> c in f.columns
  }

  /** Why `kmeans_cluster` cannot cluster: a missing column, no row or no column (in the
      order KMeans checks them), a text cell `float()` cannot read (KMeans converts the
      others) or a NaN in a named column, or fewer rows than clusters asked of k-means.
      `parse` is Python's `float()` on text. */
  function Refusal(f: Frame, columns: seq<string>, k: Option<int>, parse: string -> Option<real>): (r: Option<string>)
    ensures r.None? <==> (HasColumns(f, columns) && |columns| > 0 && |f.rows| > 0 && FloatsIn(f, columns, parse) &&
                          (k.None? ==> |f.rows| >= LastK) && (k.Some? ==> 1 <= k.value <= |f.rows|))
    ensures HasColumns(f, columns) && |columns| > 0 && |f.rows| > 0 && !FloatsIn(f, columns, parse) ==>
      r == Some(if UnreadableIn(f, columns, parse) then "ValueError: could not convert string to float"
                else "ValueError: Input X contains NaN")
  {
    if !HasColumns(f, columns) then Some("KeyError: not in index")
    else if |f.rows| == 0 then Some("ValueError: Found array with 0 sample(s)")
    else if |columns| == 0 then Some("ValueError: Found array with 0 feature(s)")
    else if UnreadableIn(f, columns, parse) then Some("ValueError: could not convert string to float")
    else if !FloatsIn(f, columns, parse) then Some("ValueError: Input X contains NaN")
    else match k
      case None => if |f.rows| < LastK then Some("ValueError: n_samples should be >= n_clusters") else None
      case Some(n) =>
        if n < 1 then Some("InvalidParameterError: n_clusters must be at least 1")
        else if |f.rows| < n then Some("ValueError: n_samples should be >= n_clusters") else None
  }

  /** A feature cell holding text that spells a number, such as "1.5", is converted and
      clustered, like the number itself. */
  lemma NumberTextClustered(parse: string -> Option<real>)
    requires parse("1.5") == Some(1.5)
    ensures Refusal(Frame(["x"], [[Str("1.5")]]), ["x"], Some(1), parse).None?
    ensures Refusal(Frame(["x"], [[Str("1.5")]]), ["x"], Some(1), parse) ==
      Refusal(Frame(["x"], [[Num(1.5)]]), ["x"], Some(1), parse)
  {
    var f := Frame(["x"], [[Str("1.5")]]);
    assert HasColumns(f, ["x"]);
    assert FloatsIn(f, ["x"], parse);
  }

  /** A feature cell holding text that `float()` cannot read stops the clustering. */
  lemma WordTextRefused(parse: string -> Option<real>)
    requires parse("shale") == None
    ensures Refusal(Frame(["x"], [[Str("shale")]]), ["x"], Some(1), parse) ==
      Some("ValueError: could not convert string to float")
  {
    var f := Frame(["x"], [[Str("shale")]]);
    assert HasColumns(f, ["x"]);
    assert f.rows[0][0].Str? && f.columns[0] in ["x"];
  }

  /** `kmeans_cluster(df, columns, k)`: the frame gains (or has replaced) a `cluster`
      column holding the labels of the k-means fit with the given k, or with the k of the
      smallest inertia when none is given; nothing else changes. The k used is returned. */
  method KmeansCluster(t: Table, columns: seq<string>, k: Option<int>, sse: nat -> real, fit: nat -> seq<int>,
                       parse: string -> Option<real>)
    returns (r: Result<nat>)
    requires t.Valid()
    requires forall n :: |fit(n)| == |t.rows|
    modifies t
    ensures t.Valid()
    ensures r.Err? <==> Refusal(old(t.Snapshot()), columns, k, parse).Some?
    ensures r.Err? ==> t.Snapshot() == old(t.Snapshot())
    ensures r.Ok? && k.Some? ==> r.value == k.value
    ensures r.Ok? && k.None? ==> r.value == SmallestSseK(CandidateSse(sse))
    ensures r.Ok? ==> t.Snapshot() == WithColumn(old(t.Snapshot()), "cluster", Cluster.Labels(fit(r.value)))
  {
    var refusal := Refusal(t.Snapshot(), columns, k, parse);
    if refusal.Some? {
      return Err(refusal.value);
    }
    var chosen: nat;
    if k.None? {
      var values := SseCurve(sse);
      chosen := SmallestSseK(values);
    } else {
      chosen := k.value;
    }
    t.SetColumn("cluster", Cluster.Labels(fit(chosen)));
    return Ok(chosen);
  }
}
