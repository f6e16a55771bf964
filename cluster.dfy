/** `src/cluster/cluster.py`: k-means clustering of the rows on chosen feature columns,
    with the number of clusters picked by the best silhouette score when it is not
    given. K-means itself is not modelled: `score(k)` is the silhouette score of the
    k-means fit with k clusters and `fit(k)` its label per row. */
module Cluster {
  import opened Wrappers
  import opened Frames
  import Stats
  import DfUtils

  /** The candidate numbers of clusters, `range(2, 11)`. */
  const FirstK: nat := 2
  const LastK: nat := 10

  /** The loop over `range(2, 11)`: one silhouette score per candidate k, in order. */
  method SilhouetteScores(score: nat -> real) returns (scores: seq<real>)
    ensures scores == CandidateScores(score)
  {
    scores := [];
    var k := FirstK;
    while k <= LastK
      invariant FirstK <= k <= LastK + 1
      invariant |scores| == k - FirstK
      invariant forall i :: 0 <= i < |scores| ==> scores[i] == score(i + FirstK)
    {
      scores := scores + [score(k)];
      k := k + 1;
    }
  }

  /** The silhouette scores of the candidates, k = 2 first. */
  function CandidateScores(score: nat -> real): (s: seq<real>)
    ensures |s| == LastK - FirstK + 1
    ensures forall i :: 0 <= i < |s| ==> s[i] == score(i + FirstK)
  {
    seq(LastK - FirstK + 1, i requires 0 <= i => score(i + FirstK))
  }

  /** `silhouette_scores.index(max(silhouette_scores)) + 2`: a k in [2, 10] whose score
      is at least every candidate's and strictly above every smaller candidate's, so ties
      go to the smallest k. */
  function BestK(scores: seq<real>): (k: nat)
    requires |scores| == LastK - FirstK + 1
    ensures FirstK <= k <= LastK
    ensures forall i :: 0 <= i < |scores| ==> scores[i] <= scores[k - FirstK]
    ensures forall i :: 0 <= i < k - FirstK ==> scores[i] < scores[k - FirstK]
  {
    Stats.ArgMax(scores) + FirstK
  }

  /** The number of distinct labels of a fit. */
  function LabelCount(labels: seq<int>): nat {
    |set x | x in labels|
  }

  /** `silhouette_score` accepts a labelling of `n` rows with 2 to n - 1 distinct labels. */
  predicate ValidLabelCount(labels: seq<int>, n: nat) {
    2 <= LabelCount(labels) <= n - 1
  }

  /** Candidate `m` neither asks k-means for more clusters than the `n` rows nor gives a
      labelling `silhouette_score` refuses. */
  predicate CandidateAccepted(n: nat, fit: nat -> seq<int>, m: nat) {
    m <= n && ValidLabelCount(fit(m), n)
  }

  /** The loop over candidates `k` .. 10 stops at the first k-means fit with more
      clusters than rows, or at the first labelling `silhouette_score` refuses. */
  function SearchRefusal(n: nat, fit: nat -> seq<int>, k: nat): (r: Option<string>)
    ensures r.None? <==> forall m :: k <= m <= LastK ==> CandidateAccepted(n, fit, m)
    decreases LastK + 1 - k
  {
    if k > LastK then None
    else if !CandidateAccepted(n, fit, k) then
      if n < k then Some("ValueError: n_samples should be >= n_clusters")
      else Some("ValueError: Number of labels is invalid")
    else SearchRefusal(n, fit, k + 1)
  }

  /** Why `perform_kmeans` cannot cluster: no row or no feature column (in the order
      StandardScaler checks them), a text cell `float()` cannot read (StandardScaler
      converts the others) or a NaN (KMeans rejects it) in a feature column, or, when k is
      given, fewer rows than clusters; when k is chosen, a candidate with more clusters
      than rows or a fit `silhouette_score` refuses. `parse` is Python's `float()` on text. */
  function Refusal(f: Frame, mnemonics: seq<string>, k: Option<int>, fit: nat -> seq<int>,
                   parse: string -> Option<real>): (r: Option<string>)
    ensures var cols := DfUtils.ColumnsByMnemonics(f.columns, mnemonics);
      r.None? <==> (|cols| > 0 && |f.rows| > 0 && FloatsIn(f, cols, parse) &&
                    (k.None? ==> forall m :: FirstK <= m <= LastK ==> CandidateAccepted(|f.rows|, fit, m)) &&
                    (k.Some? ==> 1 <= k.value <= |f.rows|))
  {
    var cols := DfUtils.ColumnsByMnemonics(f.columns, mnemonics);
    if |f.rows| == 0 then Some("ValueError: Found array with 0 sample(s)")
    else if |cols| == 0 then Some("ValueError: Found array with 0 feature(s)")
    else if UnreadableIn(f, cols, parse) then Some("ValueError: could not convert string to float")
    else if !FloatsIn(f, cols, parse) then Some("ValueError: Input X contains NaN")
    else match k
      case None => SearchRefusal(|f.rows|, fit, FirstK)
      case Some(n) =>
        if n < 1 then Some("InvalidParameterError: n_clusters must be at least 1")
        else if |f.rows| < n then Some("ValueError: n_samples should be >= n_clusters") else None
  }

  /** With k chosen, clustering goes ahead only with at least ten rows. */
  lemma ChosenNeedsTenRows(f: Frame, mnemonics: seq<string>, fit: nat -> seq<int>, parse: string -> Option<real>)
    requires Refusal(f, mnemonics, None, fit, parse).None?
    ensures |f.rows| >= LastK
  {
    assert FirstK <= LastK <= LastK;
  }

  /** When k is chosen, a two-cluster fit with a single label (as identical rows give)
      makes `silhouette_score` raise. */
  lemma FitWithOneLabelRefused(f: Frame, mnemonics: seq<string>, fit: nat -> seq<int>,
                                 parse: string -> Option<real>)
    requires LabelCount(fit(FirstK)) < 2
    ensures Refusal(f, mnemonics, None, fit, parse).Some?
  {
  }

  /** `perform_kmeans(df, columns, k)`: the frame gains (or has replaced) a `cluster`
      column holding, row by row, the labels of the k-means fit with the given k, or with
      the k of the best silhouette score when none is given; nothing else changes. The
      chosen k is returned. */
  method PerformKmeans(t: Table, mnemonics: seq<string>, k: Option<int>, score: nat -> real, fit: nat -> seq<int>,
                       parse: string -> Option<real>)
    returns (r: Result<nat>)
    requires t.Valid()
    requires forall n :: |fit(n)| == |t.rows|
    modifies t
    ensures t.Valid()
    ensures r.Err? <==> Refusal(old(t.Snapshot()), mnemonics, k, fit, parse).Some?
    ensures r.Err? ==> t.Snapshot() == old(t.Snapshot())
    ensures r.Ok? && k.Some? ==> r.value == k.value
    ensures r.Ok? && k.None? ==> r.value == BestK(CandidateScores(score))
    ensures r.Ok? ==> t.Snapshot() == WithColumn(old(t.Snapshot()), "cluster", Labels(fit(r.value)))
  {
    var refusal := Refusal(t.Snapshot(), mnemonics, k, fit, parse);
    if refusal.Some? {
      return Err(refusal.value);
    }
    var chosen: nat;
    if k.None? {
      var scores := SilhouetteScores(score);
      chosen := BestK(scores);
    } else {
      chosen := k.value;
    }
    t.SetColumn("cluster", Labels(fit(chosen)));
    return Ok(chosen);
  }

  /** `kmeans.labels_` as a column of numbers. */
  function Labels(labels: seq<int>): (c: seq<Cell>)
    ensures |c| == |labels| && forall i :: 0 <= i < |labels| ==> c[i] == Num(labels[i] as real)
  {
    seq(|labels|, i requires 0 <= i < |labels| => Num(labels[i] as real))
  }
}
