/** Reductions over real sequences as numpy and pandas compute them:
    sum, min, max, and quantiles by linear interpolation between order statistics. */
module Stats {

  function Sum(s: seq<real>): real {
    if |s| == 0 then 0.0 else Sum(s[..|s| - 1]) + s[|s| - 1]
  }

  /** `min(s)`; the first minimum wins, as numpy reports it. */
  function MinOf(s: seq<real>): (m: real)
    requires |s| > 0
    ensures m in s && forall i :: 0 <= i < |s| ==> m <= s[i]
  {
    if |s| == 1 then s[0]
    else
      var m := MinOf(s[1..]);
      assert forall i :: 1 <= i < |s| ==> s[i] == s[1..][i - 1];
      if s[0] <= m then s[0] else m
  }

  /** `max(s)`. */
  function MaxOf(s: seq<real>): (m: real)
    requires |s| > 0
    ensures m in s && forall i :: 0 <= i < |s| ==> s[i] <= m
  {
    if |s| == 1 then s[0]
    else
      var m := MaxOf(s[1..]);
      assert forall i :: 1 <= i < |s| ==> s[i] == s[1..][i - 1];
      if s[0] >= m then s[0] else m
  }

  predicate Sorted(s: seq<real>) {
    forall i, j :: 0 <= i < j < |s| ==> s[i] <= s[j]
  }

  function Insert(x: real, s: seq<real>): (r: seq<real>)
    requires Sorted(s)
    ensures Sorted(r) && multiset(r) == multiset(s) + multiset{x} && |r| == |s| + 1
    ensures r[0] == x || (|s| > 0 && r[0] == s[0])
  {
    if |s| == 0 || x <= s[0] then [x] + s
    else
      assert s == [s[0]] + s[1..];
      var t := Insert(x, s[1..]);
      assert s[0] <= t[0];
      [s[0]] + t
  }

  /** The values in ascending order (the order numpy's quantiles read them in). */
  function SortAscending(s: seq<real>): (r: seq<real>)
    ensures Sorted(r) && multiset(r) == multiset(s) && |r| == |s|
  {
    if |s| == 0 then []
    else
      assert s == s[..|s| - 1] + [s[|s| - 1]];
      Insert(s[|s| - 1], SortAscending(s[..|s| - 1]))
  }

  /** The first element of a sorted permutation is the minimum, the last the maximum. */
  lemma SortedEnds(s: seq<real>, r: seq<real>)
    requires |s| > 0 && Sorted(r) && multiset(r) == multiset(s)
    ensures |r| == |s| && r[0] == MinOf(s) && r[|r| - 1] == MaxOf(s)
  {
    assert |r| == |multiset(r)| == |multiset(s)| == |s|;
    SortedFirst(s, r);
    SortedLast(s, r);
  }

  lemma SortedFirst(s: seq<real>, r: seq<real>)
    requires |s| > 0 && |r| == |s| && Sorted(r) && multiset(r) == multiset(s)
    ensures r[0] == MinOf(s)
  {
    assert r[0] in multiset(s);
    assert MinOf(s) in multiset(r);
  }

  lemma SortedLast(s: seq<real>, r: seq<real>)
    requires |s| > 0 && |r| == |s| && Sorted(r) && multiset(r) == multiset(s)
    ensures r[|r| - 1] == MaxOf(s)
  {
    assert r[|r| - 1] in multiset(s);
    assert MaxOf(s) in multiset(r);
  }

  /** The fractional rank (n-1)q at which the q-quantile of n values sits. */
  function Rank(n: nat, q: real): (h: real)
    requires n > 0 && 0.0 <= q <= 1.0
    ensures 0.0 <= h <= (n - 1) as real
  {
    ScaleBetween(q, (n - 1) as real);
    (n - 1) as real * q
  }

  lemma ScaleBetween(f: real, d: real)
    requires 0.0 <= f <= 1.0 && 0.0 <= d
    ensures 0.0 <= f * d <= d
  {
  }

  /** The value at fractional position `h` of `r`, interpolated linearly. */
  function Interpolate(r: seq<real>, h: real): real
    requires |r| > 0 && 0.0 <= h <= (|r| - 1) as real
  {
    var k := h.Floor;
    if k + 1 < |r| then Mix(r[k], r[k + 1], h - k as real) else r[k]
  }

  lemma InterpolateBetween(r: seq<real>, h: real)
    requires |r| > 0 && 0.0 <= h <= (|r| - 1) as real && Sorted(r)
    ensures r[0] <= Interpolate(r, h) <= r[|r| - 1]
  {
    var k := h.Floor;
    FloorFraction(h);
    SortedLe(r, 0, k);
    SortedLe(r, k, |r| - 1);
    if k + 1 < |r| {
      SortedLe(r, k, k + 1);
      SortedLe(r, k + 1, |r| - 1);
      Lerp(r[k], r[k + 1], h - k as real);
    }
  }

  lemma FloorFraction(h: real)
    requires 0.0 <= h
    ensures 0 <= h.Floor && 0.0 <= h - h.Floor as real < 1.0
  {
  }

  /** The point at fraction `f` of the way from `a` to `b`. */
  function Mix(a: real, b: real, f: real): real {
    a + f * (b - a)
  }

  /** Linear interpolation between two ordered values stays between them. */
  lemma Lerp(a: real, b: real, f: real)
    requires a <= b && 0.0 <= f <= 1.0
    ensures a <= Mix(a, b, f) <= b
  {
    var d := b - a;
    assert f * d >= 0.0;
    assert d - f * d == (1.0 - f) * d;
    assert (1.0 - f) * d >= 0.0;
  }

  lemma SortedLe(r: seq<real>, i: nat, j: nat)
    requires Sorted(r) && i <= j < |r|
    ensures r[i] <= r[j]
  {
  }

  /** `np.percentile(s, 100*q)` / `Series.quantile(q)` with linear interpolation:
      the order statistic at position (n-1)q, interpolated with its successor. */
  function Quantile(s: seq<real>, q: real): (t: real)
    requires |s| > 0 && 0.0 <= q <= 1.0
  {
    Interpolate(SortAscending(s), Rank(|s|, q))
  }

  /** Every quantile lies between the minimum and the maximum of the data. */
  lemma QuantileBetween(s: seq<real>, q: real)
    requires |s| > 0 && 0.0 <= q <= 1.0
    ensures MinOf(s) <= Quantile(s, q) <= MaxOf(s)
  {
    var r := SortAscending(s);
    SortedEnds(s, r);
    InterpolateBetween(r, Rank(|s|, q));
  }

  /** Some element of the data is at or below any of its quantiles. */
  lemma QuantileReached(s: seq<real>, q: real) returns (i: nat)
    requires |s| > 0 && 0.0 <= q <= 1.0
    ensures i < |s| && s[i] <= Quantile(s, q)
  {
    QuantileBetween(s, q);
    var m := MinOf(s);
    i :| i < |s| && s[i] == m;
  }

  /** `s.index(v)`: the first position holding `v`. */
  function FirstIndexOf(s: seq<real>, v: real): (i: nat)
    requires v in s
    ensures i < |s| && s[i] == v
    ensures forall j :: 0 <= j < i ==> s[j] != v
  {
    if s[0] == v then 0 else 1 + FirstIndexOf(s[1..], v)
  }

  /** `s.index(max(s))`: the first position of a largest element. */
  function ArgMax(s: seq<real>): (i: nat)
    requires |s| > 0
    ensures i < |s| && forall j :: 0 <= j < |s| ==> s[j] <= s[i]
    ensures forall j :: 0 <= j < i ==> s[j] < s[i]
  {
    FirstIndexOf(s, MaxOf(s))
  }

  /** `s.index(min(s))`: the first position of a smallest element. */
  function ArgMin(s: seq<real>): (i: nat)
    requires |s| > 0
    ensures i < |s| && forall j :: 0 <= j < |s| ==> s[i] <= s[j]
    ensures forall j :: 0 <= j < i ==> s[i] < s[j]
  {
    FirstIndexOf(s, MinOf(s))
  }
}
