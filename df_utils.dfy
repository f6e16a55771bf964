/** The DataFrame helpers of `src/utils/df_utils.py`: finding columns by mnemonic,
    per-cluster bounds and the first-match header lookup. */
module DfUtils {
  import opened Wrappers
  import opened Text
  import opened Frames
  import Stats

  /** The `mnemonics` argument: a single string or a list of strings. */
  datatype Mnemonics = One(name: string) | Many(names: seq<string>)

  /** A single string is searched as a one-element list. */
  function Names(m: Mnemonics): seq<string> {
    match m
    case One(name) => [name]
    case Many(names) => names
  }

  /** The `df` argument: a DataFrame (its column names), a Series or a plain list. */
  datatype Searched = DataFrameArg(columns: seq<string>) | SeriesArg(items: seq<string>) | ListArg(items: seq<string>)

  /** `mnemonic.lower() in col.lower()`. */
  predicate Matches(col: string, mnemonic: string) {
    Contains(Lower(col), Lower(mnemonic))
  }

  /** The first position at or after `j` whose column name contains the mnemonic. */
  function FirstMatchFrom(columns: seq<string>, mnemonic: string, j: nat): (r: Option<nat>)
    requires j <= |columns|
    ensures r.Some? ==> j <= r.value < |columns| && Matches(columns[r.value], mnemonic)
    ensures r.Some? ==> forall i :: j <= i < r.value ==> !Matches(columns[i], mnemonic)
    ensures r.None? ==> forall i :: j <= i < |columns| ==> !Matches(columns[i], mnemonic)
    decreases |columns| - j
  {
    if j == |columns| then None
    else if Matches(columns[j], mnemonic) then Some(j)
    else FirstMatchFrom(columns, mnemonic, j + 1)
  }

  function FirstMatch(columns: seq<string>, mnemonic: string): Option<nat> {
    FirstMatchFrom(columns, mnemonic, 0)
  }

  /** What one mnemonic contributes: its first matching column, or nothing. */
  function Found(columns: seq<string>, mnemonic: string): (r: seq<string>)
    ensures |r| <= 1
  {
    match FirstMatch(columns, mnemonic)
    case None => []
    case Some(j) => [columns[j]]
  }

  /** The columns `get_columns_by_mnemonics` returns for a DataFrame with these column names. */
  function ColumnsByMnemonics(columns: seq<string>, mnemonics: seq<string>): (r: seq<string>)
    ensures |r| <= |mnemonics|
    ensures forall i :: 0 <= i < |r| ==> r[i] in columns
    decreases |mnemonics|
  {
    if |mnemonics| == 0 then []
    else ColumnsByMnemonics(columns, mnemonics[..|mnemonics| - 1]) + Found(columns, mnemonics[|mnemonics| - 1])
  }

  /** One more mnemonic appends what it finds. */
  lemma ColumnsByMnemonicsSnoc(columns: seq<string>, mnemonics: seq<string>, i: nat)
    requires i < |mnemonics|
    ensures ColumnsByMnemonics(columns, mnemonics[..i + 1]) ==
      ColumnsByMnemonics(columns, mnemonics[..i]) + Found(columns, mnemonics[i])
  {
    assert mnemonics[..i + 1][..i] == mnemonics[..i];
  }

  /** The column names the search reads: only a DataFrame has any. */
  function SearchedColumns(df: Searched): seq<string> {
    if df.DataFrameArg? then df.columns else []
  }

  /** What Python reports when a Series or a list is asked for its `columns`. */
  const NoColumnsError := "AttributeError: object has no attribute 'columns'"

  /** `get_columns_by_mnemonics(df, mnemonics)`: for each mnemonic in turn, the first column
      (in frame order) whose lower-cased name contains it; unmatched mnemonics add nothing.
      The search always reads `df.columns`, so a Series or a list fails as soon as there is a
      mnemonic to look up. */
  method GetColumnsByMnemonics(df: Searched, mnemonics: Mnemonics) returns (r: Result<seq<string>>)
    ensures r.Err? <==> !df.DataFrameArg? && |Names(mnemonics)| > 0
    ensures r.Ok? ==> r.value == ColumnsByMnemonics(SearchedColumns(df), Names(mnemonics))
  {
    var ms := Names(mnemonics);
    if |ms| > 0 && !df.DataFrameArg? {
      // the first lookup already reads `df.columns`
      return Err(NoColumnsError);
    }
    var columns := CollectMatches(SearchedColumns(df), ms);
    return Ok(columns);
  }

  /** The outer loop of `get_columns_by_mnemonics` over a DataFrame's column names. */
  method CollectMatches(cols: seq<string>, ms: seq<string>) returns (columns: seq<string>)
    ensures columns == ColumnsByMnemonics(cols, ms)
  {
    columns := [];
    for i := 0 to |ms|
      invariant columns == ColumnsByMnemonics(cols, ms[..i])
    {
      var found := FirstMatching(cols, ms[i]);
      ColumnsByMnemonicsSnoc(cols, ms, i);
      columns := columns + found;
    }
    assert ms[..|ms|] == ms;
  }

  /** The inner loop of `get_columns_by_mnemonics`: scan the columns in order and keep
      the first whose lower-cased name contains the mnemonic. */
  method FirstMatching(cols: seq<string>, mnemonic: string) returns (found: seq<string>)
    ensures found == Found(cols, mnemonic)
  {
    found := [];
    var j := 0;
    while j < |cols|
      invariant 0 <= j <= |cols|
      invariant found == []
      invariant FirstMatch(cols, mnemonic) == FirstMatchFrom(cols, mnemonic, j)
    {
      if Matches(cols[j], mnemonic) {
        found := [cols[j]];
        break;
      }
      j := j + 1;
    }
  }

  /** Every mnemonic is resolved exactly when the result is as long as the mnemonic list,
      and then the result lines up with the mnemonics position by position. */
  lemma {:induction false} AllResolved(columns: seq<string>, mnemonics: seq<string>)
    ensures |ColumnsByMnemonics(columns, mnemonics)| == |mnemonics| <==>
      forall i :: 0 <= i < |mnemonics| ==> FirstMatch(columns, mnemonics[i]).Some?
    ensures |ColumnsByMnemonics(columns, mnemonics)| == |mnemonics| ==>
      forall i :: 0 <= i < |mnemonics| ==>
        ColumnsByMnemonics(columns, mnemonics)[i] == columns[FirstMatch(columns, mnemonics[i]).value]
    decreases |mnemonics|
  {
    if |mnemonics| > 0 {
      var init := mnemonics[..|mnemonics| - 1];
      AllResolved(columns, init);
      assert forall i :: 0 <= i < |init| ==> init[i] == mnemonics[i];
      var r := ColumnsByMnemonics(columns, mnemonics);
      var p := ColumnsByMnemonics(columns, init);
      if |r| == |mnemonics| {
        assert |p| == |init| && |Found(columns, mnemonics[|mnemonics| - 1])| == 1;
      }
    }
  }

  /** A column name is always found when it is itself used as the mnemonic. */
  lemma ExactNameFound(columns: seq<string>, name: string)
    requires name in columns
    ensures ColumnsByMnemonics(columns, [name]) != []
  {
    var j :| 0 <= j < |columns| && columns[j] == name;
    assert Matches(columns[j], name);
    assert [name][..0] == [];
  }

  /** A column name that no column contains (ignoring case) is not among the columns. */
  lemma AbsentWhenNotFound(columns: seq<string>, name: string)
    requires ColumnsByMnemonics(columns, [name]) == []
    ensures name !in columns
  {
    if name in columns {
      ExactNameFound(columns, name);
    }
  }

  // ----- bounds per cluster -----

  /** The (low, high) pair stored for a mnemonic; `None` stands for NaN. */
  datatype Bound = Bound(low: Option<real>, high: Option<real>)

  /** The lithology column mnemonics, compared case-sensitively. */
  const LithologyMnemonics: seq<string> := ["Si", "Shale", "Dolomite", "Limestone"]

  /** The numeric values of column `j` in the rows whose column `k` holds the cluster label. */
  function ClusterValues(rows: seq<Row>, j: nat, k: nat, cluster: real): (vs: seq<real>)
    requires forall r | r in rows :: j < |r| && k < |r|
    ensures |vs| <= |rows|
    ensures forall x | x in vs :: exists r | r in rows :: r[k] == Num(cluster) && r[j] == Num(x)
    decreases |rows|
  {
    if |rows| == 0 then []
    else
      var last := rows[|rows| - 1];
      var init := rows[..|rows| - 1];
      assert forall r | r in init :: r in rows;
      ClusterValues(init, j, k, cluster) +
        (if last[k] == Num(cluster) && last[j].Num? then [last[j].v] else [])
  }

  /** The bound for one mnemonic in one cluster, from the values of its column there. */
  function MnemonicBound(f: Frame, mnemonic: string, cluster: real, rule: (seq<real>, string) -> Bound): (r: Result<Bound>)
    requires WellFormed(f)
    ensures r.Ok? <==> ColumnsByMnemonics(f.columns, [mnemonic]) != [] && "cluster" in f.columns
  {
    var found := ColumnsByMnemonics(f.columns, [mnemonic]);
    if |found| == 0 then Err("IndexError: list index out of range")
    else
      match ColumnIndex(f.columns, "cluster")
      case None => Err("KeyError: 'cluster'")
      case Some(k) =>
        var j := ColumnIndex(f.columns, found[0]).value;
        Ok(rule(ClusterValues(f.rows, j, k, cluster), mnemonic))
  }

  /** A dictionary filled key by key from results computed in order; the first failed
      result's error when there is one. A repeated key keeps its last value. */
  function BuildMap<V>(keys: seq<string>, results: seq<Result<V>>): Result<map<string, V>>
    requires |keys| == |results|
    decreases |keys|
  {
    if |keys| == 0 then Ok(map[])
    else
      match BuildMap(keys[..|keys| - 1], results[..|keys| - 1])
      case Err(e) => Err(e)
      case Ok(prev) =>
        match results[|keys| - 1]
        case Err(e) => Err(e)
        case Ok(v) => Ok(prev[keys[|keys| - 1] := v])
  }

  /** One more key: a failed result ends the map with its error, a computed one
      sets the key's entry. */
  lemma BuildMapSnoc<V>(keys: seq<string>, results: seq<Result<V>>, i: nat)
    requires |keys| == |results| && i < |keys|
    requires BuildMap(keys[..i], results[..i]).Ok?
    ensures results[i].Err? ==> BuildMap(keys[..i + 1], results[..i + 1]) == Err(results[i].error)
    ensures results[i].Ok? ==>
      BuildMap(keys[..i + 1], results[..i + 1]) == Ok(BuildMap(keys[..i], results[..i]).value[keys[i] := results[i].value])
  {
    assert keys[..i + 1][..i] == keys[..i] && results[..i + 1][..i] == results[..i];
  }

  /** The map exists exactly when every result does; then it has one entry per key and no
      other, and the entry of a key is a result computed for that key. */
  lemma {:induction false} BuildMapEntries<V>(keys: seq<string>, results: seq<Result<V>>)
    requires |keys| == |results|
    ensures BuildMap(keys, results).Ok? <==> forall i :: 0 <= i < |results| ==> results[i].Ok?
    ensures BuildMap(keys, results).Ok? ==> forall k :: k in BuildMap(keys, results).value <==> k in keys
    ensures BuildMap(keys, results).Ok? ==> forall k :: k in BuildMap(keys, results).value ==>
      exists i :: 0 <= i < |keys| && keys[i] == k && results[i] == Ok(BuildMap(keys, results).value[k])
    decreases |keys|
  {
    if |keys| > 0 {
      var n := |keys| - 1;
      BuildMapEntries(keys[..n], results[..n]);
      assert keys == keys[..n] + [keys[n]];
      assert forall i :: 0 <= i < n ==> results[..n][i] == results[i] && keys[..n][i] == keys[i];
    }
  }

  /** Once a prefix of the results holds a failure, every longer prefix fails the same way. */
  lemma {:induction false} BuildMapErrorPersists<V>(keys: seq<string>, results: seq<Result<V>>, n: nat)
    requires |keys| == |results| && n <= |keys|
    requires BuildMap(keys[..n], results[..n]).Err?
    ensures BuildMap(keys, results) == BuildMap(keys[..n], results[..n])
    decreases |keys| - n
  {
    if n < |keys| {
      assert keys[..n + 1][..n] == keys[..n] && results[..n + 1][..n] == results[..n];
      BuildMapErrorPersists(keys, results, n + 1);
    } else {
      assert keys[..n] == keys && results[..n] == results;
    }
  }

  /** With distinct keys, each key's entry is the result computed at its own position. */
  lemma BuildMapDistinct<V>(keys: seq<string>, results: seq<Result<V>>)
    requires |keys| == |results| && BuildMap(keys, results).Ok?
    requires forall i, j :: 0 <= i < j < |keys| ==> keys[i] != keys[j]
    ensures forall i :: 0 <= i < |keys| ==>
      keys[i] in BuildMap(keys, results).value && results[i] == Ok(BuildMap(keys, results).value[keys[i]])
  {
    BuildMapEntries(keys, results);
    var m := BuildMap(keys, results).value;
    forall i | 0 <= i < |keys|
      ensures keys[i] in m && results[i] == Ok(m[keys[i]])
    {
      assert keys[i] in m;
      var j :| 0 <= j < |keys| && keys[j] == keys[i] && results[j] == Ok(m[keys[i]]);
      assert j == i;
    }
  }

  /** The bound computed for every mnemonic, in order. */
  function MnemonicBounds(f: Frame, mnemonics: seq<string>, cluster: real, rule: (seq<real>, string) -> Bound): (r: seq<Result<Bound>>)
    requires WellFormed(f)
    ensures |r| == |mnemonics|
  {
    seq(|mnemonics|, i requires 0 <= i < |mnemonics| => MnemonicBound(f, mnemonics[i], cluster, rule))
  }

  /** Entry `i` of `MnemonicBounds` is the bound of mnemonic `i`. */
  lemma MnemonicBoundAt(f: Frame, mnemonics: seq<string>, cluster: real, rule: (seq<real>, string) -> Bound, i: nat)
    requires WellFormed(f) && i < |mnemonics|
    ensures MnemonicBounds(f, mnemonics, cluster, rule)[i] == MnemonicBound(f, mnemonics[i], cluster, rule)
  {
  }

  /** The bounds dictionary of a `get_bounds_for_cluster` function. */
  function BoundsFor(f: Frame, mnemonics: seq<string>, cluster: real, rule: (seq<real>, string) -> Bound): Result<map<string, Bound>>
    requires WellFormed(f)
  {
    BuildMap(mnemonics, MnemonicBounds(f, mnemonics, cluster, rule))
  }

  /** The loop shared by the `get_bounds_for_cluster` functions: one entry per mnemonic,
      each computed by `rule` from the cluster's values of the mnemonic's column. */
  method FillBounds(f: Frame, mnemonics: seq<string>, cluster: real, rule: (seq<real>, string) -> Bound)
    returns (r: Result<map<string, Bound>>)
    requires WellFormed(f)
    ensures r == BoundsFor(f, mnemonics, cluster, rule)
  {
    ghost var results := MnemonicBounds(f, mnemonics, cluster, rule);
    var bounds: map<string, Bound> := map[];
    var i := 0;
    while i < |mnemonics|
      invariant 0 <= i <= |mnemonics|
      invariant BuildMap(mnemonics[..i], results[..i]) == Ok(bounds)
    {
      var b := MnemonicBound(f, mnemonics[i], cluster, rule);
      MnemonicBoundAt(f, mnemonics, cluster, rule, i);
      BuildMapSnoc(mnemonics, results, i);
      if b.Err? {
        BuildMapErrorPersists(mnemonics, results, i + 1);
        return Err(b.error);
      }
      bounds := bounds[mnemonics[i] := b.value];
      i := i + 1;
    }
    assert mnemonics[..i] == mnemonics && results[..i] == results;
    return Ok(bounds);
  }

  /** The rule of `df_utils.get_bounds_for_cluster`: the low end is the cluster minimum when it
      is not negative and 0.0001 otherwise (a NaN minimum fails the test too); the high end is
      the maximum, times 100 except for the lithology columns. */
  function ClampedBound(vs: seq<real>, mnemonic: string): (b: Bound)
    ensures b.low.Some? && b.low.value >= 0.0
    ensures |vs| > 0 && Stats.MinOf(vs) >= 0.0 ==> b.low == Some(Stats.MinOf(vs))
    ensures (|vs| == 0 || Stats.MinOf(vs) < 0.0) ==> b.low == Some(0.0001)
    ensures |vs| == 0 <==> b.high.None?
    ensures |vs| > 0 && mnemonic in LithologyMnemonics ==> b.high == Some(Stats.MaxOf(vs))
    ensures |vs| > 0 && mnemonic !in LithologyMnemonics ==> b.high == Some(Stats.MaxOf(vs) * 100.0)
  {
    var low := if |vs| > 0 && Stats.MinOf(vs) >= 0.0 then Stats.MinOf(vs) else 0.0001;
    var high := if |vs| == 0 then None
                else Some(Stats.MaxOf(vs) * (if mnemonic !in LithologyMnemonics then 100.0 else 1.0));
    Bound(Some(low), high)
  }

  /** `df_utils.get_bounds_for_cluster(df, X_mnemonics, cluster)`. */
  method GetBoundsForCluster(f: Frame, mnemonics: seq<string>, cluster: real) returns (r: Result<map<string, Bound>>)
    requires WellFormed(f)
    ensures r == BoundsFor(f, mnemonics, cluster, ClampedBound)
  {
    r := FillBounds(f, mnemonics, cluster, ClampedBound);
  }

  /** Every low end produced by `df_utils.get_bounds_for_cluster` is a non-negative number. */
  lemma ClampedLowNonNegative(f: Frame, mnemonics: seq<string>, cluster: real)
    requires WellFormed(f) && BoundsFor(f, mnemonics, cluster, ClampedBound).Ok?
    ensures forall m | m in BoundsFor(f, mnemonics, cluster, ClampedBound).value ::
      BoundsFor(f, mnemonics, cluster, ClampedBound).value[m].low.Some? &&
      BoundsFor(f, mnemonics, cluster, ClampedBound).value[m].low.value >= 0.0
  {
    BuildMapEntries(mnemonics, MnemonicBounds(f, mnemonics, cluster, ClampedBound));
  }

  // ----- header lookup -----

  /** A header table: (standard header, regular expression or None), in insertion order. */
  type PatternTable = seq<(string, Option<string>)>

  /** Entry `i` has a pattern and that pattern matches the mnemonic. */
  predicate EntryMatches(table: PatternTable, i: nat, mnemonic: string, matches: (string, string) -> bool)
    requires i < |table|
  {
    table[i].1.Some? && matches(table[i].1.value, mnemonic)
  }

  /** Entry `i` matches and no earlier entry does. */
  predicate IsFirstEntry(table: PatternTable, i: nat, mnemonic: string, matches: (string, string) -> bool) {
    i < |table| && EntryMatches(table, i, mnemonic, matches) &&
    forall k :: 0 <= k < i ==> !EntryMatches(table, k, mnemonic, matches)
  }

  /** The first entry at or after `j` whose pattern matches. */
  function FirstEntryFrom(table: PatternTable, mnemonic: string, matches: (string, string) -> bool, j: nat): (r: Option<nat>)
    requires j <= |table|
    ensures r.Some? ==> j <= r.value < |table| && EntryMatches(table, r.value, mnemonic, matches)
    ensures r.Some? ==> forall i :: j <= i < r.value ==> !EntryMatches(table, i, mnemonic, matches)
    ensures r.None? ==> forall i :: j <= i < |table| ==> !EntryMatches(table, i, mnemonic, matches)
    decreases |table| - j
  {
    if j == |table| then None
    else if EntryMatches(table, j, mnemonic, matches) then Some(j)
    else FirstEntryFrom(table, mnemonic, matches, j + 1)
  }

  /** `get_header_from_mnemonic(header_patterns, mnemonic)`: the header of the first entry,
      in table order, whose pattern is not None and matches; None when there is none.
      `matches(pattern, text)` stands for `re.match(pattern, text, re.IGNORECASE)`. */
  method GetHeaderFromMnemonic(table: PatternTable, mnemonic: string, matches: (string, string) -> bool)
    returns (r: Option<string>)
    ensures r.None? <==> forall i :: 0 <= i < |table| ==> !EntryMatches(table, i, mnemonic, matches)
    ensures r.Some? ==> exists i :: 0 <= i < |table| && IsFirstEntry(table, i, mnemonic, matches) && table[i].0 == r.value
  {
    var j := 0;
    while j < |table|
      invariant 0 <= j <= |table|
      invariant forall k :: 0 <= k < j ==> !EntryMatches(table, k, mnemonic, matches)
    {
      if table[j].1.Some? && matches(table[j].1.value, mnemonic) {
        assert IsFirstEntry(table, j, mnemonic, matches);
        return Some(table[j].0);
      }
      j := j + 1;
    }
    return None;
  }
}
