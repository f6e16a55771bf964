/** Splitting merged "Header (unit)" column names back into a header row and a
    units row before a frame is written out. */
module SaveFile {
  import opened Wrappers
  import opened Frames
  import Text

  /** The header part of a merged name: the text before the first "(", stripped. */
  function HeaderOf(column: string): string {
    Text.Strip(Text.Split(column, "(")[0])
  }

  /** The unit part: the text after the last "(" up to the next ")", stripped;
      "" unless both parentheses occur. */
  function UnitOf(column: string): string {
    if '(' in column && ')' in column then
      Text.Strip(Text.Split(Text.Last(Text.Split(column, "(")), ")")[0])
    else ""
  }

  function Headers(columns: seq<string>): (hs: seq<string>)
    ensures |hs| == |columns|
  {
    seq(|columns|, k requires 0 <= k < |columns| => HeaderOf(columns[k]))
  }

  /** Position `k` of `Headers` is the header part of column `k`; kept out of the
      ensures of `Headers` so that the splitting and stripping are unfolded only
      where a proof asks for them. */
  lemma HeaderAt(columns: seq<string>, k: nat)
    requires k < |columns|
    ensures Headers(columns)[k] == HeaderOf(columns[k])
  {
  }

  /** The last position holding `h`. */
  function LastIndex(hs: seq<string>, h: string): (j: nat)
    requires h in hs
    ensures j < |hs| && hs[j] == h
    decreases |hs|
  {
    if hs[|hs| - 1] == h then |hs| - 1
    else
      assert hs == hs[..|hs| - 1] + [hs[|hs| - 1]];
      LastIndex(hs[..|hs| - 1], h)
  }

  /** No position after `LastIndex(hs, h)` holds `h`. */
  lemma {:induction false} LastIndexIsLast(hs: seq<string>, h: string, k: nat)
    requires h in hs && LastIndex(hs, h) < k < |hs|
    ensures hs[k] != h
    decreases |hs|
  {
    if k < |hs| - 1 {
      var front := hs[..|hs| - 1];
      assert hs == front + [hs[|hs| - 1]];
      LastIndexIsLast(front, h, k);
      assert hs[k] == front[k];
    }
  }

  /** Appending `h` moves the last position of `h` to the end and leaves the
      last position of every other name where it was. */
  lemma LastIndexAppend(ps: seq<string>, h: string, x: string)
    requires x in ps + [h]
    ensures x != h ==> x in ps
    ensures LastIndex(ps + [h], x) == if x == h then |ps| else LastIndex(ps, x)
  {
    assert (ps + [h])[..|ps|] == ps;
  }

  /** A prefix one longer is the prefix followed by the next element. */
  lemma PrefixSnoc<T>(s: seq<T>, j: nat)
    requires j < |s|
    ensures s[..j + 1] == s[..j] + [s[j]]
  {
  }

  /** The unit part of every column. */
  function Units(columns: seq<string>): (us: seq<string>)
    ensures |us| == |columns|
  {
    seq(|columns|, k requires 0 <= k < |columns| => UnitOf(columns[k]))
  }

  /** Position `k` of `Units` is the unit part of column `k`. */
  lemma UnitAt(columns: seq<string>, k: nat)
    requires k < |columns|
    ensures Units(columns)[k] == UnitOf(columns[k])
  {
  }

  /** The source behind output column `k`: the last column with that header part. */
  function Source(hs: seq<string>, k: nat): (j: nat)
    requires k < |Unique(hs)|
    ensures j < |hs| && hs[j] == Unique(hs)[k]
  {
    LastIndex(hs, Unique(hs)[k])
  }

  /** The data rows after unmerging: output column `k` of a row is that row's
      cell in the source of `k`. */
  function DataRows(rows: seq<Row>, hs: seq<string>): (data: seq<Row>)
    requires forall i :: 0 <= i < |rows| ==> |hs| <= |rows[i]|
    ensures |data| == |rows|
    ensures forall i :: 0 <= i < |data| ==> |data[i]| == |Unique(hs)|
  {
    seq(|rows|, i requires 0 <= i < |rows| =>
      seq(|Unique(hs)|, k requires 0 <= k < |Unique(hs)| => rows[i][Source(hs, k)]))
  }

  /** The units row: for every output column, the unit of its source. */
  function UnitsRow(hs: seq<string>, us: seq<string>): (units: Row)
    requires |us| == |hs|
    ensures |units| == |Unique(hs)|
  {
    seq(|Unique(hs)|, k requires 0 <= k < |Unique(hs)| => Str(us[Source(hs, k)]))
  }

  /** A frame together with its row index labels. */
  datatype Saved = Saved(frame: Frame, index: seq<int>)

  /** Row 0 receives the units: prepended with label 0 when no row has that
      label, and otherwise written over every row labelled 0. */
  function PlaceUnits(columns: seq<string>, data: seq<Row>, labels: seq<int>, units: Row): (s: Saved)
    requires |labels| == |data| && |units| == |columns|
    requires forall i :: 0 <= i < |data| ==> |data[i]| == |columns|
    ensures WellFormed(s.frame) && |s.index| == |s.frame.rows| && s.frame.columns == columns
    ensures 0 in s.index && units in s.frame.rows
    ensures s.index == if 0 in labels then labels else [0] + labels
  {
    if 0 !in labels then
      var s := Saved(Frame(columns, [units] + data), [0] + labels);
      assert s.frame.rows[0] == units;
      s
    else
      var rows := seq(|data|, i requires 0 <= i < |data| => if labels[i] == 0 then units else data[i]);
      var i :| 0 <= i < |labels| && labels[i] == 0;
      assert rows[i] == units;
      Saved(Frame(columns, rows), labels)
  }

  /** `unmerge_df_headers_and_save_file` before `sort_index`: one column per
      distinct header part, each holding the data of the last source column with
      that header part, and a units row taken from the same source column. A
      frame without columns gives no data rows, as a fresh `pd.DataFrame()` has none. */
  function UnmergeSpec(df: Frame, index: seq<int>): (s: Saved)
    requires WellFormed(df) && |index| == |df.rows|
    ensures WellFormed(s.frame) && |s.index| == |s.frame.rows|
    ensures s.frame.columns == Unique(Headers(df.columns))
    ensures 0 in s.index
    ensures UnitsRow(Headers(df.columns), Units(df.columns)) in s.frame.rows
  {
    var hs := Headers(df.columns);
    PlaceUnits(Unique(hs), DataRows(Kept(df), hs), KeptLabels(df, index), UnitsRow(hs, Units(df.columns)))
  }

  /** The rows the column loop copies: none when there is no column to copy. */
  function Kept(df: Frame): (rows: seq<Row>)
    requires WellFormed(df)
    ensures forall i :: 0 <= i < |rows| ==> |rows[i]| == |df.columns|
    ensures |df.columns| > 0 ==> rows == df.rows
    ensures |df.columns| == 0 ==> rows == []
  {
    if |df.columns| == 0 then [] else df.rows
  }

  /** The index labels that go with `Kept(df)`. */
  function KeptLabels(df: Frame, index: seq<int>): (labels: seq<int>)
    requires WellFormed(df) && |index| == |df.rows|
    ensures |labels| == |Kept(df)|
  {
    if |df.columns| == 0 then [] else index
  }

  /** What the column loop has built from the source columns whose header parts
      are `ps`: one column per distinct header part, holding the cells of the last
      source column with that header part. */
  function Unmerged(rows: seq<Row>, ps: seq<string>): (g: Frame)
    requires forall i :: 0 <= i < |rows| ==> |ps| <= |rows[i]|
    ensures WellFormed(g) && |g.rows| == |rows| && g.columns == Unique(ps)
  {
    Frame(Unique(ps), DataRows(rows, ps))
  }

  /** Column `c` of every row. */
  function Values(rows: seq<Row>, c: nat): (v: seq<Cell>)
    requires forall i :: 0 <= i < |rows| ==> c < |rows[i]|
    ensures |v| == |rows| && forall i :: 0 <= i < |rows| ==> v[i] == rows[i][c]
  {
    seq(|rows|, i requires 0 <= i < |rows| => rows[i][c])
  }

  /** `n` rows without cells: a frame with an index and no columns yet. */
  function EmptyRows(n: nat): (rows: seq<Row>)
    ensures |rows| == n && forall i :: 0 <= i < n ==> rows[i] == []
  {
    seq(n, _ => [])
  }

  /** Before the loop nothing has been written. */
  lemma UnmergedEmpty(rows: seq<Row>)
    ensures Unmerged(rows, []) == Frame([], EmptyRows(|rows|))
  {
    assert Unique<string>([]) == [];
    assert DataRows(rows, []) == EmptyRows(|rows|);
  }

  /** The distinct header parts grow as `Unique` does. */
  lemma UniqueSnoc(ps: seq<string>, h: string)
    ensures Unique(ps + [h]) == if h in Unique(ps) then Unique(ps) else Unique(ps) + [h]
  {
    assert (ps + [h])[..|ps|] == ps;
  }

  /** Cell `k` of row `i` of `Unmerged`: the row's cell in the last source column
      with header part `Unique(ps)[k]`. */
  lemma UnmergedAt(rows: seq<Row>, ps: seq<string>, i: nat, k: nat)
    requires forall r :: 0 <= r < |rows| ==> |ps| <= |rows[r]|
    requires i < |rows| && k < |Unique(ps)|
    ensures Unmerged(rows, ps).rows[i][k] == rows[i][LastIndex(ps, Unique(ps)[k])]
  {
  }

  /** One cell after writing source column `|ps|` under the header part `h`. */
  lemma UnmergedSnocCell(rows: seq<Row>, ps: seq<string>, h: string, i: nat, k: nat)
    requires forall r :: 0 <= r < |rows| ==> |ps| < |rows[r]|
    requires i < |rows| && k < |Unique(ps + [h])|
    ensures k < |WithColumn(Unmerged(rows, ps), h, Values(rows, |ps|)).columns|
    ensures WithColumn(Unmerged(rows, ps), h, Values(rows, |ps|)).rows[i][k] ==
      Unmerged(rows, ps + [h]).rows[i][k]
  {
    var f := Unmerged(rows, ps);
    var values := Values(rows, |ps|);
    UniqueSnoc(ps, h);
    var name := Unique(ps + [h])[k];
    LastIndexAppend(ps, h, name);
    WithColumnAt(f, h, values, i, k);
    UnmergedAt(rows, ps + [h], i, k);
    if name != h {
      UnmergedAt(rows, ps, i, k);
    }
  }

  /** One row after writing source column `|ps|` under the header part `h`. */
  lemma UnmergedSnocRow(rows: seq<Row>, ps: seq<string>, h: string, i: nat)
    requires forall r :: 0 <= r < |rows| ==> |ps| < |rows[r]|
    requires i < |rows|
    ensures WithColumn(Unmerged(rows, ps), h, Values(rows, |ps|)).rows[i] == Unmerged(rows, ps + [h]).rows[i]
  {
    var g := WithColumn(Unmerged(rows, ps), h, Values(rows, |ps|));
    var u := Unmerged(rows, ps + [h]);
    UniqueSnoc(ps, h);
    assert |g.rows[i]| == |u.rows[i]|;
    forall k | 0 <= k < |u.rows[i]| ensures g.rows[i][k] == u.rows[i][k] {
      UnmergedSnocCell(rows, ps, h, i, k);
    }
  }

  /** `new_df[h] = column |ps|` turns the frame built from `ps` into the frame built
      from `ps + [h]`. */
  lemma UnmergedSnoc(rows: seq<Row>, ps: seq<string>, h: string)
    requires forall r :: 0 <= r < |rows| ==> |ps| < |rows[r]|
    ensures WithColumn(Unmerged(rows, ps), h, Values(rows, |ps|)) == Unmerged(rows, ps + [h])
  {
    var g := WithColumn(Unmerged(rows, ps), h, Values(rows, |ps|));
    var u := Unmerged(rows, ps + [h]);
    UniqueSnoc(ps, h);
    assert g.columns == u.columns;
    forall i | 0 <= i < |rows| ensures g.rows[i] == u.rows[i] {
      UnmergedSnocRow(rows, ps, h, i);
    }
    assert g.rows == u.rows;
  }

  /** The map from header part to the last source name carrying it. */
  function Originals(hs: seq<string>, columns: seq<string>, j: nat): map<string, string>
    requires j <= |hs| == |columns|
  {
    if j == 0 then map[] else Originals(hs, columns, j - 1)[hs[j - 1] := columns[j - 1]]
  }

  lemma {:induction false} OriginalsLast(hs: seq<string>, columns: seq<string>, j: nat, h: string)
    requires j <= |hs| == |columns|
    ensures h in Originals(hs, columns, j) <==> h in hs[..j]
    ensures h in hs[..j] ==> Originals(hs, columns, j)[h] == columns[LastIndex(hs[..j], h)]
  {
    if j > 0 {
      OriginalsLast(hs, columns, j - 1, h);
      assert hs[..j] == hs[..j - 1] + [hs[j - 1]];
      if h in hs[..j] {
        LastIndexAppend(hs[..j - 1], hs[j - 1], h);
      }
    }
  }

  /** The remembered name of every output column has the unit of its source. */
  lemma OriginalUnits(columns: seq<string>)
    ensures forall m :: 0 <= m < |Unique(Headers(columns))| ==>
      Unique(Headers(columns))[m] in Originals(Headers(columns), columns, |columns|) &&
      Str(UnitOf(Originals(Headers(columns), columns, |columns|)[Unique(Headers(columns))[m]])) ==
        UnitsRow(Headers(columns), Units(columns))[m]
  {
    var hs := Headers(columns);
    assert hs[..|columns|] == hs;
    forall m | 0 <= m < |Unique(hs)|
      ensures Unique(hs)[m] in Originals(hs, columns, |columns|)
      ensures Str(UnitOf(Originals(hs, columns, |columns|)[Unique(hs)[m]])) == UnitsRow(hs, Units(columns))[m]
    {
      OriginalsLast(hs, columns, |columns|, Unique(hs)[m]);
      UnitAt(columns, Source(hs, m));
    }
  }

  /** The column loop of `unmerge_df_headers_and_save_file`: every source column
      is written into a new frame under its header part, and the map from header
      part to source name is updated. */
  method CollectColumns(df: Frame) returns (newDf: Table, original: map<string, string>)
    requires WellFormed(df)
    ensures fresh(newDf) && newDf.Valid()
    ensures newDf.Snapshot() == Unmerged(Kept(df), Headers(df.columns))
    ensures original == Originals(Headers(df.columns), df.columns, |df.columns|)
  {
    ghost var hs := Headers(df.columns);
    ghost var rows := Kept(df);
    newDf := new Table(Frame([], EmptyRows(|Kept(df)|)));
    UnmergedEmpty(rows);
    assert hs[..0] == [];
    original := map[];
    var j := 0;
    while j < |df.columns|
      invariant 0 <= j <= |df.columns|
      invariant fresh(newDf) && newDf.Valid() && newDf.Snapshot() == Unmerged(rows, hs[..j])
      invariant original == Originals(hs, df.columns, j)
    {
      original := WriteColumn(newDf, df, j, original);
      j := j + 1;
    }
    assert hs[..j] == hs;
  }

  /** Writing source column `j` under its header part extends the frame built
      from the first `j` columns to the frame built from the first `j + 1`. */
  lemma ColumnStep(df: Frame, j: nat)
    requires WellFormed(df) && j < |df.columns|
    ensures WithColumn(Unmerged(Kept(df), Headers(df.columns)[..j]), HeaderOf(df.columns[j]), Column(df, j)) ==
      Unmerged(Kept(df), Headers(df.columns)[..j + 1])
  {
    var hs := Headers(df.columns);
    var values := Column(df, j);
    HeaderAt(df.columns, j);
    PrefixSnoc(hs, j);
    assert Kept(df) == df.rows && |hs[..j]| == j;
    assert values == Values(df.rows, j) by {
      forall i | 0 <= i < |values| ensures values[i] == Values(df.rows, j)[i] {
      }
    }
    UnmergedSnoc(Kept(df), hs[..j], HeaderOf(df.columns[j]));
  }

  /** One pass of the column loop: `new_df[header] = df[column]` and
      `original_columns[header] = column`. */
  method WriteColumn(t: Table, df: Frame, j: nat, original: map<string, string>)
    returns (updated: map<string, string>)
    requires WellFormed(df) && j < |df.columns|
    requires t.Valid() && t.Snapshot() == Unmerged(Kept(df), Headers(df.columns)[..j])
    modifies t
    ensures t.Valid() && t.Snapshot() == Unmerged(Kept(df), Headers(df.columns)[..j + 1])
    ensures original == Originals(Headers(df.columns), df.columns, j) ==>
      updated == Originals(Headers(df.columns), df.columns, j + 1)
  {
    var header := HeaderOf(df.columns[j]);
    var values := Column(df, j);
    ColumnStep(df, j);
    t.SetColumn(header, values);
    updated := original[header := df.columns[j]];
  }

  /** The units loop: the unit part of the remembered source name of every column. */
  method CollectUnits(columns: seq<string>, original: map<string, string>) returns (units: Row)
    requires forall k :: 0 <= k < |columns| ==> columns[k] in original
    ensures |units| == |columns|
    ensures forall k :: 0 <= k < |columns| ==> units[k] == Str(UnitOf(original[columns[k]]))
  {
    units := [];
    var k := 0;
    while k < |columns|
      invariant 0 <= k <= |columns| && |units| == k
      invariant forall m :: 0 <= m < k ==> units[m] == Str(UnitOf(original[columns[m]]))
    {
      units := units + [Str(UnitOf(original[columns[k]]))];
      k := k + 1;
    }
  }

  /** The units become row 0: concatenated in front with label 0 when no row is
      labelled 0, otherwise written over the rows labelled 0. */
  method PlaceUnitsRow(t: Table, labels: seq<int>, units: Row) returns (newLabels: seq<int>)
    requires t.Valid() && |labels| == |t.rows| && |units| == |t.columns|
    modifies t
    ensures t.Valid()
    ensures Saved(t.Snapshot(), newLabels) == PlaceUnits(old(t.columns), old(t.rows), labels, units)
  {
    var data := t.rows;
    if 0 !in labels {
      t.Replace(Frame(t.columns, [units] + data));
      newLabels := [0] + labels;
    } else {
      t.Replace(Frame(t.columns, seq(|data|, i requires 0 <= i < |data| => if labels[i] == 0 then units else data[i])));
      newLabels := labels;
    }
  }

  /** `unmerge_df_headers_and_save_file` up to `sort_index`: the column loop, the
      units loop, then row 0. Writing the file is left out. */
  method Unmerge(df: Frame, index: seq<int>) returns (s: Saved)
    requires WellFormed(df) && |index| == |df.rows|
    ensures s == UnmergeSpec(df, index)
  {
    var newDf, original := CollectColumns(df);
    OriginalUnits(df.columns);
    var units := CollectUnits(newDf.columns, original);
    assert units == UnitsRow(Headers(df.columns), Units(df.columns));
    var labels := if |df.columns| == 0 then [] else index;
    labels := PlaceUnitsRow(newDf, labels, units);
    s := Saved(newDf.Snapshot(), labels);
  }

  predicate Increasing(index: seq<int>) {
    forall i, j :: 0 <= i < j < |index| ==> index[i] < index[j]
  }

  /** For an increasing index of non-negative labels (a default index, or one
      left by dropping rows) the unmerged frame is already in index order, so
      `sort_index` does not move any row. */
  lemma UnmergeAlreadySorted(df: Frame, index: seq<int>)
    requires WellFormed(df) && |index| == |df.rows|
    requires Increasing(index) && forall i :: 0 <= i < |index| ==> index[i] >= 0
    ensures Increasing(UnmergeSpec(df, index).index)
  {
    var labels := KeptLabels(df, index);
    if 0 !in labels {
      assert forall i :: 0 <= i < |labels| ==> labels[i] > 0 by {
        forall i | 0 <= i < |labels| ensures labels[i] > 0 {
          assert labels[i] in labels;
        }
      }
    }
  }

  /** Duplicated headers: the output has one column per distinct header part,
      and its data and unit come from the last source column carrying it. */
  lemma LastDuplicateWins(df: Frame, index: seq<int>, k: nat, j: nat)
    requires WellFormed(df) && |index| == |df.rows| && |df.columns| > 0
    requires k < |Unique(Headers(df.columns))| && j < |df.columns|
    requires HeaderOf(df.columns[j]) == Unique(Headers(df.columns))[k]
    ensures j <= Source(Headers(df.columns), k)
    ensures UnitsRow(Headers(df.columns), Units(df.columns))[k] ==
      Str(UnitOf(df.columns[Source(Headers(df.columns), k)]))
    ensures forall i :: 0 <= i < |df.rows| ==>
      DataRows(df.rows, Headers(df.columns))[i][k] == df.rows[i][Source(Headers(df.columns), k)]
  {
    var hs := Headers(df.columns);
    HeaderAt(df.columns, j);
    UnitAt(df.columns, Source(hs, k));
    if Source(hs, k) < j {
      LastIndexIsLast(hs, Unique(hs)[k], j);
    }
    assert forall i :: 0 <= i < |df.rows| ==> df.rows[i] in df.rows;
  }
}
