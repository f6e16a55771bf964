/** `data_wrangling.py`: the earlier cleaning helpers. The sentinel -999.25 marks a
    missing log value; text is parsed as a number by the parameter `numeric`, as in
    `CleanDf`. */
module DataWrangling {
  import opened Wrappers
  import opened Frames
  import CleanDf

  /** The value LAS files write for "no reading". */
  const NullValue: real := -999.25

  // ----- clean_df -----

  /** `df.replace(-999.25, np.nan)` on one cell: only the number matches, not a text. */
  function ReplaceNull(c: Cell): (d: Cell)
    ensures d != Num(NullValue)
    ensures c != Num(NullValue) ==> d == c
    ensures c == Num(NullValue) ==> d == Missing
  {
    if c == Num(NullValue) then Missing else c
  }

  /** The row with every sentinel replaced, in every column. */
  function ReplaceNullRow(row: Row): (r: Row)
    ensures |r| == |row| && forall j :: 0 <= j < |row| ==> r[j] == ReplaceNull(row[j])
  {
    Map(row, ReplaceNull)
  }

  /** Coerce the cells of one row at the listed positions. */
  function CoerceAt(row: Row, idx: seq<nat>, numeric: string -> Option<real>): (r: Row)
    ensures |r| == |row|
  {
    CleanDf.MapAt(row, idx, c => CleanDf.ToNumeric(c, numeric))
  }

  /** A listed cell counts as present for `dropna` once the sentinels are replaced: it is
      neither NaN nor -999.25. */
  predicate Present(row: Row, idx: seq<nat>) {
    forall k :: 0 <= k < |idx| ==> idx[k] < |row| && !row[idx[k]].Missing? && row[idx[k]] != Num(NullValue)
  }

  lemma PresentAfterReplace(row: Row, idx: seq<nat>)
    ensures CleanDf.NoneMissing(ReplaceNullRow(row), idx) <==> Present(row, idx)
  {
  }

  /** `clean_df(df, columns)`: replace the sentinel, drop the rows with a NaN in a listed
      column, then coerce the listed columns. */
  function CleanSpec(f: Frame, columns: seq<string>, numeric: string -> Option<real>): (r: Result<Frame>)
    requires WellFormed(f)
    ensures r.Ok? <==> forall k :: 0 <= k < |columns| ==> columns[k] in f.columns
  {
    var idx :- CleanDf.Locate(f.columns, columns);
    var kept := Filter(Map(f.rows, ReplaceNullRow), (row: Row) => CleanDf.NoneMissing(row, idx));
    Ok(Frame(f.columns, Map(kept, (row: Row) => CoerceAt(row, idx, numeric))))
  }

  /** Coercing one more column after some is coercing all of them at once. */
  lemma CoerceAtGrows(row: Row, idx: seq<nat>, j: nat, numeric: string -> Option<real>)
    ensures CoerceAt(CoerceAt(row, idx, numeric), [j], numeric) == CoerceAt(row, idx + [j], numeric)
  {
    var a := CoerceAt(CoerceAt(row, idx, numeric), [j], numeric);
    var b := CoerceAt(row, idx + [j], numeric);
    forall m | 0 <= m < |row|
      ensures a[m] == b[m]
    {
      assert m in idx + [j] <==> m in idx || m == j;
    }
  }

  /** `for column in columns: df[column] = pd.to_numeric(df[column], errors='coerce')`. */
  method CoerceColumns(kept: seq<Row>, idx: seq<nat>, numeric: string -> Option<real>) returns (rows: seq<Row>)
    ensures rows == Map(kept, (row: Row) => CoerceAt(row, idx, numeric))
  {
    rows := kept;
    forall i | 0 <= i < |kept|
      ensures kept[i] == CoerceAt(kept[i], idx[..0], numeric)
    {
      assert idx[..0] == [];
    }
    var k := 0;
    while k < |idx|
      invariant 0 <= k <= |idx|
      invariant |rows| == |kept|
      invariant forall i :: 0 <= i < |kept| ==> rows[i] == CoerceAt(kept[i], idx[..k], numeric)
    {
      var j := idx[k];
      assert idx[..k + 1] == idx[..k] + [j];
      forall i | 0 <= i < |kept|
        ensures CoerceAt(rows[i], [j], numeric) == CoerceAt(kept[i], idx[..k + 1], numeric)
      {
        CoerceAtGrows(kept[i], idx[..k], j, numeric);
      }
      rows := Map(rows, (row: Row) => CoerceAt(row, [j], numeric));
      k := k + 1;
    }
    assert idx[..k] == idx;
  }

  /** The method form of `clean_df`, its loop over the columns included. */
  method Clean(f: Frame, columns: seq<string>, numeric: string -> Option<real>) returns (r: Result<Frame>)
    requires WellFormed(f)
    ensures r == CleanSpec(f, columns, numeric)
  {
    var located := CleanDf.Locate(f.columns, columns);
    if located.Err? {
      return Err(located.error);
    }
    var idx := located.value;
    var kept := Filter(Map(f.rows, ReplaceNullRow), (row: Row) => CleanDf.NoneMissing(row, idx));
    var rows := CoerceColumns(kept, idx, numeric);
    return Ok(Frame(f.columns, rows));
  }

  /** A row none of whose listed cells is NaN or -999.25 is kept, sentinels replaced and
      listed columns coerced; every row of the result comes from such a row. */
  lemma CleanKeeps(f: Frame, columns: seq<string>, numeric: string -> Option<real>)
    requires WellFormed(f) && CleanSpec(f, columns, numeric).Ok?
    ensures var idx := CleanDf.Locate(f.columns, columns).value;
      forall row | row in f.rows && Present(row, idx) ::
        CoerceAt(ReplaceNullRow(row), idx, numeric) in CleanSpec(f, columns, numeric).value.rows
    ensures var idx := CleanDf.Locate(f.columns, columns).value;
      forall out | out in CleanSpec(f, columns, numeric).value.rows ::
        exists row :: row in f.rows && Present(row, idx) && out == CoerceAt(ReplaceNullRow(row), idx, numeric)
  {
    var idx := CleanDf.Locate(f.columns, columns).value;
    var replaced := Map(f.rows, ReplaceNullRow);
    var p := (row: Row) => CleanDf.NoneMissing(row, idx);
    var g := (row: Row) => CoerceAt(row, idx, numeric);
    forall row | row in f.rows && Present(row, idx)
      ensures g(ReplaceNullRow(row)) in Map(Filter(replaced, p), g)
    {
      PresentAfterReplace(row, idx);
      var i :| 0 <= i < |f.rows| && f.rows[i] == row;
      assert replaced[i] == ReplaceNullRow(row);
      MapFilterMember(replaced, p, g, ReplaceNullRow(row));
    }
    forall out | out in Map(Filter(replaced, p), g)
      ensures exists row :: row in f.rows && Present(row, idx) && out == g(ReplaceNullRow(row))
    {
      var x := MapFilterSource(replaced, p, g, out);
      var i :| 0 <= i < |replaced| && replaced[i] == x;
      PresentAfterReplace(f.rows[i], idx);
      assert f.rows[i] in f.rows;
    }
  }

  /** The drop comes before the coercion: a listed text that does not read as a number
      survives the drop and is NaN in the result. */
  lemma UnparsableTextSurvives(f: Frame, columns: seq<string>, numeric: string -> Option<real>, row: Row, k: nat)
    requires WellFormed(f) && CleanSpec(f, columns, numeric).Ok? && row in f.rows
    requires Present(row, CleanDf.Locate(f.columns, columns).value)
    requires k < |columns| && row[CleanDf.Locate(f.columns, columns).value[k]].Str?
    requires numeric(row[CleanDf.Locate(f.columns, columns).value[k]].s).None?
    ensures
      exists out: Row :: out in CleanSpec(f, columns, numeric).value.rows &&
        CleanDf.Locate(f.columns, columns).value[k] < |out| &&
        out[CleanDf.Locate(f.columns, columns).value[k]] == Missing
  {
    var idx := CleanDf.Locate(f.columns, columns).value;
    var replaced := Map(f.rows, ReplaceNullRow);
    var p := (row: Row) => CleanDf.NoneMissing(row, idx);
    var g := (row: Row) => CoerceAt(row, idx, numeric);
    PresentAfterReplace(row, idx);
    var i :| 0 <= i < |f.rows| && f.rows[i] == row;
    assert replaced[i] == ReplaceNullRow(row);
    MapFilterMember(replaced, p, g, ReplaceNullRow(row));
    var out := g(ReplaceNullRow(row));
    assert idx[k] in idx;
    assert ReplaceNullRow(row)[idx[k]] == row[idx[k]];
    assert out[idx[k]] == Missing;
  }

  // ----- remove_outliers -----

  /** Some row holds text in column `j`. */
  predicate HasText(rows: seq<Row>, j: nat) {
    exists i :: 0 <= i < |rows| && j < |rows[i]| && rows[i][j].Str?
  }

  /** `remove_outliers(df, columns)`, column by column on the rows left so far. A column
      missing from the frame raises `KeyError`; a column holding text makes the quantile
      raise `TypeError`. */
  function OutliersSpec(columns: seq<string>, rows: seq<Row>, names: seq<string>): (r: Result<seq<Row>>)
    ensures r.Ok? ==> IsSubsequence(r.value, rows)
    ensures r.Ok? ==> forall k :: 0 <= k < |names| ==> names[k] in columns
    decreases |names|
  {
    if |names| == 0 then SubsequenceReflexive(rows); Ok(rows)
    else
      var j :- ColumnIndex(columns, names[0]).ToResult("KeyError: " + names[0]);
      if HasText(rows, j) then Err("TypeError: quantile of text")
      else
        var once := CleanDf.FencePass(rows, j);
        var r :- OutliersSpec(columns, once, names[1..]);
        SubsequenceTransitive(r, once, rows);
        NamesFound(columns, names);
        Ok(r)
  }

  /** The names after the first are all columns, and so is the first: all are. */
  lemma NamesFound(columns: seq<string>, names: seq<string>)
    requires |names| > 0 && names[0] in columns
    requires forall k :: 0 <= k < |names[1..]| ==> names[1..][k] in columns
    ensures forall k :: 0 <= k < |names| ==> names[k] in columns
  {
    forall k | 1 <= k < |names| ensures names[k] in columns {
      assert names[k] == names[1..][k - 1];
    }
  }

  /** The loop of `remove_outliers`, rebinding the frame after each column. */
  method RemoveOutliers(f: Frame, names: seq<string>) returns (r: Result<Frame>)
    requires WellFormed(f)
    ensures r.Ok? <==> OutliersSpec(f.columns, f.rows, names).Ok?
    ensures r.Ok? ==> r.value == Frame(f.columns, OutliersSpec(f.columns, f.rows, names).value)
  {
    var rows := f.rows;
    var k := 0;
    while k < |names|
      invariant 0 <= k <= |names|
      invariant OutliersSpec(f.columns, rows, names[k..]) == OutliersSpec(f.columns, f.rows, names)
    {
      assert names[k..][0] == names[k] && names[k..][1..] == names[k + 1..];
      var j := ColumnIndex(f.columns, names[k]);
      if j.None? {
        return Err("KeyError: " + names[k]);
      }
      if HasText(rows, j.value) {
        return Err("TypeError: quantile of text");
      }
      rows := CleanDf.FencePass(rows, j.value);
      k := k + 1;
    }
    return Ok(Frame(f.columns, rows));
  }

  /** Every row of the result holds a number in every column it was fenced on. */
  lemma {:induction false} RemoveOutliersNumeric(columns: seq<string>, rows: seq<Row>, names: seq<string>)
    requires OutliersSpec(columns, rows, names).Ok?
    ensures forall row: Row | row in OutliersSpec(columns, rows, names).value ::
      forall k :: 0 <= k < |names| ==>
        ColumnIndex(columns, names[k]).Some? && ColumnIndex(columns, names[k]).value < |row| &&
        row[ColumnIndex(columns, names[k]).value].Num?
    decreases |names|
  {
    if |names| > 0 {
      var j := ColumnIndex(columns, names[0]).value;
      var once := CleanDf.FencePass(rows, j);
      RemoveOutliersNumeric(columns, once, names[1..]);
      var r := OutliersSpec(columns, rows, names).value;
      assert r == OutliersSpec(columns, once, names[1..]).value;
      SubsequenceIn(r, once);
      forall row: Row, k | row in r && 0 <= k < |names|
        ensures ColumnIndex(columns, names[k]).Some? && ColumnIndex(columns, names[k]).value < |row|
        ensures row[ColumnIndex(columns, names[k]).value].Num?
      {
        if k > 0 {
          assert names[k] == names[1..][k - 1];
        }
      }
    }
  }

  // ----- prepare_data_for_plotting -----

  /** The cells of a row at the given positions, in that order (`df[columns]`), each
      read as a number or NaN. */
  function ProjectNumeric(row: Row, idx: seq<nat>, numeric: string -> Option<real>): (r: Row)
    ensures |r| == |idx|
    ensures forall k :: 0 <= k < |idx| && idx[k] < |row| ==> r[k] == CleanDf.ToNumeric(row[idx[k]], numeric)
    ensures forall k :: 0 <= k < |idx| ==> !r[k].Str?
  {
    seq(|idx|, k requires 0 <= k < |idx| => if idx[k] < |row| then CleanDf.ToNumeric(row[idx[k]], numeric) else Missing)
  }

  /** No cell of the row is NaN. */
  predicate Complete(row: Row) {
    forall k :: 0 <= k < |row| ==> !row[k].Missing?
  }

  /** `df_copy.apply(pd.to_numeric, errors='coerce').dropna()` on the selected columns. */
  function PlotRows(rows: seq<Row>, idx: seq<nat>, numeric: string -> Option<real>): (r: seq<Row>)
    ensures |r| <= |rows|
    ensures forall row: Row | row in r :: |row| == |idx| && forall k :: 0 <= k < |row| ==> row[k].Num?
  {
    var projected := Map(rows, (row: Row) => ProjectNumeric(row, idx, numeric));
    var r := Filter(projected, Complete);
    assert forall row: Row | row in r :: row in projected;
    r
  }

  /** `prepare_data_for_plotting(df, columns)`: the requested columns once each, rows
      with a NaN dropped. An empty result reaches the warning call, whose module `st` is
      never imported there, so it raises `NameError`. */
  function PrepareForPlotting(f: Frame, columns: seq<string>, numeric: string -> Option<real>): (r: Result<Frame>)
    requires WellFormed(f)
    ensures r.Ok? ==> (set c | c in r.value.columns) == (set c | c in columns)
    ensures r.Ok? ==> forall i, j :: 0 <= i < j < |r.value.columns| ==> r.value.columns[i] != r.value.columns[j]
    ensures r.Ok? ==> WellFormed(r.value) && |r.value.rows| > 0 && |r.value.columns| > 0
    ensures r.Ok? ==> forall row: Row | row in r.value.rows :: forall k :: 0 <= k < |row| ==> row[k].Num?
    ensures r.Ok? ==> |r.value.rows| <= |f.rows|
  {
    var names := Unique(columns);
    var idx :- CleanDf.Locate(f.columns, names);
    var rows := PlotRows(f.rows, idx, numeric);
    if |rows| == 0 || |names| == 0 then Err("NameError: name 'st' is not defined")
    else Ok(Frame(names, rows))
  }

  /** With every requested column present, the call fails exactly when nothing is left
      to plot: no row has a number in all of them, or no column was asked for. */
  lemma PlottingFailsOnlyWhenEmpty(f: Frame, columns: seq<string>, numeric: string -> Option<real>)
    requires WellFormed(f) && forall c :: c in columns ==> c in f.columns
    ensures var idx := CleanDf.Locate(f.columns, Unique(columns)).value;
      PrepareForPlotting(f, columns, numeric).Err? <==> PlotRows(f.rows, idx, numeric) == [] || columns == []
  {
    var names := Unique(columns);
    assert forall k :: 0 <= k < |names| ==> names[k] in f.columns;
    if columns != [] {
      assert columns[0] in names;
    }
  }
}
