/** `src/data_wrangle/clean_df.py`: dropping rows whose drilling measurements are missing,
    non-numeric, zero or negative, and dropping rows outside the interquartile fences.
    Parsing text as a number (`pd.to_numeric`) is a parameter: `numeric(s)` is the number
    text `s` spells, or `None`. */
module CleanDf {
  import opened Wrappers
  import opened Frames
  import Stats
  import DfUtils

  const BitDiameterColumn: string := "BIT_DIAMETER (in)"
  const DefaultBitDiameter: real := 8.5

  // ----- clean_df -----

  /** `df[columns]`: the position of each listed column (the first of its name), or the
      `KeyError` pandas raises when one is absent. */
  function Locate(columns: seq<string>, names: seq<string>): (r: Result<seq<nat>>)
    ensures r.Ok? <==> forall k :: 0 <= k < |names| ==> names[k] in columns
    ensures r.Ok? ==> |r.value| == |names|
    ensures r.Ok? ==> forall k :: 0 <= k < |names| ==> ColumnIndex(columns, names[k]) == Some(r.value[k])
    ensures r.Ok? ==> forall k :: 0 <= k < |r.value| ==> r.value[k] < |columns|
    decreases |names|
  {
    if |names| == 0 then Ok([])
    else
      var n := |names| - 1;
      assert forall k :: 0 <= k < n ==> names[..n][k] == names[k];
      var front :- Locate(columns, names[..n]);
      var j :- ColumnIndex(columns, names[n]).ToResult("KeyError: not in index");
      Ok(front + [j])
  }

  /** `pd.to_numeric(c, errors='coerce')`: numbers stay, text becomes the number it spells
      or NaN. */
  function ToNumeric(c: Cell, numeric: string -> Option<real>): (d: Cell)
    ensures !d.Str?
    ensures c.Num? || c.Missing? ==> d == c
    ensures c.Str? ==> (d.Num? <==> numeric(c.s).Some?)
  {
    match c
    case Str(s) => if numeric(s).Some? then Num(numeric(s).value) else Missing
    case _ => c
  }

  /** `np.nan if x <= 0 else x`: a NaN is left alone (the comparison is false). */
  function DropNonPositive(c: Cell): (d: Cell)
    ensures d.Num? <==> c.Num? && c.v > 0.0
    ensures d.Missing? <==> c.Missing? || (c.Num? && c.v <= 0.0)
    ensures !d.Missing? ==> d == c
  {
    if c.Num? && c.v <= 0.0 then Missing else c
  }

  /** One listed cell after the coercion and the non-positive replacement. */
  function CleanCell(c: Cell, numeric: string -> Option<real>): Cell {
    DropNonPositive(ToNumeric(c, numeric))
  }

  /** A positive number: what a cleaned cell must be for its row to survive. */
  predicate PositiveNumber(c: Cell) {
    c.Num? && c.v > 0.0
  }

  /** Assignment to the listed columns of one row: `g` applies at the listed positions. */
  function MapAt(row: Row, idx: seq<nat>, g: Cell -> Cell): (r: Row)
    ensures |r| == |row|
    ensures forall j :: 0 <= j < |row| && j !in idx ==> r[j] == row[j]
    ensures forall j :: 0 <= j < |row| && j in idx ==> r[j] == g(row[j])
  {
    seq(|row|, j requires 0 <= j < |row| => if j in idx then g(row[j]) else row[j])
  }

  /** Every listed position is a cell of `row`. */
  predicate Covers(row: Row, idx: seq<nat>) {
    forall k :: 0 <= k < |idx| ==> idx[k] < |row|
  }

  /** `(df[columns] == 0).all(axis=1)`: every listed cell is the number 0. With no listed
      column this holds for every row. */
  predicate AllZero(row: Row, idx: seq<nat>) {
    forall k :: 0 <= k < |idx| ==> idx[k] < |row| && row[idx[k]] == Num(0.0)
  }

  /** No listed cell is NaN, as `dropna(subset=columns)` demands. */
  predicate NoneMissing(row: Row, idx: seq<nat>) {
    forall k :: 0 <= k < |idx| ==> idx[k] < |row| && !row[idx[k]].Missing?
  }

  /** A whole row after the coercion and replacement of its listed cells. */
  function CleanRow(row: Row, idx: seq<nat>, numeric: string -> Option<real>): (r: Row)
    ensures |r| == |row|
    ensures forall j :: 0 <= j < |row| && j !in idx ==> r[j] == row[j]
    ensures forall j :: 0 <= j < |row| && j in idx ==> r[j] == CleanCell(row[j], numeric)
  {
    MapAt(row, idx, c => CleanCell(c, numeric))
  }

  /** The row passes both drops of the pipeline. */
  predicate Keeps(row: Row, idx: seq<nat>, numeric: string -> Option<real>) {
    !AllZero(row, idx) && NoneMissing(CleanRow(row, idx, numeric), idx)
  }

  /** Lines 21-30 in order: drop all-zero rows, coerce, replace non-positive values by
      NaN, drop rows with a NaN in a listed column. */
  function CleanRows(rows: seq<Row>, idx: seq<nat>, numeric: string -> Option<real>): (r: seq<Row>)
    ensures |r| <= |rows|
  {
    var nonZero := Filter(rows, (row: Row) => !AllZero(row, idx));
    var coerced := Map(nonZero, (row: Row) => MapAt(row, idx, c => ToNumeric(c, numeric)));
    var positive := Map(coerced, (row: Row) => MapAt(row, idx, DropNonPositive));
    Filter(positive, (row: Row) => NoneMissing(row, idx))
  }

  /** The pipeline is one filter followed by one cleaning of the kept rows. */
  lemma CleanRowsFilterThenClean(rows: seq<Row>, idx: seq<nat>, numeric: string -> Option<real>)
    ensures CleanRows(rows, idx, numeric) ==
      Map(Filter(rows, (row: Row) => Keeps(row, idx, numeric)), (row: Row) => CleanRow(row, idx, numeric))
  {
    var nz := (row: Row) => !AllZero(row, idx);
    var coerce := (row: Row) => MapAt(row, idx, c => ToNumeric(c, numeric));
    var positive := (row: Row) => MapAt(row, idx, DropNonPositive);
    var nm := (row: Row) => NoneMissing(row, idx);
    var clean := (row: Row) => CleanRow(row, idx, numeric);
    var keeps := (row: Row) => Keeps(row, idx, numeric);
    var nonZero := Filter(rows, nz);
    forall x | x in nonZero
      ensures clean(x) == positive(coerce(x))
    {
      assert forall j :: 0 <= j < |x| ==> clean(x)[j] == positive(coerce(x))[j];
    }
    MapCompose(nonZero, coerce, positive, clean);
    FilterMap(nonZero, clean, nm, (row: Row) => nm(clean(row)));
    FilterFilter(rows, nz, (row: Row) => nm(clean(row)), keeps);
  }

  /** A row survives exactly when at least one column is listed and every listed cell
      reads as a number above zero; zero itself is dropped as well as negatives. */
  lemma KeepsIff(row: Row, idx: seq<nat>, numeric: string -> Option<real>)
    requires Covers(row, idx)
    ensures Keeps(row, idx, numeric) <==>
      |idx| > 0 && forall k :: 0 <= k < |idx| ==> PositiveNumber(ToNumeric(row[idx[k]], numeric))
  {
    var r := CleanRow(row, idx, numeric);
    assert forall k :: 0 <= k < |idx| ==> idx[k] in idx;
    if |idx| > 0 && forall k :: 0 <= k < |idx| ==> PositiveNumber(ToNumeric(row[idx[k]], numeric)) {
      assert ToNumeric(row[idx[0]], numeric) != Num(0.0);
      assert !AllZero(row, idx);
    }
  }

  /** The kept rows, cleaned, are in their original order: a subsequence of all rows
      cleaned. */
  lemma CleanRowsSubsequence(rows: seq<Row>, idx: seq<nat>, numeric: string -> Option<real>)
    ensures IsSubsequence(CleanRows(rows, idx, numeric), Map(rows, (row: Row) => CleanRow(row, idx, numeric)))
  {
    var keeps := (row: Row) => Keeps(row, idx, numeric);
    CleanRowsFilterThenClean(rows, idx, numeric);
    FilterIsSubsequence(rows, keeps);
    MapSubsequence(Filter(rows, keeps), rows, (row: Row) => CleanRow(row, idx, numeric));
  }

  /** Rows whose listed cells are already positive numbers pass unchanged, when at least
      one column is listed. */
  lemma CleanRowsFixed(rows: seq<Row>, idx: seq<nat>, numeric: string -> Option<real>)
    requires |idx| > 0
    requires forall row | row in rows :: Covers(row, idx) && forall k :: 0 <= k < |idx| ==> PositiveNumber(row[idx[k]])
    ensures CleanRows(rows, idx, numeric) == rows
  {
    var keeps := (row: Row) => Keeps(row, idx, numeric);
    var clean := (row: Row) => CleanRow(row, idx, numeric);
    forall row | row in rows
      ensures keeps(row) && clean(row) == row
    {
      assert forall k :: 0 <= k < |idx| ==> idx[k] in idx;
      KeepsIff(row, idx, numeric);
      assert forall j :: 0 <= j < |row| ==> clean(row)[j] == row[j];
    }
    FilterKeepsAll(rows, keeps);
    CleanRowsFilterThenClean(rows, idx, numeric);
    assert Map(rows, clean) == rows;
  }

  /** `df["BIT_DIAMETER (in)"] = df.get("BIT_DIAMETER (in)", bit_diameter)`: an existing
      column is assigned to itself, a missing one is filled with the default. */
  function WithBitDiameter(f: Frame, bitDiameter: real): (g: Frame)
    requires WellFormed(f)
    ensures WellFormed(g) && BitDiameterColumn in g.columns && |g.rows| == |f.rows|
    ensures BitDiameterColumn in f.columns ==> g == f
    ensures BitDiameterColumn !in f.columns ==> g.columns == f.columns + [BitDiameterColumn]
    ensures BitDiameterColumn !in f.columns ==>
      forall i :: 0 <= i < |f.rows| ==> g.rows[i] == f.rows[i] + [Num(bitDiameter)]
  {
    if BitDiameterColumn in f.columns then f
    else
      // assigning a column the frame lacks appends it
      Appended(f, BitDiameterColumn, Constant(|f.rows|, Num(bitDiameter)))
  }

  /** `clean_df(df, columns, bit_diameter)`. */
  function Clean(f: Frame, columns: seq<string>, bitDiameter: real, numeric: string -> Option<real>): (r: Result<Frame>)
    requires WellFormed(f)
    ensures r.Ok? <==> forall k :: 0 <= k < |columns| ==> columns[k] in f.columns
    ensures r.Ok? ==> WellFormed(r.value) && BitDiameterColumn in r.value.columns
    ensures r.Ok? ==> |r.value.rows| <= |f.rows|
  {
    var idx :- Locate(f.columns, columns);
    var rows := CleanRows(f.rows, idx, numeric);
    assert forall row | row in rows :: |row| == |f.columns| by {
      CleanRowsFilterThenClean(f.rows, idx, numeric);
    }
    Ok(WithBitDiameter(Frame(f.columns, rows), bitDiameter))
  }

  /** Appending a column does not move the columns already there. */
  lemma LocateAppend(columns: seq<string>, names: seq<string>, extra: string)
    requires extra !in columns
    requires Locate(columns, names).Ok?
    ensures Locate(columns + [extra], names) == Locate(columns, names)
  {
    var idx := Locate(columns, names).value;
    forall k | 0 <= k < |names|
      ensures ColumnIndex(columns + [extra], names[k]) == Some(idx[k])
    {
      var j := idx[k];
      assert (columns + [extra])[j] == names[k];
      assert forall m :: 0 <= m < j ==> (columns + [extra])[m] == columns[m];
    }
    var r := Locate(columns + [extra], names);
    assert forall k :: 0 <= k < |names| ==> names[k] in columns + [extra];
    assert r.value == idx;
  }

  /** Every surviving row holds a positive number in every listed column. */
  lemma CleanedPositive(rows: seq<Row>, idx: seq<nat>, numeric: string -> Option<real>)
    requires forall row | row in rows :: Covers(row, idx)
    ensures forall row | row in CleanRows(rows, idx, numeric) ::
      Covers(row, idx) && forall k :: 0 <= k < |idx| ==> PositiveNumber(row[idx[k]])
  {
    var keeps := (row: Row) => Keeps(row, idx, numeric);
    CleanRowsFilterThenClean(rows, idx, numeric);
    var kept := Filter(rows, keeps);
    forall i | 0 <= i < |kept|
      ensures Covers(CleanRow(kept[i], idx, numeric), idx)
      ensures forall k :: 0 <= k < |idx| ==> PositiveNumber(CleanRow(kept[i], idx, numeric)[idx[k]])
    {
      var src := kept[i];
      assert src in kept;
      KeepsIff(src, idx, numeric);
      assert forall k :: 0 <= k < |idx| ==> idx[k] in idx;
    }
  }

  /** No listed column leaves no row. */
  lemma CleanRowsNoColumns(rows: seq<Row>, numeric: string -> Option<real>)
    ensures CleanRows(rows, [], numeric) == []
  {
    var keeps := (row: Row) => Keeps(row, [], numeric);
    CleanRowsFilterThenClean(rows, [], numeric);
    assert forall x :: x in rows ==> AllZero(x, []);
    FilterNone(rows, keeps);
  }

  /** Adding the bit diameter leaves the listed cells where they were. */
  lemma BitDiameterKeepsPositive(h: Frame, idx: seq<nat>, bitDiameter: real)
    requires WellFormed(h) && forall k :: 0 <= k < |idx| ==> idx[k] < |h.columns|
    requires forall row | row in h.rows :: forall k :: 0 <= k < |idx| ==> PositiveNumber(row[idx[k]])
    ensures forall row | row in WithBitDiameter(h, bitDiameter).rows ::
      Covers(row, idx) && forall k :: 0 <= k < |idx| ==> PositiveNumber(row[idx[k]])
  {
    var g := WithBitDiameter(h, bitDiameter);
    forall i | 0 <= i < |g.rows|
      ensures Covers(g.rows[i], idx) && forall k :: 0 <= k < |idx| ==> PositiveNumber(g.rows[i][idx[k]])
    {
      assert h.rows[i] in h.rows;
      assert forall k :: 0 <= k < |idx| ==> g.rows[i][idx[k]] == h.rows[i][idx[k]];
    }
  }

  /** The rows of a cleaned frame pass a second cleaning unchanged. */
  lemma CleanedRowsFixed(f: Frame, columns: seq<string>, bitDiameter: real, numeric: string -> Option<real>)
    requires WellFormed(f) && Clean(f, columns, bitDiameter, numeric).Ok?
    ensures var g := Clean(f, columns, bitDiameter, numeric).value;
      Locate(g.columns, columns) == Locate(f.columns, columns) &&
      CleanRows(g.rows, Locate(f.columns, columns).value, numeric) == g.rows
  {
    var idx := Locate(f.columns, columns).value;
    var h := Frame(f.columns, CleanRows(f.rows, idx, numeric));
    CleanedLocate(f, columns, bitDiameter, numeric);
    var g := Clean(f, columns, bitDiameter, numeric).value;
    if |idx| == 0 {
      CleanRowsNoColumns(f.rows, numeric);
      CleanRowsNoColumns(g.rows, numeric);
    } else {
      CleanedPositive(f.rows, idx, numeric);
      BitDiameterKeepsPositive(h, idx, bitDiameter);
      CleanRowsFixed(g.rows, idx, numeric);
    }
  }

  /** A cleaned frame is the kept rows with the bit diameter, and the listed columns
      stay where they were. */
  lemma CleanedLocate(f: Frame, columns: seq<string>, bitDiameter: real, numeric: string -> Option<real>)
    requires WellFormed(f) && Clean(f, columns, bitDiameter, numeric).Ok?
    ensures var idx := Locate(f.columns, columns).value;
      WellFormed(Frame(f.columns, CleanRows(f.rows, idx, numeric))) &&
      Clean(f, columns, bitDiameter, numeric).value ==
        WithBitDiameter(Frame(f.columns, CleanRows(f.rows, idx, numeric)), bitDiameter)
    ensures Locate(Clean(f, columns, bitDiameter, numeric).value.columns, columns) == Locate(f.columns, columns)
  {
    var idx := Locate(f.columns, columns).value;
    CleanRowsFilterThenClean(f.rows, idx, numeric);
    if BitDiameterColumn !in f.columns {
      LocateAppend(f.columns, columns, BitDiameterColumn);
    }
  }

  /** Cleaning a cleaned frame changes nothing. */
  lemma CleanIdempotent(f: Frame, columns: seq<string>, bitDiameter: real, numeric: string -> Option<real>)
    requires WellFormed(f) && Clean(f, columns, bitDiameter, numeric).Ok?
    ensures Clean(Clean(f, columns, bitDiameter, numeric).value, columns, bitDiameter, numeric) ==
      Clean(f, columns, bitDiameter, numeric)
  {
    CleanedRowsFixed(f, columns, bitDiameter, numeric);
  }

  /** `clean_df_by_mnemonics(df, mnemonics, bit_diameter)`: the columns are those the
      mnemonics resolve to, so no column is ever missing. */
  function CleanByMnemonics(f: Frame, mnemonics: seq<string>, bitDiameter: real, numeric: string -> Option<real>): (r: Result<Frame>)
    requires WellFormed(f)
    ensures r.Ok?
    ensures r == Clean(f, DfUtils.ColumnsByMnemonics(f.columns, mnemonics), bitDiameter, numeric)
  {
    Clean(f, DfUtils.ColumnsByMnemonics(f.columns, mnemonics), bitDiameter, numeric)
  }

  // ----- remove_outliers -----

  /** The numbers among the cells, in order: what pandas' quantiles read (NaN is skipped). */
  function Numbers(cells: seq<Cell>): (s: seq<real>)
    ensures |s| <= |cells|
    ensures forall x :: x in s <==> Num(x) in cells
  {
    if |cells| == 0 then []
    else
      assert forall c :: c in cells <==> c == cells[0] || c in cells[1..];
      (if cells[0].Num? then [cells[0].v] else []) + Numbers(cells[1..])
  }

  /** `(Q1 - 1.5*IQR, Q3 + 1.5*IQR)` over the numbers of a column; `None` when there is
      none, where both quartiles are NaN and every comparison with them fails. */
  function Fence(cells: seq<Cell>): (r: Option<(real, real)>)
    ensures r.Some? <==> exists x :: Num(x) in cells
  {
    var s := Numbers(cells);
    if |s| == 0 then None
    else
      assert Num(s[0]) in cells;
      var q1 := Stats.Quantile(s, 0.25);
      var q3 := Stats.Quantile(s, 0.75);
      var iqr := q3 - q1;
      Some((q1 - 1.5 * iqr, q3 + 1.5 * iqr))
  }

  /** `(df[column] >= low) & (df[column] <= high)` for one cell. */
  predicate InFence(c: Cell, fence: Option<(real, real)>) {
    fence.Some? && c.Num? && fence.value.0 <= c.v <= fence.value.1
  }

  /** Column `j` of the rows, NaN where a row is too short. */
  function CellsAt(rows: seq<Row>, j: nat): (c: seq<Cell>)
    ensures |c| == |rows|
  {
    Map(rows, (row: Row) => if j < |row| then row[j] else Missing)
  }

  /** One column's pass: keep the rows whose cell in column `j` lies inside the fence of
      that column, computed on the rows the pass starts from. */
  function FencePass(rows: seq<Row>, j: nat): (r: seq<Row>)
    ensures IsSubsequence(r, rows)
    ensures forall row: Row | row in r :: j < |row| && row[j].Num?
  {
    var fence := Fence(CellsAt(rows, j));
    var keep := (row: Row) => j < |row| && InFence(row[j], fence);
    FilterIsSubsequence(rows, keep);
    Filter(rows, keep)
  }

  /** A pass keeps exactly the rows inside the fence, and none when the column holds no
      number. */
  lemma FencePassKeeps(rows: seq<Row>, j: nat, row: Row)
    requires row in rows
    ensures row in FencePass(rows, j) <==> j < |row| && InFence(row[j], Fence(CellsAt(rows, j)))
    ensures Fence(CellsAt(rows, j)).None? ==> FencePass(rows, j) == []
  {
    var fence := Fence(CellsAt(rows, j));
    var keep := (row: Row) => j < |row| && InFence(row[j], fence);
    if keep(row) {
      FilterComplete(rows, keep, row);
    }
    if fence.None? {
      FilterNone(rows, keep);
    }
  }

  /** The passes over the listed columns in order, each on the rows the earlier ones kept. */
  function FencePasses(rows: seq<Row>, idx: seq<nat>): (r: seq<Row>)
    ensures IsSubsequence(r, rows)
    ensures forall row: Row | row in r :: Covers(row, idx) && forall k :: 0 <= k < |idx| ==> row[idx[k]].Num?
    decreases |idx|
  {
    if |idx| == 0 then SubsequenceReflexive(rows); rows
    else
      var once := FencePass(rows, idx[0]);
      var r := FencePasses(once, idx[1..]);
      SubsequenceTransitive(r, once, rows);
      SubsequenceIn(r, once);
      NumericAfterPasses(once, r, idx);
      r
  }

  /** The rows left by the first pass are numeric in its column, and the later passes
      cover the other columns; together they cover every listed column. */
  lemma NumericAfterPasses(once: seq<Row>, r: seq<Row>, idx: seq<nat>)
    requires |idx| > 0
    requires forall row: Row | row in once :: idx[0] < |row| && row[idx[0]].Num?
    requires forall row: Row | row in r :: row in once
    requires forall row: Row | row in r ::
      Covers(row, idx[1..]) && forall k :: 0 <= k < |idx[1..]| ==> row[idx[1..][k]].Num?
    ensures forall row: Row | row in r :: Covers(row, idx) && forall k :: 0 <= k < |idx| ==> row[idx[k]].Num?
  {
    forall row: Row | row in r
      ensures Covers(row, idx) && forall k :: 0 <= k < |idx| ==> row[idx[k]].Num?
    {
      forall k | 1 <= k < |idx| ensures idx[k] < |row| && row[idx[k]].Num? {
        assert idx[k] == idx[1..][k - 1];
      }
    }
  }

  /** `df[columns] = df[columns].apply(pd.to_numeric, errors='coerce')`. */
  function Coerce(f: Frame, idx: seq<nat>, numeric: string -> Option<real>): (g: Frame)
    requires WellFormed(f)
    ensures WellFormed(g) && g.columns == f.columns && |g.rows| == |f.rows|
  {
    Frame(f.columns, Map(f.rows, (row: Row) => MapAt(row, idx, c => ToNumeric(c, numeric))))
  }

  /** The frame the fence loop starts from: cleaned unless `cleaned_df`, then coerced,
      with the positions of the listed columns. */
  function OutlierInput(f: Frame, columns: seq<string>, cleaned: bool, numeric: string -> Option<real>)
    : (r: Result<(Frame, seq<nat>)>)
    requires WellFormed(f)
    ensures r.Ok? <==> forall k :: 0 <= k < |columns| ==> columns[k] in f.columns
    ensures r.Ok? ==> WellFormed(r.value.0) && forall row | row in r.value.0.rows :: Covers(row, r.value.1)
  {
    var g :- if cleaned then Ok(f) else Clean(f, columns, DefaultBitDiameter, numeric);
    var idx :- Locate(g.columns, columns);
    var h := Coerce(g, idx, numeric);
    Ok((h, idx))
  }

  /** `remove_outliers(df, columns, cleaned_df)`. */
  function RemoveOutliersSpec(f: Frame, columns: seq<string>, cleaned: bool, numeric: string -> Option<real>)
    : (r: Result<Frame>)
    requires WellFormed(f)
  {
    var (h, idx) :- OutlierInput(f, columns, cleaned, numeric);
    Ok(Frame(h.columns, FencePasses(h.rows, idx)))
  }

  /** The loop of `remove_outliers`, rebinding the frame after each column's pass. */
  method RemoveOutliers(f: Frame, columns: seq<string>, cleaned: bool, numeric: string -> Option<real>)
    returns (r: Result<Frame>)
    requires WellFormed(f)
    ensures r == RemoveOutliersSpec(f, columns, cleaned, numeric)
  {
    var input := OutlierInput(f, columns, cleaned, numeric);
    if input.Err? {
      return Err(input.error);
    }
    var (h, idx) := input.value;
    var rows := h.rows;
    var k := 0;
    while k < |idx|
      invariant 0 <= k <= |idx|
      invariant FencePasses(rows, idx[k..]) == FencePasses(h.rows, idx)
    {
      assert idx[k..][1..] == idx[k + 1..];
      rows := FencePass(rows, idx[k]);
      k := k + 1;
    }
    return Ok(Frame(h.columns, rows));
  }

  /** The result keeps the columns, keeps rows of its input in order, and every kept row
      holds a number in every listed column. */
  lemma RemoveOutliersKeeps(f: Frame, columns: seq<string>, cleaned: bool, numeric: string -> Option<real>)
    requires WellFormed(f) && RemoveOutliersSpec(f, columns, cleaned, numeric).Ok?
    ensures var (h, idx) := OutlierInput(f, columns, cleaned, numeric).value;
      var g := RemoveOutliersSpec(f, columns, cleaned, numeric).value;
      g.columns == h.columns && WellFormed(g) && IsSubsequence(g.rows, h.rows) &&
      forall row: Row | row in g.rows :: forall k :: 0 <= k < |idx| ==> row[idx[k]].Num?
  {
    var (h, idx) := OutlierInput(f, columns, cleaned, numeric).value;
    SubsequenceIn(FencePasses(h.rows, idx), h.rows);
  }

  /** `remove_outliers_by_mnemonics(df, mnemonics, cleaned_df)`: the columns the mnemonics
      resolve to are all present, so no `KeyError` can arise. */
  method RemoveOutliersByMnemonics(f: Frame, mnemonics: seq<string>, cleaned: bool, numeric: string -> Option<real>)
    returns (r: Result<Frame>)
    requires WellFormed(f)
    ensures r.Ok?
    ensures r == RemoveOutliersSpec(f, DfUtils.ColumnsByMnemonics(f.columns, mnemonics), cleaned, numeric)
  {
    r := RemoveOutliers(f, DfUtils.ColumnsByMnemonics(f.columns, mnemonics), cleaned, numeric);
  }
}
