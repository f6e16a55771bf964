/** The derived drilling columns of `src/data_wrangle/add_columns.py`: the bit diameter,
    depth of cut (DOC), friction factor (Mu) and mechanical specific energy (MSE), each
    appended in place to the frame only when its inputs are present and it is not. */
module AddColumns {
  import opened Wrappers
  import opened Frames
  import opened DfUtils
  import Drilling

  const BitDiameterColumn: string := "BIT_DIAMETER (in)"

  /** The configured bit diameter in inches. */
  const DefaultBitDiameter: real := 8.5

  /** A number, or a missing cell where pandas would produce inf or NaN. */
  function ToCell(o: Option<real>): Cell {
    match o
    case Some(v) => Num(v)
    case None => Missing
  }

  /** Depth of cut per revolution, `rop * 39.3701 / 60 / bit_rpm`. */
  function DocValue(rop: real, rpm: real): (r: Option<real>)
    ensures r.Some? <==> rpm != 0.0
  {
    if rpm == 0.0 then None else Some(Drilling.Quotient(rop * 39.3701 / 60.0, rpm))
  }

  /** `wob / pi * (d / 2) ** 2`, the thrust term this file uses. */
  function ColumnWobTerm(wob: real, d: real): real {
    wob / Drilling.Pi * Drilling.Power(d / 2.0, 2)
  }

  /** `bit_diameter ** 2 * rop`. */
  function ColumnMseDenominator(d: real, rop: real): real {
    Drilling.Power(d, 2) * rop
  }

  lemma ColumnMseDenominatorZero(d: real, rop: real)
    ensures ColumnMseDenominator(d, rop) == 0.0 <==> d == 0.0 || rop == 0.0
  {
    Drilling.SquareSign(d);
    if d != 0.0 && rop != 0.0 {
      assert Drilling.Power(d, 2) * rop != 0.0;
    }
  }

  /** `480 * torque * bit_rpm / (bit_diameter ** 2 * rop)`. */
  function ColumnTorqueTerm(torque: real, rpm: real, rop: real, d: real): real
    requires d != 0.0 && rop != 0.0
  {
    ColumnMseDenominatorZero(d, rop);
    Drilling.Quotient(Drilling.TorqueNumerator(torque, rpm), ColumnMseDenominator(d, rop))
  }

  /** The MSE written to `'MSE (ksi)'`. */
  function ColumnMse(wob: real, torque: real, rpm: real, rop: real, d: real): (r: Option<real>)
    ensures r.Some? <==> d != 0.0 && rop != 0.0
  {
    ColumnMseDenominatorZero(d, rop);
    if ColumnMseDenominator(d, rop) == 0.0 then None
    else Some(ColumnWobTerm(wob, d) + ColumnTorqueTerm(torque, rpm, rop, d))
  }

  /** The rotary term here is 3.2808 times the one of `compute_mse`: this file omits the
      feet-to-metres factor. */
  lemma TorqueTermsDiffer(torque: real, rpm: real, rop: real, d: real)
    requires d != 0.0 && rop != 0.0
    ensures ColumnTorqueTerm(torque, rpm, rop, d) == 3.2808 * Drilling.TorqueTerm(torque, rpm, rop, d)
  {
    var n := Drilling.TorqueNumerator(torque, rpm);
    var c := ColumnMseDenominator(d, rop);
    ColumnMseDenominatorZero(d, rop);
    Drilling.MseDenominatorSign(d, rop);
    assert Drilling.MseDenominator(d, rop) == c * 3.2808;
    var q := Drilling.Quotient(n, c * 3.2808);
    assert q * (c * 3.2808) == n;
    assert (q * 3.2808) * c == n;
  }

  /** The two MSE formulas disagree: with one unit of weight on a 2-inch bit and no rotation,
      `compute_mse` gives pi and the column gives 1/pi. */
  lemma MseFormulasDisagree()
    ensures Drilling.ComputeMse(1.0, 0.0, 0.0, 1.0, 2.0).Some? && ColumnMse(1.0, 0.0, 0.0, 1.0, 2.0).Some?
    ensures Drilling.ComputeMse(1.0, 0.0, 0.0, 1.0, 2.0).value != ColumnMse(1.0, 0.0, 0.0, 1.0, 2.0).value
  {
    var pi := Drilling.Pi;
    assert Drilling.Power(1.0, 2) == 1.0;
    assert Drilling.Power(2.0, 2) == 4.0;
    Drilling.QuotientOfZero(4.0);
    assert Drilling.Quotient(1.0, 1.0) == 1.0;
    assert Drilling.ComputeMse(1.0, 0.0, 0.0, 1.0, 2.0).value == pi;
    assert ColumnMse(1.0, 0.0, 0.0, 1.0, 2.0).value == 1.0 / pi;
    assert (1.0 / pi) * pi == 1.0;
  }

  /** The three derived columns, in the order the function adds them. */
  datatype Derived = Doc | Mu | Mse

  function Inputs(kind: Derived): seq<string> {
    match kind
    case Doc => ["ROP", "BIT_RPM"]
    case Mu => ["WOB", "TORQUE", "BIT_DIAMETER"]
    case Mse => ["WOB", "TORQUE", "BIT_RPM", "ROP", "BIT_DIAMETER"]
  }

  function Name(kind: Derived): string {
    match kind
    case Doc => "DOC (in/rev)"
    case Mu => "Mu ()"
    case Mse => "MSE (ksi)"
  }

  /** The value of a derived column from its inputs, given in the order of `Inputs(kind)`. */
  function DerivedValue(kind: Derived, v: seq<real>): Option<real>
    requires |v| == |Inputs(kind)|
  {
    match kind
    case Doc => DocValue(v[0], v[1])
    case Mu => Drilling.ComputeMu(v[0], v[1], v[2])
    case Mse => ColumnMse(v[0], v[1], v[2], v[3], v[4])
  }

  /** One cell of a derived column: missing as soon as one input cell is not a number;
      never a text. */
  function DerivedCell(kind: Derived, cells: seq<Cell>): (c: Cell)
    requires |cells| == |Inputs(kind)|
    ensures !c.Str?
  {
    if forall k :: 0 <= k < |cells| ==> cells[k].Num? then
      ToCell(DerivedValue(kind, seq(|cells|, k requires 0 <= k < |cells| => cells[k].v)))
    else Missing
  }

  /** The derived column computed row by row from the resolved input columns. */
  function DerivedColumn(f: Frame, kind: Derived, cols: seq<string>): (c: seq<Cell>)
    requires WellFormed(f) && |cols| == |Inputs(kind)|
    requires forall k :: 0 <= k < |cols| ==> cols[k] in f.columns
    ensures |c| == |f.rows|
    ensures forall i :: 0 <= i < |c| ==> !c[i].Str?
  {
    seq(|f.rows|, i requires 0 <= i < |f.rows| =>
      DerivedCell(kind, seq(|cols|, k requires 0 <= k < |cols| => f.rows[i][ColumnIndex(f.columns, cols[k]).value])))
  }

  /** The columns the inputs of `kind` resolve to. */
  function InputColumns(f: Frame, kind: Derived): seq<string> {
    ColumnsByMnemonics(f.columns, Inputs(kind))
  }

  /** `add_column_if_not_exists` computes the column: every input mnemonic resolves and
      no column already contains the new name (case-insensitively). */
  predicate Computed(f: Frame, kind: Derived) {
    |InputColumns(f, kind)| == |Inputs(kind)| && ColumnsByMnemonics(f.columns, [Name(kind)]) == []
  }

  /** `add_column_if_not_exists`: the column is computed only when `Computed` holds.
      Arithmetic on an input column holding a text raises TypeError. */
  function AddIfAbsent(f: Frame, kind: Derived): (r: Result<Frame>)
    requires WellFormed(f)
    ensures r.Err? ==> r.error == "TypeError"
  {
    var cols := InputColumns(f, kind);
    if Computed(f, kind) then
      if TextIn(f, cols) then Err("TypeError")
      else Ok(WithColumn(f, Name(kind), DerivedColumn(f, kind, cols)))
    else Ok(f)
  }

  /** The bit diameter column, set to the configured value when absent. */
  function WithBitDiameter(f: Frame): Frame
    requires WellFormed(f)
  {
    if BitDiameterColumn in f.columns then f
    else WithColumn(f, BitDiameterColumn, Constant(|f.rows|, Num(DefaultBitDiameter)))
  }

  /** `g` is `f` with zero or more columns appended, none of them holding a text, and
      nothing else changed. */
  predicate Extends(f: Frame, g: Frame) {
    WellFormed(f) && WellFormed(g) && |g.rows| == |f.rows| &&
    |f.columns| <= |g.columns| && g.columns[..|f.columns|] == f.columns &&
    (forall i, j :: 0 <= i < |f.rows| && 0 <= j < |f.columns| ==> g.rows[i][j] == f.rows[i][j]) &&
    forall i, j :: 0 <= i < |g.rows| && |f.columns| <= j < |g.columns| ==> !g.rows[i][j].Str?
  }

  lemma ExtendsTransitive(f: Frame, g: Frame, h: Frame)
    requires Extends(f, g) && Extends(g, h)
    ensures Extends(f, h)
  {
    assert h.columns[..|f.columns|] == h.columns[..|g.columns|][..|f.columns|];
  }

  /** What `add_columns(df)` leaves behind: the frame as far as the steps got, and the
      error of the step that raised, if any. */
  datatype Outcome = Outcome(frame: Frame, error: Option<string>)

  /** `add_columns(df)` as a whole: the bit diameter, then DOC, Mu and MSE, stopping at
      the first step that raises. */
  function AddColumnsSpec(f: Frame): Outcome
    requires WellFormed(f)
  {
    var f0 := WithBitDiameter(f);
    WithBitDiameterExtends(f);
    AddIfAbsentExtends(f0, Doc);
    match AddIfAbsent(f0, Doc)
    case Err(e) => Outcome(f0, Some(e))
    case Ok(f1) =>
      AddIfAbsentExtends(f1, Mu);
      match AddIfAbsent(f1, Mu)
      case Err(e) => Outcome(f1, Some(e))
      case Ok(f2) =>
        match AddIfAbsent(f2, Mse)
        case Err(e) => Outcome(f2, Some(e))
        case Ok(f3) => Outcome(f3, None)
  }

  /** Adding a derived column raises exactly when it is computed from an input column
      holding a text. Otherwise it appends at most that one column and changes no existing
      cell; it is appended exactly when `Computed` holds, and then it holds the values
      computed from the inputs. */
  lemma AddIfAbsentExtends(f: Frame, kind: Derived)
    requires WellFormed(f)
    ensures AddIfAbsent(f, kind).Err? <==> Computed(f, kind) && TextIn(f, InputColumns(f, kind))
    ensures AddIfAbsent(f, kind).Ok? ==>
      var g := AddIfAbsent(f, kind).value;
      Extends(f, g) && |g.columns| <= |f.columns| + 1 && (g != f <==> Computed(f, kind))
    ensures AddIfAbsent(f, kind).Ok? && AddIfAbsent(f, kind).value != f ==>
      AddIfAbsent(f, kind).value.columns == f.columns + [Name(kind)] &&
      |AddIfAbsent(f, kind).value.rows| == |f.rows| &&
      (forall i :: 0 <= i < |f.rows| ==> |AddIfAbsent(f, kind).value.rows[i]| == |f.columns| + 1) &&
      forall i :: 0 <= i < |f.rows| ==>
        AddIfAbsent(f, kind).value.rows[i][|f.columns|] == DerivedColumn(f, kind, InputColumns(f, kind))[i]
  {
    var cols := InputColumns(f, kind);
    if !Computed(f, kind) {
      assert AddIfAbsent(f, kind) == Ok(f);
      ExtendsSelf(f);
    } else if TextIn(f, cols) {
      assert AddIfAbsent(f, kind).Err?;
    } else {
      var values := DerivedColumn(f, kind, cols);
      assert AddIfAbsent(f, kind) == Ok(WithColumn(f, Name(kind), values));
      AbsentWhenNotFound(f.columns, Name(kind));
      AppendExtends(f, Name(kind), values);
    }
  }

  /** Every frame extends itself. */
  lemma ExtendsSelf(f: Frame)
    requires WellFormed(f)
    ensures Extends(f, f)
  {
    assert f.columns[..|f.columns|] == f.columns;
  }

  /** Appending a new column holding no text extends the frame. */
  lemma AppendExtends(f: Frame, name: string, values: seq<Cell>)
    requires WellFormed(f) && name !in f.columns && |values| == |f.rows|
    requires forall i :: 0 <= i < |values| ==> !values[i].Str?
    ensures Extends(f, WithColumn(f, name, values))
    ensures WithColumn(f, name, values) != f
    ensures WithColumn(f, name, values).columns == f.columns + [name]
    ensures forall i :: 0 <= i < |f.rows| ==> WithColumn(f, name, values).rows[i][|f.columns|] == values[i]
  {
    var g := WithColumn(f, name, values);
    assert g.columns[..|f.columns|] == f.columns;
    assert |g.columns| != |f.columns|;
    ColumnIndexAppended(f.columns, name);
  }

  /** A derived column whose name is already a column is never recomputed. */
  lemma NeverOverwrites(f: Frame, kind: Derived)
    requires WellFormed(f) && Name(kind) in f.columns
    ensures AddIfAbsent(f, kind) == Ok(f)
  {
    ExactNameFound(f.columns, Name(kind));
  }

  /** Afterwards the bit diameter column exists, also when a later step raised; it is the
      configured constant when it was absent, and every pre-existing column and cell is
      unchanged. */
  lemma AddColumnsProperties(f: Frame)
    requires WellFormed(f)
    ensures Extends(f, AddColumnsSpec(f).frame)
    ensures BitDiameterColumn in AddColumnsSpec(f).frame.columns
    ensures BitDiameterColumn !in f.columns ==>
      |f.columns| < |AddColumnsSpec(f).frame.columns| &&
      AddColumnsSpec(f).frame.columns[|f.columns|] == BitDiameterColumn &&
      forall i :: 0 <= i < |f.rows| ==> AddColumnsSpec(f).frame.rows[i][|f.columns|] == Num(DefaultBitDiameter)
  {
    var f0 := WithBitDiameter(f);
    var f3 := AddColumnsSpec(f).frame;
    WithBitDiameterExtends(f);
    DerivedExtend(f);
    ExtendsTransitive(f, f0, f3);
    ExtendsKeeps(f0, f3, BitDiameterColumn);
    if BitDiameterColumn !in f.columns {
      assert f3.columns[|f.columns|] == f3.columns[..|f0.columns|][|f.columns|];
    }
  }

  /** The three derived columns only append to the frame with the bit diameter. */
  lemma DerivedExtend(f: Frame)
    requires WellFormed(f)
    ensures Extends(WithBitDiameter(f), AddColumnsSpec(f).frame)
  {
    var f0 := WithBitDiameter(f);
    WithBitDiameterExtends(f);
    ExtendsSelf(f0);
    var r0 := AddIfAbsent(f0, Doc);
    if r0.Err? {
      assert AddColumnsSpec(f) == Outcome(f0, Some(r0.error));
      return;
    }
    var f1 := r0.value;
    StepExtends(f0, f0, Doc);
    var r1 := AddIfAbsent(f1, Mu);
    if r1.Err? {
      assert AddColumnsSpec(f) == Outcome(f1, Some(r1.error));
      return;
    }
    var f2 := r1.value;
    StepExtends(f0, f1, Mu);
    var r2 := AddIfAbsent(f2, Mse);
    if r2.Err? {
      assert AddColumnsSpec(f) == Outcome(f2, Some(r2.error));
      return;
    }
    StepExtends(f0, f2, Mse);
    assert AddColumnsSpec(f) == Outcome(r2.value, None);
  }

  /** A step that succeeds on an extension of `f` gives an extension of `f`. */
  lemma StepExtends(f: Frame, g: Frame, kind: Derived)
    requires Extends(f, g) && AddIfAbsent(g, kind).Ok?
    ensures Extends(f, AddIfAbsent(g, kind).value)
  {
    AddIfAbsentExtends(g, kind);
    ExtendsTransitive(f, g, AddIfAbsent(g, kind).value);
  }

  /** `add_columns` raises only TypeError, and only on a frame holding a text: the
      columns it appends hold numbers and missing cells only. */
  lemma AddColumnsErrors(f: Frame)
    requires WellFormed(f)
    ensures AddColumnsSpec(f).error.Some? ==>
      AddColumnsSpec(f).error == Some("TypeError") && TextIn(f, f.columns)
  {
    var f0 := WithBitDiameter(f);
    WithBitDiameterExtends(f);
    StepError(f, f0, Doc);
    var r0 := AddIfAbsent(f0, Doc);
    if r0.Err? {
      assert AddColumnsSpec(f) == Outcome(f0, Some(r0.error));
      return;
    }
    var f1 := r0.value;
    AddIfAbsentExtends(f0, Doc);
    ExtendsTransitive(f, f0, f1);
    StepError(f, f1, Mu);
    var r1 := AddIfAbsent(f1, Mu);
    if r1.Err? {
      assert AddColumnsSpec(f) == Outcome(f1, Some(r1.error));
      return;
    }
    var f2 := r1.value;
    AddIfAbsentExtends(f1, Mu);
    ExtendsTransitive(f, f1, f2);
    StepError(f, f2, Mse);
    var r2 := AddIfAbsent(f2, Mse);
    assert AddColumnsSpec(f).error == if r2.Err? then Some(r2.error) else None;
  }

  /** A step applied to an extension of `f` raises only on a text already in `f`. */
  lemma StepError(f: Frame, g: Frame, kind: Derived)
    requires Extends(f, g)
    ensures AddIfAbsent(g, kind).Err? ==> TextIn(f, f.columns)
  {
    AddIfAbsentExtends(g, kind);
    if AddIfAbsent(g, kind).Err? {
      TextFromOriginal(f, g, InputColumns(g, kind));
    }
  }

  /** A text in an extension of `f` was already in `f`. */
  lemma TextFromOriginal(f: Frame, g: Frame, names: seq<string>)
    requires Extends(f, g) && TextIn(g, names)
    ensures TextIn(f, f.columns)
  {
    var i, j :| 0 <= i < |g.rows| && 0 <= j < |g.rows[i]| && j < |g.columns| &&
      g.columns[j] in names && g.rows[i][j].Str?;
    assert j < |f.columns|;
    assert f.rows[i] in f.rows;
    assert f.columns[j] in f.columns;
  }

  /** A column of a frame is still a column of every extension of it. */
  lemma ExtendsKeeps(f: Frame, g: Frame, name: string)
    requires Extends(f, g) && name in f.columns
    ensures name in g.columns
  {
    var k :| 0 <= k < |f.columns| && f.columns[k] == name;
    assert g.columns[k] == g.columns[..|f.columns|][k];
  }

  /** The bit diameter step appends the constant column when it is absent. */
  lemma WithBitDiameterExtends(f: Frame)
    requires WellFormed(f)
    ensures Extends(f, WithBitDiameter(f))
    ensures BitDiameterColumn in WithBitDiameter(f).columns
    ensures BitDiameterColumn !in f.columns ==>
      WithBitDiameter(f).columns == f.columns + [BitDiameterColumn] &&
      forall i :: 0 <= i < |f.rows| ==> WithBitDiameter(f).rows[i][|f.columns|] == Num(DefaultBitDiameter)
  {
    if BitDiameterColumn !in f.columns {
      AppendExtends(f, BitDiameterColumn, Constant(|f.rows|, Num(DefaultBitDiameter)));
    } else {
      ExtendsSelf(f);
    }
  }

  /** `add_column_if_not_exists(mnemonics, new_column, calculation)` on the frame in
      place; a TypeError leaves the frame as it was. */
  method AddColumnIfNotExists(t: Table, kind: Derived) returns (error: Option<string>)
    requires t.Valid()
    modifies t
    ensures t.Valid()
    ensures AddIfAbsent(old(t.Snapshot()), kind).Ok? ==>
      error.None? && t.Snapshot() == AddIfAbsent(old(t.Snapshot()), kind).value
    ensures AddIfAbsent(old(t.Snapshot()), kind).Err? ==>
      error == Some(AddIfAbsent(old(t.Snapshot()), kind).error) && t.Snapshot() == old(t.Snapshot())
  {
    var snap := t.Snapshot();
    var columns := GetColumnsByMnemonics(DataFrameArg(t.columns), Many(Inputs(kind)));
    var existing := GetColumnsByMnemonics(DataFrameArg(t.columns), Many([Name(kind)]));
    assert columns.value == InputColumns(snap, kind);
    if |columns.value| == |Inputs(kind)| && existing.value == [] {
      assert Computed(snap, kind);
      if TextIn(snap, columns.value) {
        assert AddIfAbsent(snap, kind) == Err("TypeError");
        return Some("TypeError");
      }
      var values := DerivedColumn(snap, kind, columns.value);
      assert AddIfAbsent(snap, kind) == Ok(WithColumn(snap, Name(kind), values));
      t.SetColumn(Name(kind), values);
    } else {
      assert AddIfAbsent(snap, kind) == Ok(snap);
    }
    error := None;
  }

  /** `add_columns(df)`: adds the bit diameter, DOC, Mu and MSE columns to `df` in place;
      a step that raises leaves the columns added before it. */
  method AddColumnsInPlace(t: Table) returns (error: Option<string>)
    requires t.Valid()
    modifies t
    ensures t.Valid()
    ensures t.Snapshot() == AddColumnsSpec(old(t.Snapshot())).frame
    ensures error == AddColumnsSpec(old(t.Snapshot())).error
  {
    if BitDiameterColumn !in t.columns {
      t.SetColumn(BitDiameterColumn, Constant(|t.rows|, Num(DefaultBitDiameter)));
    }
    error := AddColumnIfNotExists(t, Doc);
    if error.Some? {
      return;
    }
    error := AddColumnIfNotExists(t, Mu);
    if error.Some? {
      return;
    }
    error := AddColumnIfNotExists(t, Mse);
  }
}
