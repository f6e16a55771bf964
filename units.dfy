/** Standardising the units of "mnemonic (unit)" columns: the unit is mapped to its
    standard spelling, and a column whose unit has a conversion has every cell converted
    and its unit renamed. */
module Units {
  import opened Wrappers
  import opened Frames
  import Text
  import opened UnitsConfig

  /** The first pattern at or after `j` that accepts the unit. */
  function FirstAccepting(patterns: seq<UnitPattern>, unit: string, j: nat): (r: Option<nat>)
    requires j <= |patterns|
    ensures r.Some? ==> j <= r.value < |patterns| && Accepts(patterns[r.value], unit)
    ensures r.Some? ==> forall i :: j <= i < r.value ==> !Accepts(patterns[i], unit)
    ensures r.None? ==> forall i :: j <= i < |patterns| ==> !Accepts(patterns[i], unit)
    decreases |patterns| - j
  {
    if j == |patterns| then None
    else if Accepts(patterns[j], unit) then Some(j)
    else FirstAccepting(patterns, unit, j + 1)
  }

  /** `map_unit(unit)` over a table of patterns: the standard unit of the first pattern,
      in table order, that accepts the unit; the unit itself when none does. */
  function MapUnitIn(patterns: seq<UnitPattern>, unit: string): (r: string)
    ensures FirstAccepting(patterns, unit, 0).Some? ==> r == patterns[FirstAccepting(patterns, unit, 0).value].0
    ensures FirstAccepting(patterns, unit, 0).None? ==> r == unit
  {
    match FirstAccepting(patterns, unit, 0)
    case Some(i) => patterns[i].0
    case None => unit
  }

  /** `map_unit(unit)` with the configured table. */
  function MapUnit(unit: string): string {
    MapUnitIn(UnitPatterns, unit)
  }

  /** The result of a lookup is either the unit itself, when no pattern accepts it, or
      the standard unit of a pattern that accepts it and of no earlier one. */
  lemma MapUnitFirstMatch(patterns: seq<UnitPattern>, unit: string)
    ensures MapUnitIn(patterns, unit) == unit ||
            exists i :: 0 <= i < |patterns| && MapUnitIn(patterns, unit) == patterns[i].0 &&
                        Accepts(patterns[i], unit) && (forall j :: 0 <= j < i ==> !Accepts(patterns[j], unit))
    ensures (forall i :: 0 <= i < |patterns| ==> !Accepts(patterns[i], unit)) ==> MapUnitIn(patterns, unit) == unit
  {
    var r := FirstAccepting(patterns, unit, 0);
    if r.Some? {
      assert Accepts(patterns[r.value], unit);
    }
  }

  /** Matching ignores case: two spellings with the same lower-case form map alike. */
  lemma MapUnitIgnoresCase(patterns: seq<UnitPattern>, u: string, v: string)
    requires Text.Lower(u) == Text.Lower(v)
    requires (forall i :: 0 <= i < |patterns| ==> !Accepts(patterns[i], u)) ==> u == v
    ensures MapUnitIn(patterns, u) == MapUnitIn(patterns, v)
  {
    FirstAcceptingIgnoresCase(patterns, u, v, 0);
  }

  lemma {:induction false} FirstAcceptingIgnoresCase(patterns: seq<UnitPattern>, u: string, v: string, j: nat)
    requires Text.Lower(u) == Text.Lower(v) && j <= |patterns|
    ensures FirstAccepting(patterns, u, j) == FirstAccepting(patterns, v, j)
    decreases |patterns| - j
  {
    if j < |patterns| {
      FirstAcceptingIgnoresCase(patterns, u, v, j + 1);
    }
  }

  /** "f" and "F" are accepted both by the feet pattern and by the Fahrenheit pattern;
      feet comes first in the table, so both resolve to "ft". Celsius resolves to "C". */
  lemma FahrenheitLetterIsFeet()
    ensures MapUnit("f") == "ft" && MapUnit("F") == "ft"
    ensures MapUnit("c") == "C" && MapUnit("C") == "C"
    ensures Accepts(UnitPatterns[|UnitPatterns| - 1], "F")
  {
    assert Text.Lower("F") == "f";
    assert Text.Lower("f") == "f";
    assert Accepts(UnitPatterns[0], "f");
    assert Accepts(UnitPatterns[0], "F");
    assert Text.Lower("c") == "c" && Text.Lower("C") == "c";
    CelsiusIsC("c");
    CelsiusIsC("C");
  }

  lemma CelsiusIsC(u: string)
    requires Text.Lower(u) == "c"
    ensures MapUnit(u) == "C"
  {
    var p := UnitPatterns;
    NoCelsiusSpellingBefore(0, 9);
    NoCelsiusSpellingBefore(9, 18);
    NoCelsiusSpellingBefore(18, 26);
    assert FirstAccepting(p, u, 26) == Some(26);
  }

  /** No standard unit before Celsius in the table accepts "c". */
  lemma NoCelsiusSpellingBefore(lo: nat, hi: nat)
    requires (lo, hi) in {(0, 9), (9, 18), (18, 26)}
    ensures forall i :: lo <= i < hi ==> "c" !in UnitPatterns[i].1
  {
    var p := UnitPatterns;
    if lo == 0 {
      assert forall i :: 0 <= i < 9 ==> "c" !in p[i].1;
    } else if lo == 9 {
      assert forall i :: 9 <= i < 18 ==> "c" !in p[i].1;
    } else {
      assert forall i :: 18 <= i < 26 ==> "c" !in p[i].1;
    }
  }

  /** The conversion table keyed by lower-cased source unit; a later entry replaces an
      earlier one with the same lower-cased key, as a dict comprehension does. */
  function LowerKeyed(m: seq<(string, (Conversion, string))>): (d: map<string, (Conversion, string)>)
    ensures d.Keys == set i | 0 <= i < |m| :: Text.Lower(m[i].0)
  {
    if |m| == 0 then map[]
    else
      var n := |m| - 1;
      var d := LowerKeyed(m[..n]);
      assert forall i :: 0 <= i < n ==> m[..n][i] == m[i];
      d[Text.Lower(m[n].0) := m[n].1]
  }

  /** The lower-cased key a unit is looked up under: `map_unit(unit.lower()).lower()`. */
  function UnitKey(unit: string): string {
    Text.Lower(MapUnit(Text.Lower(unit)))
  }

  /** `mnemonic, unit = col.split(' (')` followed by `unit.rstrip(')')`: a name that
      does not split into exactly two parts makes the unpacking raise. */
  function SplitName(col: string): (r: Result<(string, string)>)
    ensures r.Ok? <==> |Text.Split(col, " (")| == 2
    ensures r.Ok? ==> r.value == (Text.Split(col, " (")[0], Text.RStripChar(Text.Split(col, " (")[1], ')'))
  {
    var parts := Text.Split(col, " (");
    if |parts| == 2 then Ok((parts[0], Text.RStripChar(parts[1], ')')))
    else Err("ValueError")
  }

  /** What happens to one column, when units are looked up under `key(unit)`: the
      split fails, or the column is kept, or it is converted with a converter and
      takes a new name. */
  function Plan(col: string, m: map<string, (Conversion, string)>, key: string -> string)
    : (r: Result<Option<(Conversion, string)>>)
    ensures r.Ok? <==> SplitName(col).Ok?
    ensures r.Ok? && r.value.Some? <==> SplitName(col).Ok? && key(SplitName(col).value.1) in m
    ensures r.Ok? && r.value.Some? ==>
      var (mnemonic, unit) := SplitName(col).value;
      r.value.value == (m[key(unit)].0, mnemonic + " (" + m[key(unit)].1 + ")")
  {
    match SplitName(col)
    case Err(e) => Err(e)
    case Ok((mnemonic, unit)) =>
      var k := key(unit);
      if k in m then Ok(Some((m[k].0, mnemonic + " (" + m[k].1 + ")"))) else Ok(None)
  }

  /** What happens to each column, by name. */
  type Planner = string -> Result<Option<(Conversion, string)>>

  /** The name column `col` ends with. */
  function NewName(col: string, plan: Planner): string {
    match plan(col)
    case Ok(Some((_, name))) => name
    case _ => col
  }

  /** The cell a cell of column `col` ends as. */
  function NewCell(col: string, plan: Planner, c: Cell, parse: string -> Option<real>): Cell {
    match plan(col)
    case Ok(Some((conversion, _))) => ConvertCell(c, conversion, parse)
    case _ => c
  }

  /** The position of the first column whose name does not split, or the column count. */
  function FirstUnsplittable(columns: seq<string>): (k: nat)
    ensures k <= |columns|
    ensures forall j :: 0 <= j < k ==> SplitName(columns[j]).Ok?
    ensures k < |columns| ==> SplitName(columns[k]).Err?
  {
    if |columns| == 0 then 0
    else if SplitName(columns[0]).Err? then 0
    else 1 + FirstUnsplittable(columns[1..])
  }

  /** The position of the first column the plan cannot handle, or the column count. */
  function FirstFailing(columns: seq<string>, plan: Planner): (k: nat)
    ensures k <= |columns|
    ensures forall j :: 0 <= j < k ==> plan(columns[j]).Ok?
    ensures k < |columns| ==> plan(columns[k]).Err?
  {
    if |columns| == 0 then 0
    else if plan(columns[0]).Err? then 0
    else 1 + FirstFailing(columns[1..], plan)
  }

  /** The plan of a conversion table fails exactly where a name does not split. */
  lemma {:induction false} FailingIsUnsplittable(columns: seq<string>, m: seq<(string, (Conversion, string))>,
                                                  key: string -> string)
    ensures FirstFailing(columns, PlanFor(m, key)) == FirstUnsplittable(columns)
  {
    if |columns| > 0 {
      FailingIsUnsplittable(columns[1..], m, key);
    }
  }

  /** The frame once the first `k` columns have been standardised. */
  function StandardizedUpTo(f: Frame, k: nat, plan: Planner, parse: string -> Option<real>): (g: Frame)
    requires WellFormed(f) && k <= |f.columns|
    ensures WellFormed(g) && |g.columns| == |f.columns| && |g.rows| == |f.rows|
  {
    var n := |f.columns|;
    Frame(
      seq(n, j requires 0 <= j < n => if j < k then NewName(f.columns[j], plan) else f.columns[j]),
      seq(|f.rows|, i requires 0 <= i < |f.rows| =>
        seq(n, j requires 0 <= j < n => if j < k then NewCell(f.columns[j], plan, f.rows[i][j], parse) else f.rows[i][j])))
  }

  /** Before any column is visited the frame is as it was. */
  lemma StandardizedNone(f: Frame, plan: Planner, parse: string -> Option<real>)
    requires WellFormed(f)
    ensures StandardizedUpTo(f, 0, plan, parse) == f
  {
    var g := StandardizedUpTo(f, 0, plan, parse);
    forall i | 0 <= i < |f.rows| ensures g.rows[i] == f.rows[i] {
      assert f.rows[i] in f.rows;
    }
  }

  /** A visited column holds its new name and its new cells. */
  lemma StandardizedAt(f: Frame, k: nat, plan: Planner, parse: string -> Option<real>, i: nat, j: nat)
    requires WellFormed(f) && k <= |f.columns| && i < |f.rows| && j < k
    ensures StandardizedUpTo(f, k, plan, parse).columns[j] == NewName(f.columns[j], plan)
    ensures StandardizedUpTo(f, k, plan, parse).rows[i][j] == NewCell(f.columns[j], plan, f.rows[i][j], parse)
  {
    assert f.rows[i] in f.rows;
  }

  /** The plan `standardize_units` follows for a conversion table and a unit lookup. */
  function PlanFor(m: seq<(string, (Conversion, string))>, key: string -> string): Planner {
    col => Plan(col, LowerKeyed(m), key)
  }

  /** Every column up to the first one whose name does not split is standardised with
      the units looked up under `key`; the rest are untouched. */
  function StandardizedBy(f: Frame, m: seq<(string, (Conversion, string))>, key: string -> string,
                          parse: string -> Option<real>): (g: Frame)
    requires WellFormed(f)
    ensures WellFormed(g)
  {
    StandardizedUpTo(f, FirstUnsplittable(f.columns), PlanFor(m, key), parse)
  }

  /** `standardize_units(df, unit_conversion_mappings)`, as a frame: units are looked
      up under `map_unit(unit.lower()).lower()`. */
  function Standardized(f: Frame, m: seq<(string, (Conversion, string))>, parse: string -> Option<real>): (g: Frame)
    requires WellFormed(f)
    ensures WellFormed(g)
  {
    StandardizedBy(f, m, UnitKey, parse)
  }

  /** Column count and order are kept; a column whose unit has no conversion keeps its
      name and its cells; a converted column has every cell passed through the
      converter and is renamed "mnemonic (new unit)". Stated for any unit lookup. */
  lemma StandardizedColumns(f: Frame, m: seq<(string, (Conversion, string))>, key: string -> string,
                            parse: string -> Option<real>, i: nat, j: nat)
    requires WellFormed(f) && FirstUnsplittable(f.columns) == |f.columns|
    requires i < |f.rows| && j < |f.columns|
    ensures |StandardizedBy(f, m, key, parse).columns| == |f.columns| && |StandardizedBy(f, m, key, parse).rows| == |f.rows|
    ensures
      var (mnemonic, unit) := SplitName(f.columns[j]).value;
      var d := LowerKeyed(m);
      var g := StandardizedBy(f, m, key, parse);
      (key(unit) !in d ==> g.columns[j] == f.columns[j] && g.rows[i][j] == f.rows[i][j]) &&
      (key(unit) in d ==>
        g.columns[j] == mnemonic + " (" + d[key(unit)].1 + ")" &&
        g.rows[i][j] == ConvertCell(f.rows[i][j], d[key(unit)].0, parse))
  {
    StandardizedAt(f, |f.columns|, PlanFor(m, key), parse, i, j);
  }

  /** A name without exactly one " (" stops the run: earlier columns are already
      standardised in place, it and every later column are untouched. */
  lemma UnsplittableStops(f: Frame, m: seq<(string, (Conversion, string))>, parse: string -> Option<real>, i: nat, j: nat)
    requires WellFormed(f) && i < |f.rows| && FirstUnsplittable(f.columns) <= j < |f.columns|
    ensures Standardized(f, m, parse).columns[j] == f.columns[j]
    ensures Standardized(f, m, parse).rows[i][j] == f.rows[i][j]
  {
    UnvisitedAt(f, FirstUnsplittable(f.columns), PlanFor(m, UnitKey), parse, i, j);
  }

  /** A column not yet visited holds its original name and cells. */
  lemma UnvisitedAt(f: Frame, k: nat, plan: Planner, parse: string -> Option<real>, i: nat, j: nat)
    requires WellFormed(f) && k <= j < |f.columns| && i < |f.rows|
    ensures StandardizedUpTo(f, k, plan, parse).columns[j] == f.columns[j]
    ensures StandardizedUpTo(f, k, plan, parse).rows[i][j] == f.rows[i][j]
  {
    assert f.rows[i] in f.rows;
  }

  /** One conversion step of the loop: standardising column `k` after the first `k`
      writes its cells, then its name. */
  lemma StandardizedStep(f: Frame, k: nat, plan: Planner, parse: string -> Option<real>, values: seq<Cell>)
    requires WellFormed(f) && k < |f.columns|
    requires |values| == |f.rows|
    requires forall i :: 0 <= i < |f.rows| ==> values[i] == NewCell(f.columns[k], plan, f.rows[i][k], parse)
    ensures
      var g := StandardizedUpTo(f, k, plan, parse);
      StandardizedUpTo(f, k + 1, plan, parse) ==
        Frame(g.columns[k := NewName(f.columns[k], plan)], Overwritten(g, k, values).rows)
  {
    var g := StandardizedUpTo(f, k, plan, parse);
    var h := StandardizedUpTo(f, k + 1, plan, parse);
    var o := Overwritten(g, k, values);
    forall i | 0 <= i < |f.rows| ensures h.rows[i] == o.rows[i] {
      assert f.rows[i] in f.rows;
    }
  }

  /** A column that is kept is the same frame before and after its step. */
  lemma StandardizedKeep(f: Frame, k: nat, plan: Planner, parse: string -> Option<real>)
    requires WellFormed(f) && k < |f.columns| && plan(f.columns[k]) == Ok(None)
    ensures StandardizedUpTo(f, k + 1, plan, parse) == StandardizedUpTo(f, k, plan, parse)
  {
    var g := StandardizedUpTo(f, k, plan, parse);
    var h := StandardizedUpTo(f, k + 1, plan, parse);
    forall i | 0 <= i < |f.rows| ensures h.rows[i] == g.rows[i] {
      assert f.rows[i] in f.rows;
    }
  }

  /** An entry whose lower-cased source unit no other entry shares is what the lowered
      table holds under that key. */
  lemma {:induction false} LowerKeyedAt(m: seq<(string, (Conversion, string))>, i: nat)
    requires i < |m|
    requires forall j :: 0 <= j < |m| && j != i ==> Text.Lower(m[j].0) != Text.Lower(m[i].0)
    ensures Text.Lower(m[i].0) in LowerKeyed(m) && LowerKeyed(m)[Text.Lower(m[i].0)] == m[i].1
  {
    var n := |m| - 1;
    if i < n {
      assert forall j :: 0 <= j < n ==> m[..n][j] == m[j];
      LowerKeyedAt(m[..n], i);
    }
  }

  /** The configured table as `standardize_units` keys it: "c" converts Celsius to
      Fahrenheit and "ft" converts feet to meters. */
  lemma ConfiguredLookups()
    ensures "c" in LowerKeyed(UnitConversionMappings) && LowerKeyed(UnitConversionMappings)["c"] == (CToF, "F")
    ensures "ft" in LowerKeyed(UnitConversionMappings) && LowerKeyed(UnitConversionMappings)["ft"] == (FeetToMeters, "m")
  {
    var m := UnitConversionMappings;
    SourcesDistinct();
    LoweredSourceUnits();
    var keys := LoweredKeys(m);
    assert keys[13] == Text.Lower(m[13].0) && keys[0] == Text.Lower(m[0].0);
    LowerKeyedAt(m, 13);
    LowerKeyedAt(m, 0);
  }

  /** The split of a "T (unit)" name. */
  lemma SplitT(u: string)
    requires u in {"C", "F"}
    ensures SplitName("T (" + u + ")") == Ok(("T", u))
  {
    var col := "T (" + u + ")";
    assert col[..2] == "T " && col[1..][..2] == " (";
    assert !Text.StartsWith(col, " (");
    assert Text.StartsWith(col[1..], " (");
    assert Text.IndexOf(col, " (") == Some(1);
    assert col[..1] == "T";
    assert col[3..] == u + ")";
    assert !Text.Contains(u + ")", " (") by {
      assert !Text.StartsWith(u + ")", " (");
      assert (u + ")")[1..] == ")";
      Text.ContainsShorter(")", " (");
    }
    assert Text.IndexOf(u + ")", " (") == None;
    assert Text.Split(u + ")", " (") == [u + ")"];
    assert Text.Split(col, " (") == ["T", u + ")"];
    assert Text.RStripChar(u + ")", ')') == u by {
      assert (u + ")")[..1] == u;
    }
  }

  /** The Fahrenheit name a Celsius column is given is read back as feet: a second
      `standardize_units` pass with the configured tables converts the already
      converted column again, by the feet-to-meters factor, so the operation is not
      idempotent. This is the first pass. */
  lemma CelsiusPlanned()
    ensures Plan("T (C)", LowerKeyed(UnitConversionMappings), UnitKey) == Ok(Some((CToF, "T (F)")))
  {
    var d := LowerKeyed(UnitConversionMappings);
    SplitT("C");
    assert "T (" + "C" + ")" == "T (C)";
    assert "T" + " (" + "F" + ")" == "T (F)";
    TemperatureKeys();
    ConfiguredLookups();
    PlanConverts("T (C)", d, UnitKey, "T", "C", "c");
  }

  /** The second pass over the converted Celsius column. */
  lemma FahrenheitPlanned()
    ensures Plan("T (F)", LowerKeyed(UnitConversionMappings), UnitKey) == Ok(Some((FeetToMeters, "T (m)")))
  {
    var d := LowerKeyed(UnitConversionMappings);
    SplitT("F");
    assert "T (" + "F" + ")" == "T (F)";
    assert "T" + " (" + "m" + ")" == "T (m)";
    TemperatureKeys();
    ConfiguredLookups();
    PlanConverts("T (F)", d, UnitKey, "T", "F", "ft");
  }

  /** A name that splits, with a unit the table converts, is planned for conversion. */
  lemma PlanConverts(col: string, m: map<string, (Conversion, string)>, key: string -> string,
                     mnemonic: string, unit: string, k: string)
    requires SplitName(col) == Ok((mnemonic, unit)) && key(unit) == k && k in m
    ensures Plan(col, m, key) == Ok(Some((m[k].0, mnemonic + " (" + m[k].1 + ")")))
  {
  }

  /** "C" is looked up as "c", and "F" as "ft". */
  lemma TemperatureKeys()
    ensures UnitKey("C") == "c" && UnitKey("F") == "ft"
  {
    FahrenheitLetterIsFeet();
    LowerLetters();
  }

  lemma LowerLetters()
    ensures Text.Lower("C") == "c" && Text.Lower("F") == "f" && Text.Lower("ft") == "ft"
  {
  }

  /** One column of the loop: the plan for its name raises, keeps the column, or
      rewrites its cells in place and then renames it. */
  method StandardizeColumn(t: Table, ghost f: Frame, j: nat, col: string, planner: Planner,
                           parse: string -> Option<real>) returns (error: Option<string>)
    requires WellFormed(f) && j < |f.columns| && col == f.columns[j]
    requires t.Valid() && t.Snapshot() == StandardizedUpTo(f, j, planner, parse)
    modifies t
    ensures t.Valid()
    ensures planner(col).Err? ==> error == Some(planner(col).error) && t.Snapshot() == old(t.Snapshot())
    ensures planner(col).Ok? ==> error.None? && t.Snapshot() == StandardizedUpTo(f, j + 1, planner, parse)
  {
    var plan := planner(col);
    if plan.Err? {
      return Some(plan.error);
    }
    if plan.value.Some? {
      var (conversion, name) := plan.value.value;
      var rows := t.rows;
      var values := seq(|rows|, i requires 0 <= i < |rows| => ConvertCell(rows[i][j], conversion, parse));
      assert forall i :: 0 <= i < |f.rows| ==> f.rows[i] in f.rows;
      StandardizedStep(f, j, planner, parse, values);
      t.OverwriteColumn(j, values);
      t.RenameAt(j, name);
    } else {
      StandardizedKeep(f, j, planner, parse);
    }
    error := None;
  }

  /** The column loop of `standardize_units`, for any plan: the columns are visited in
      their original order, a converted column has its cells rewritten and is renamed,
      and the first column the plan cannot handle raises and ends the loop. */
  method StandardizeWith(t: Table, planner: Planner, parse: string -> Option<real>) returns (error: Option<string>)
    requires t.Valid()
    modifies t
    ensures t.Valid()
    ensures error.None? <==> FirstFailing(old(t.columns), planner) == |old(t.columns)|
    ensures t.Snapshot() == StandardizedUpTo(old(t.Snapshot()), FirstFailing(old(t.columns), planner), planner, parse)
  {
    ghost var f := t.Snapshot();
    var columns := t.columns;
    StandardizedNone(f, planner, parse);
    for j := 0 to |columns|
      invariant t.Valid() && j <= FirstFailing(columns, planner)
      invariant t.Snapshot() == StandardizedUpTo(f, j, planner, parse)
    {
      error := StandardizeColumn(t, f, j, columns[j], planner, parse);
      if error.Some? {
        return;
      }
    }
    error := None;
  }

  /** `standardize_units(df, unit_conversion_mappings)`, in place: the columns are
      visited in their original order; a converted column has its cells rewritten and
      is renamed; a name that does not split raises and leaves the frame as far as it
      got. Columns are addressed by position, which is what pandas does when no two
      columns share a name. */
  method StandardizeUnits(t: Table, mappings: seq<(string, (Conversion, string))>, parse: string -> Option<real>)
    returns (error: Option<string>)
    requires t.Valid()
    modifies t
    ensures t.Valid()
    ensures error.None? <==> FirstUnsplittable(old(t.columns)) == |old(t.columns)|
    ensures t.Snapshot() == Standardized(old(t.Snapshot()), mappings, parse)
  {
    FailingIsUnsplittable(t.columns, mappings, UnitKey);
    error := StandardizeWith(t, PlanFor(mappings, UnitKey), parse);
  }
}
