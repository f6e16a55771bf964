/** Renaming raw "mnemonic (unit)" column names to standard mnemonics: a first-match
    search through the shared table of header patterns, then two fallback rules. */
module Headers {
  import opened Wrappers
  import opened Frames
  import Text

  /** An entry of the pattern table: a standard mnemonic and its regular expression,
      None while the entry is unset. */
  type Entry = (string, Option<string>)

  /** The header patterns of the configuration, in insertion order. `VOLUME` is set on
      every call of `map_mnemonic`. */
  const HeaderPatterns: seq<Entry> := [
    ("MD", Some(".*DEPMD.*|.*DEPTH.*|.*MD.*")),
    ("TVD", Some(".*TVD.*")),
    ("ROP", Some(".*ROP.*|.*PENETRATE.*")),
    ("DOC", Some(".*DOC.*")),
    ("WOB", Some(".*WOB.*|.*BITLOAD.*")),
    ("MSE", Some(".*MSE.*|SE.*")),
    ("SURFACE_RPM", Some(".*SURF.*RPM.*|.*SURFACE.*RPM.*")),
    ("MOTOR_RPM", Some(".*MOTOR.*RPM.*")),
    ("BIT_RPM", Some(".*BIT.*RPM.*|.*TOTAL.*RPM.*|.*RPM.*TOTAL|.*RPM.*BIT.*|.*RPM.*")),
    ("SPP", Some(".*SPP.*|.*STANDPIPE.*")),
    ("TORQUE", Some(".*TORQ.*|.*TWIST.*|TQ_Table.*")),
    ("FLOW", Some(".*FLOW.*|.*FLUIDRATE.*")),
    ("TEMP", Some(".*TEMP.*|.*HEAT.*")),
    ("PRESSURE", Some(".*PRESS.*|.*PSI.*")),
    ("Si", Some(".*Si.*")),
    ("Shale", Some(".*Shale.*")),
    ("Dolomite", Some(".*Dolomite.*")),
    ("Limestone", Some(".*Limestone.*")),
    ("BIT_DIAMETER", Some("BIT_DIAMETER")),
    ("Mu", Some(".*Mu.*")),
    ("VOLUME", None)
  ]

  /** `re.match(pattern, text, re.IGNORECASE)`, supplied by the caller. */
  type Matcher = (string, string) -> bool

  /** `patterns[key] = value` on an insertion-ordered dictionary: an existing key keeps
      its place and takes the new value, a new key goes last. */
  function Assign(entries: seq<Entry>, key: string, value: Option<string>): (r: seq<Entry>)
    ensures |entries| <= |r|
    ensures exists i :: 0 <= i < |r| && r[i] == (key, value)
    ensures forall i :: 0 <= i < |r| && r[i].0 != key ==> i < |entries| && r[i] == entries[i]
    ensures forall i :: 0 <= i < |entries| && entries[i].0 != key ==> r[i] == entries[i]
    ensures |r| == if exists i :: 0 <= i < |entries| && entries[i].0 == key then |entries| else |entries| + 1
  {
    if exists i :: 0 <= i < |entries| && entries[i].0 == key then
      var r := seq(|entries|, i requires 0 <= i < |entries| => if entries[i].0 == key then (key, value) else entries[i]);
      var i :| 0 <= i < |entries| && entries[i].0 == key;
      assert r[i] == (key, value);
      r
    else
      var r := entries + [(key, value)];
      assert r[|entries|] == (key, value);
      r
  }

  /** Assigning a key twice keeps only the second value. */
  lemma AssignTwice(entries: seq<Entry>, key: string, first: Option<string>, second: Option<string>)
    ensures Assign(Assign(entries, key, first), key, second) == Assign(entries, key, second)
  {
    var once := Assign(entries, key, first);
    assert exists i :: 0 <= i < |once| && once[i].0 == key;
    var a := Assign(once, key, second);
    var b := Assign(entries, key, second);
    assert |a| == |b|;
    forall i | 0 <= i < |a| ensures a[i] == b[i] {
      if a[i].0 != key {
        assert b[i] == entries[i];
      }
    }
  }

  /** The table holds the `VOLUME` pattern for this unit: what `map_mnemonic` writes. */
  class PatternTable {
    var entries: seq<Entry>

    /** The table as the configuration defines it. */
    constructor ()
      ensures entries == HeaderPatterns
    {
      entries := HeaderPatterns;
    }

    /** `patterns[key] = value`. */
    method Set(key: string, value: Option<string>)
      modifies this
      ensures entries == Assign(old(entries), key, value)
    {
      entries := Assign(entries, key, value);
    }
  }

  /** `pattern and re.match(pattern, mnemonic, re.IGNORECASE)`: an unset or empty
      pattern never matches. */
  predicate Hit(pattern: Option<string>, mnemonic: string, matches: Matcher) {
    pattern.Some? && pattern.value != "" && matches(pattern.value, mnemonic)
  }

  /** The first entry at or after `j` whose pattern matches the mnemonic. */
  function PatternHitFrom(entries: seq<Entry>, mnemonic: string, matches: Matcher, j: nat): (r: Option<nat>)
    requires j <= |entries|
    ensures r.Some? ==> j <= r.value < |entries| && Hit(entries[r.value].1, mnemonic, matches)
    ensures r.Some? ==> forall i :: j <= i < r.value ==> !Hit(entries[i].1, mnemonic, matches)
    ensures r.None? ==> forall i :: j <= i < |entries| ==> !Hit(entries[i].1, mnemonic, matches)
    decreases |entries| - j
  {
    if j == |entries| then None
    else if Hit(entries[j].1, mnemonic, matches) then Some(j)
    else PatternHitFrom(entries, mnemonic, matches, j + 1)
  }

  /** The first entry, in insertion order, whose pattern matches. */
  function PatternHit(entries: seq<Entry>, mnemonic: string, matches: Matcher): Option<nat> {
    PatternHitFrom(entries, mnemonic, matches, 0)
  }

  /** `.*A.*B.*`: `a` occurs and `b` occurs after it. */
  predicate Followed(s: string, a: string, b: string) {
    match Text.IndexOf(s, a)
    case None => false
    case Some(i) => Text.Contains(s[i + |a|..], b)
  }

  /** `re.match(r".*SURF.*RPM.*|.*SURFACE.*RPM.*", m, re.IGNORECASE)`. */
  predicate SurfaceRpm(m: string) {
    Followed(Text.Upper(m), "SURF", "RPM") || Followed(Text.Upper(m), "SURFACE", "RPM")
  }

  /** `re.match(r".*MOTOR.*RPM.*", m, re.IGNORECASE)`. */
  predicate MotorRpm(m: string) {
    Followed(Text.Upper(m), "MOTOR", "RPM")
  }

  /** `analyze_rpm_context(mnemonic, unit, rpm_values)`: decided by which kinds of RPM
      column occur among the keys of `rpm_values`. */
  function AnalyzeRpmContext(mnemonic: string, unit: string, rpmValues: map<string, real>): (r: string)
    ensures (exists m | m in rpmValues :: SurfaceRpm(m)) && (exists m | m in rpmValues :: MotorRpm(m)) ==>
      r == "BIT_RPM (rpm)"
    ensures (exists m | m in rpmValues :: SurfaceRpm(m)) && !(exists m | m in rpmValues :: MotorRpm(m)) ==>
      r == "SURFACE_RPM (rpm)"
    ensures !(exists m | m in rpmValues :: SurfaceRpm(m)) && (exists m | m in rpmValues :: MotorRpm(m)) ==>
      r == "MOTOR_RPM (rpm)"
    ensures !(exists m | m in rpmValues :: SurfaceRpm(m)) && !(exists m | m in rpmValues :: MotorRpm(m)) ==>
      r == "RPM__unidentified (rpm)"
  {
    var surface := exists m | m in rpmValues :: SurfaceRpm(m);
    var motor := exists m | m in rpmValues :: MotorRpm(m);
    if surface && motor then "BIT_RPM (rpm)"
    else if surface then "SURFACE_RPM (rpm)"
    else if motor then "MOTOR_RPM (rpm)"
    else "RPM__unidentified (rpm)"
  }

  /** The RPM decision reads neither the mnemonic, nor the unit, nor the averages: only
      the names of the RPM columns. */
  lemma RpmContextIgnoresValues(m1: string, u1: string, v1: map<string, real>,
                                m2: string, u2: string, v2: map<string, real>)
    requires v1.Keys == v2.Keys
    ensures AnalyzeRpmContext(m1, u1, v1) == AnalyzeRpmContext(m2, u2, v2)
  {
    assert (exists m | m in v1 :: SurfaceRpm(m)) == (exists m | m in v2 :: SurfaceRpm(m));
    assert (exists m | m in v1 :: MotorRpm(m)) == (exists m | m in v2 :: MotorRpm(m));
  }

  /** `analyze_context(mnemonic, unit)`: a mnemonic already marked unidentified is kept,
      one containing "TEMP" (case-sensitive) becomes a temperature in C or F by the unit,
      any other is marked unidentified. */
  function AnalyzeContext(mnemonic: string, unit: string): (r: string)
    ensures Text.Contains(mnemonic, "__unidentified") ==> r == mnemonic + " (" + unit + ")"
    ensures !Text.Contains(mnemonic, "__unidentified") && Text.Contains(mnemonic, "TEMP") ==>
      r == if Text.Contains(Text.Lower(unit), "c") then "TEMPERATURE (C)" else "TEMPERATURE (F)"
    ensures !Text.Contains(mnemonic, "__unidentified") && !Text.Contains(mnemonic, "TEMP") ==>
      r == mnemonic + "__unidentified (" + unit + ")"
  {
    if Text.Contains(mnemonic, "__unidentified") then mnemonic + " (" + unit + ")"
    else if Text.Contains(mnemonic, "TEMP") then
      if Text.Contains(Text.Lower(unit), "c") then "TEMPERATURE (C)" else "TEMPERATURE (F)"
    else mnemonic + "__unidentified (" + unit + ")"
  }

  /** The mnemonic and unit parts of what `analyze_context` returns. */
  function ContextParts(mnemonic: string, unit: string): (string, string) {
    if Text.Contains(mnemonic, "__unidentified") then (mnemonic, unit)
    else if Text.Contains(mnemonic, "TEMP") then
      ("TEMPERATURE", if Text.Contains(Text.Lower(unit), "c") then "C" else "F")
    else (mnemonic + "__unidentified", unit)
  }

  /** `analyze_context` is idempotent: its output is "mnemonic (unit)" and analysing that
      mnemonic and unit again gives the same name, so no second "__unidentified" suffix
      and no change of temperature scale ever appears. */
  lemma AnalyzeContextIdempotent(mnemonic: string, unit: string)
    ensures AnalyzeContext(mnemonic, unit) == ContextParts(mnemonic, unit).0 + " (" + ContextParts(mnemonic, unit).1 + ")"
    ensures AnalyzeContext(ContextParts(mnemonic, unit).0, ContextParts(mnemonic, unit).1) == AnalyzeContext(mnemonic, unit)
  {
    if Text.Contains(mnemonic, "__unidentified") {
    } else if Text.Contains(mnemonic, "TEMP") {
      TemperatureContext(if Text.Contains(Text.Lower(unit), "c") then "C" else "F");
    } else {
      MarkedContext(mnemonic, unit);
    }
  }

  /** A temperature name analysed again keeps its scale. */
  lemma TemperatureContext(scale: string)
    requires scale == "C" || scale == "F"
    ensures AnalyzeContext("TEMPERATURE", scale) == "TEMPERATURE" + " (" + scale + ")"
    ensures "TEMPERATURE" + " (" + scale + ")" == if scale == "C" then "TEMPERATURE (C)" else "TEMPERATURE (F)"
  {
    TemperatureIsTemp();
    TemperatureNames();
    if scale == "C" {
      CelsiusScale();
    } else {
      FahrenheitScale();
    }
  }

  lemma TemperatureNames()
    ensures "TEMPERATURE" + " (" + "C" + ")" == "TEMPERATURE (C)"
    ensures "TEMPERATURE" + " (" + "F" + ")" == "TEMPERATURE (F)"
  {
  }

  lemma TemperatureIsTemp()
    ensures !Text.Contains("TEMPERATURE", "__unidentified") && Text.Contains("TEMPERATURE", "TEMP")
  {
    Text.ContainsShorter("TEMPERATURE", "__unidentified");
    assert Text.StartsWith("TEMPERATURE", "TEMP");
  }

  lemma CelsiusScale()
    ensures Text.Contains(Text.Lower("C"), "c")
  {
    assert Text.Lower("C") == "c" && Text.StartsWith("c", "c");
  }

  lemma FahrenheitScale()
    ensures !Text.Contains(Text.Lower("F"), "c")
  {
    assert Text.Lower("F") == "f";
    assert "f"[..1] == "f" && "f"[0] != "c"[0];
    assert "f"[1..] == "";
    Text.ContainsShorter("", "c");
  }

  /** A name marked unidentified is kept as it is when analysed again. */
  lemma MarkedContext(mnemonic: string, unit: string)
    requires !Text.Contains(mnemonic, "__unidentified") && !Text.Contains(mnemonic, "TEMP")
    ensures AnalyzeContext(mnemonic + "__unidentified", unit) == AnalyzeContext(mnemonic, unit)
    ensures AnalyzeContext(mnemonic, unit) == mnemonic + "__unidentified" + " (" + unit + ")"
  {
    Text.ContainsAppended(mnemonic, "__unidentified");
    assert mnemonic + "__unidentified" + " (" + unit + ")" == mnemonic + "__unidentified (" + unit + ")";
  }

  /** Whatever `analyze_context` returns is marked unidentified or is a temperature. */
  lemma ContextMarked(mnemonic: string, unit: string)
    ensures Text.Contains(AnalyzeContext(mnemonic, unit), "__unidentified") ||
      AnalyzeContext(mnemonic, unit) in {"TEMPERATURE (C)", "TEMPERATURE (F)"}
  {
    if Text.Contains(mnemonic, "__unidentified") {
      Text.ContainsPrefix(mnemonic, " (" + unit + ")", "__unidentified");
      assert mnemonic + (" (" + unit + ")") == mnemonic + " (" + unit + ")";
    } else if !Text.Contains(mnemonic, "TEMP") {
      var a := mnemonic + "__unidentified";
      Text.ContainsAppended(mnemonic, "__unidentified");
      Text.ContainsPrefix(a, " (" + unit + ")", "__unidentified");
      assert a + (" (" + unit + ")") == mnemonic + "__unidentified (" + unit + ")";
    }
  }

  /** What `map_mnemonic` returns once the table holds the entries given: the first
      matching entry's mnemonic with the unit, otherwise the RPM rule for a mnemonic
      containing "RPM" in any case, otherwise `analyze_context`. */
  function MapSpec(entries: seq<Entry>, mnemonic: string, unit: string, rpmValues: map<string, real>,
                   matches: Matcher): (r: string)
    ensures PatternHit(entries, mnemonic, matches).Some? ==>
      r == entries[PatternHit(entries, mnemonic, matches).value].0 + " (" + unit + ")"
    ensures PatternHit(entries, mnemonic, matches).None? && Text.Contains(Text.Upper(mnemonic), "RPM") ==>
      r == AnalyzeRpmContext(mnemonic, unit, rpmValues)
    ensures PatternHit(entries, mnemonic, matches).None? && !Text.Contains(Text.Upper(mnemonic), "RPM") ==>
      r == AnalyzeContext(mnemonic, unit)
  {
    match PatternHit(entries, mnemonic, matches)
    case Some(i) => entries[i].0 + " (" + unit + ")"
    case None =>
      if Text.Contains(Text.Upper(mnemonic), "RPM") then AnalyzeRpmContext(mnemonic, unit, rpmValues)
      else AnalyzeContext(mnemonic, unit)
  }

  /** A name that no pattern matches and that carries no RPM never keeps its bare
      mnemonic: it comes back marked unidentified or as a temperature. */
  lemma UnmatchedIsMarked(entries: seq<Entry>, mnemonic: string, unit: string, rpmValues: map<string, real>,
                          matches: Matcher)
    requires PatternHit(entries, mnemonic, matches).None? && !Text.Contains(Text.Upper(mnemonic), "RPM")
    ensures Text.Contains(MapSpec(entries, mnemonic, unit, rpmValues, matches), "__unidentified") ||
      MapSpec(entries, mnemonic, unit, rpmValues, matches) in {"TEMPERATURE (C)", "TEMPERATURE (F)"}
  {
    ContextMarked(mnemonic, unit);
  }

  /** `map_mnemonic(mnemonic, unit, rpm_values)`: set the `VOLUME` pattern for this unit
      in the shared table, then search it in order. */
  method MapMnemonic(table: PatternTable, mnemonic: string, unit: string, rpmValues: map<string, real>,
                     volume: string -> Option<string>, matches: Matcher) returns (name: string)
    modifies table
    ensures table.entries == Assign(old(table.entries), "VOLUME", volume(unit))
    ensures name == MapSpec(table.entries, mnemonic, unit, rpmValues, matches)
  {
    table.Set("VOLUME", volume(unit));
    var entries := table.entries;
    var i := 0;
    while i < |entries|
      invariant 0 <= i <= |entries|
      invariant PatternHit(entries, mnemonic, matches) == PatternHitFrom(entries, mnemonic, matches, i)
    {
      var (standard, pattern) := entries[i];
      if pattern.Some? && pattern.value != "" && matches(pattern.value, mnemonic) {
        return standard + " (" + unit + ")";
      }
      i := i + 1;
    }
    if Text.Contains(Text.Upper(mnemonic), "RPM") {
      return AnalyzeRpmContext(mnemonic, unit, rpmValues);
    }
    return AnalyzeContext(mnemonic, unit);
  }

  /** `col.split(' (')`: the mnemonic before the first " (", and the unit between it and
      the next " (" with trailing ")" removed; no unit without " (", and none that
      contains "Unnamed". */
  function SplitColumn(col: string): (parts: (string, string))
    ensures !Text.Contains(col, " (") ==> parts == (col, "")
    ensures !Text.Contains(parts.1, "Unnamed")
    ensures Text.Contains(col, " (") ==> |parts.0| < |col|
  {
    var pieces := Text.Split(col, " (");
    var unit :=
      if Text.Contains(col, " (") then
        assert |pieces| >= 2;
        Text.RStripChar(pieces[1], ')')
      else "";
    (pieces[0], if Text.Contains(unit, "Unnamed") then "" else unit)
  }

  /** A column whose mnemonic part contains RPM in any case. */
  predicate IsRpmColumn(col: string) {
    Text.Contains(Text.Upper(SplitColumn(col).0), "RPM")
  }

  /** Some cell of an RPM column is text; pandas' `mean()` refuses such a column. */
  predicate RpmText(f: Frame) {
    exists i, j :: 0 <= i < |f.rows| && 0 <= j < |f.rows[i]| && j < |f.columns| &&
      IsRpmColumn(f.columns[j]) && f.rows[i][j].Str?
  }

  const MeanOfText: string := "TypeError: Could not convert string to numeric"

  /** `{col: df[col].mean() for col in df.columns if 'RPM' in col.split(' (')[0].upper()}`,
      with the means of numeric columns supplied: an RPM column holding text makes
      `mean()` raise TypeError. */
  function RpmValues(f: Frame, mean: string -> real): (r: Result<map<string, real>>)
    ensures r.Err? <==> RpmText(f)
    ensures r.Err? ==> r.error == MeanOfText
    ensures r.Ok? ==> forall col :: col in r.value <==> col in f.columns && IsRpmColumn(col)
  {
    if RpmText(f) then Err(MeanOfText)
    else Ok(map col | col in f.columns && IsRpmColumn(col) :: mean(col))
  }

  /** The new name of one column: it depends on that column, on the set of RPM column
      names and on the table with the `VOLUME` pattern for this column's unit. */
  function StandardName(entries: seq<Entry>, col: string, rpmValues: map<string, real>,
                        volume: string -> Option<string>, matches: Matcher): string
  {
    var (mnemonic, unit) := SplitColumn(col);
    MapSpec(Assign(entries, "VOLUME", volume(unit)), mnemonic, unit, rpmValues, matches)
  }

  /** The new names of all columns, in column order, given the RPM columns. */
  function StandardNames(entries: seq<Entry>, columns: seq<string>, rpmValues: map<string, real>,
                         volume: string -> Option<string>, matches: Matcher): (names: seq<string>)
    ensures |names| == |columns|
  {
    seq(|columns|, k requires 0 <= k < |columns| => StandardName(entries, columns[k], rpmValues, volume, matches))
  }

  /** Entry `k` of `StandardNames` is the new name of column `k`. */
  lemma StandardNameAt(entries: seq<Entry>, columns: seq<string>, rpmValues: map<string, real>,
                       volume: string -> Option<string>, matches: Matcher, k: nat)
    requires k < |columns|
    ensures StandardNames(entries, columns, rpmValues, volume, matches)[k] ==
      StandardName(entries, columns[k], rpmValues, volume, matches)
  {
  }

  /** One step of the renaming loop: `map_mnemonic` on one column, with the table
      holding the configured entries up to the `VOLUME` pattern. */
  method MapColumn(table: PatternTable, ghost start: seq<Entry>, col: string, rpmValues: map<string, real>,
                   volume: string -> Option<string>, matches: Matcher) returns (name: string)
    requires Assign(table.entries, "VOLUME", volume(SplitColumn(col).1)) ==
             Assign(start, "VOLUME", volume(SplitColumn(col).1))
    modifies table
    ensures table.entries == Assign(start, "VOLUME", volume(SplitColumn(col).1))
    ensures name == StandardName(start, col, rpmValues, volume, matches)
  {
    var (mnemonic, unit) := SplitColumn(col);
    name := MapMnemonic(table, mnemonic, unit, rpmValues, volume, matches);
  }

  /** The renaming loop of `standardize_mnemonics`: `map_mnemonic` on every column in
      turn, each call rewriting the `VOLUME` pattern. */
  method MapAll(table: PatternTable, columns: seq<string>, rpmValues: map<string, real>,
                volume: string -> Option<string>, matches: Matcher) returns (newColumns: seq<string>)
    modifies table
    ensures newColumns == StandardNames(old(table.entries), columns, rpmValues, volume, matches)
    ensures columns != [] ==>
      table.entries == Assign(old(table.entries), "VOLUME", volume(SplitColumn(columns[|columns| - 1]).1))
    ensures columns == [] ==> table.entries == old(table.entries)
  {
    ghost var start := table.entries;
    ghost var names := StandardNames(start, columns, rpmValues, volume, matches);
    newColumns := [];
    for j := 0 to |columns|
      invariant newColumns == names[..j]
      invariant j == 0 ==> table.entries == start
      invariant j > 0 ==> table.entries == Assign(start, "VOLUME", volume(SplitColumn(columns[j - 1]).1))
    {
      if j > 0 {
        AssignTwice(start, "VOLUME", volume(SplitColumn(columns[j - 1]).1), volume(SplitColumn(columns[j]).1));
      }
      var name := MapColumn(table, start, columns[j], rpmValues, volume, matches);
      StandardNameAt(start, columns, rpmValues, volume, matches, j);
      assert names[..j + 1] == names[..j] + [names[j]];
      newColumns := newColumns + [name];
    }
    assert names[..|columns|] == names;
  }

  /** `standardize_mnemonics(df)`: the RPM means are taken first, so an RPM column
      holding text raises TypeError before anything is renamed; otherwise every
      column is renamed by `map_mnemonic`, in order, the cells are untouched and the
      shared table is left holding the `VOLUME` pattern of the last column's unit. */
  method StandardizeMnemonics(t: Table, table: PatternTable, mean: string -> real,
                              volume: string -> Option<string>, matches: Matcher)
    returns (error: Option<string>)
    requires t.Valid()
    modifies t, table
    ensures t.Valid() && t.rows == old(t.rows)
    ensures |t.columns| == |old(t.columns)|
    ensures error.Some? <==> RpmText(old(t.Snapshot()))
    ensures error.Some? ==> error.value == MeanOfText
    ensures error.Some? ==> t.columns == old(t.columns) && table.entries == old(table.entries)
    ensures error.None? ==>
      t.columns == StandardNames(old(table.entries), old(t.columns), RpmValues(old(t.Snapshot()), mean).value, volume, matches)
    ensures error.None? && old(t.columns) != [] ==>
      table.entries == Assign(old(table.entries), "VOLUME", volume(SplitColumn(old(t.columns)[|old(t.columns)| - 1]).1))
    ensures error.None? && old(t.columns) == [] ==> table.entries == old(table.entries)
  {
    var rpmValues := RpmValues(t.Snapshot(), mean);
    if rpmValues.Err? {
      return Some(rpmValues.error);
    }
    var columns := t.columns;
    var newColumns := MapAll(table, columns, rpmValues.value, volume, matches);
    t.Relabel(newColumns);
    error := None;
  }
}
