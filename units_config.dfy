/** The unit vocabulary: the standard-unit table with its accepted spellings, the
    converters between units, and the table of conversions to apply. */
module UnitsConfig {
  import opened Wrappers
  import opened Frames
  import Text

  /** One row of the standard-unit table: the standard unit and the spellings its
      anchored, case-insensitive alternation accepts, written in lower case. */
  type UnitPattern = (string, set<string>)

  /** `unit_patterns`, in insertion order. `^(a|b|c)$` with IGNORECASE accepts exactly
      the texts whose lower-case form is one of the alternatives. */
  const UnitPatterns: seq<UnitPattern> := [
    ("ft", {"feet", "foot", "ft", "f"}),
    ("m", {"meters", "meter", "m"}),
    ("in", {"inches", "inch", "in"}),
    ("mm", {"millimeters", "millimeter", "mm"}),
    ("klbs", {"klbs", "kilopounds", "kips"}),
    ("tf", {"tonsforce", "tf"}),
    ("kN", {"kilonewton", "kn"}),
    ("lbf", {"poundsforce", "lbf"}),
    ("kgf", {"kilogramforce", "kgf"}),
    ("psi", {"psi", "poundpersquareinch"}),
    ("kPa", {"kilopascal", "kpa"}),
    ("MPa", {"megapascal", "mpa"}),
    ("bar", {"bar"}),
    ("bbl", {"barrels", "bbl"}),
    ("L", {"liters", "liter", "l"}),
    ("gal", {"gallons", "gallon", "gal"}),
    ("m3", {"cubicmeters", "cubicmeter", "m3"}),
    ("ft3", {"cubicfeet", "cubicfoot", "ft3"}),
    ("gpm", {"gallonsperminute", "gpm"}),
    ("l/m", {"litersperminute", "l/m", "lpm"}),
    ("l/s", {"literspersecond", "l/s", "lps"}),
    ("m3/h", {"cubicmetersperhour", "m3/h"}),
    ("ft3/h", {"cubicfeetperhour", "ft3/h"}),
    ("ppg", {"poundspergallon", "ppg"}),
    ("sg", {"specificgravity", "sg"}),
    ("kg/m3", {"kilogramspercubicmeter", "kg/m3"}),
    ("C", {"celsius", "c", "centigrade", "degc"}),
    ("F", {"fahrenheit", "f", "degf"})
  ]

  /** `re.match(pattern, unit, re.IGNORECASE)` for one of the anchored alternations. */
  predicate Accepts(p: UnitPattern, unit: string) {
    Text.Lower(unit) in p.1
  }

  /** The arithmetic a converter applies to a number: a scale factor, or the
      Celsius-to-Fahrenheit affine map. */
  datatype Conversion = Scale(factor: real) | CelsiusToFahrenheit

  function Converted(c: Conversion, x: real): real {
    match c
    case Scale(k) => x * k
    case CelsiusToFahrenheit => x * 9.0 / 5.0 + 32.0
  }

  const FeetToMeters: Conversion := Scale(0.3048)
  const TfToKlbs: Conversion := Scale(2.20462)
  const KnToKlbs: Conversion := Scale(0.000225)
  const FtPerHourToMPerHour: Conversion := Scale(0.3048)
  const KnmToKlbfFt: Conversion := Scale(0.737562)
  const KpaToPsi: Conversion := Scale(0.145038)
  const MpaToPsi: Conversion := Scale(145.038)
  const BarToPsi: Conversion := Scale(14.5038)
  const BblToGal: Conversion := Scale(42.0)
  const LToGal: Conversion := Scale(0.264172)
  const M3ToGal: Conversion := Scale(264.172)
  const M3PerHToGpm: Conversion := Scale(4.40287)
  const Ft3PerHToGpm: Conversion := Scale(0.124676)
  const CToF: Conversion := CelsiusToFahrenheit
  const LpmToGpm: Conversion := Scale(0.264172)
  const LpsToGpm: Conversion := Scale(60.0 * 0.264172)
  const SgToPpg: Conversion := Scale(8.345404)

  /** `float(value)`: a number is itself, a text is parsed (`parse` stands for Python's
      float syntax), a missing cell is NaN and stays missing. */
  function ToFloat(value: Cell, parse: string -> Option<real>): (r: Option<real>)
    ensures value.Num? ==> r == Some(value.v)
    ensures value.Missing? ==> r.None?
  {
    match value
    case Num(v) => Some(v)
    case Str(s) => parse(s)
    case Missing => None
  }

  /** `safe_convert(value, conversion_func)`: the converted number, or None for a value
      that `float()` rejects. */
  function SafeConvert(value: Cell, c: Conversion, parse: string -> Option<real>): (r: Option<real>)
    ensures r.Some? <==> ToFloat(value, parse).Some?
    ensures r.Some? ==> r.value == Converted(c, ToFloat(value, parse).value)
  {
    match ToFloat(value, parse)
    case None => None
    case Some(x) => Some(Converted(c, x))
  }

  /** The converter as a column sees it through `Series.apply`: None becomes a missing cell. */
  function ConvertCell(value: Cell, c: Conversion, parse: string -> Option<real>): (d: Cell)
    ensures d.Missing? || d.Num?
    ensures d.Num? <==> ToFloat(value, parse).Some?
  {
    match SafeConvert(value, c, parse)
    case None => Missing
    case Some(x) => Num(x)
  }

  /** A value `float()` rejects converts to None under every converter. */
  lemma RejectedIsNone(value: Cell, c: Conversion, parse: string -> Option<real>)
    requires value.Missing? || (value.Str? && parse(value.s).None?)
    ensures SafeConvert(value, c, parse) == None
    ensures ConvertCell(value, c, parse) == Missing
  {
  }

  /** `C_to_F`: x * 9 / 5 + 32, so 0 C is 32 F and 100 C is 212 F. */
  lemma CelsiusToFahrenheitValues(x: real)
    ensures Converted(CToF, x) == x * 1.8 + 32.0
    ensures Converted(CToF, 0.0) == 32.0 && Converted(CToF, 100.0) == 212.0
    ensures Converted(CToF, -40.0) == -40.0
  {
  }

  /** Liters per second are sixty times liters per minute. */
  lemma LpsIsSixtyLpm(x: real)
    ensures Converted(LpsToGpm, x) == 60.0 * Converted(LpmToGpm, x)
  {
  }

  /** A cubic meter is a thousand liters. */
  lemma M3IsThousandLiters(x: real)
    ensures Converted(M3ToGal, x) == 1000.0 * Converted(LToGal, x)
  {
  }

  /** The conversions to apply: source unit, converter, target unit, in insertion order. */
  const UnitConversionMappings: seq<(string, (Conversion, string))> := [
    ("ft", (FeetToMeters, "m")),
    ("tf", (TfToKlbs, "klbs")),
    ("kN", (KnToKlbs, "klbs")),
    ("ft/h", (FtPerHourToMPerHour, "m/h")),
    ("kN.m", (KnmToKlbfFt, "kLbf.ft")),
    ("kPa", (KpaToPsi, "psi")),
    ("MPa", (MpaToPsi, "psi")),
    ("bar", (BarToPsi, "psi")),
    ("bbl", (BblToGal, "gal")),
    ("L", (LToGal, "gal")),
    ("m3", (M3ToGal, "gal")),
    ("m3/h", (M3PerHToGpm, "gpm")),
    ("ft3/h", (Ft3PerHToGpm, "gpm")),
    ("C", (CToF, "F")),
    ("l/m", (LpmToGpm, "gpm")),
    ("l/s", (LpsToGpm, "gpm")),
    ("sg", (SgToPpg, "ppg"))
  ]

  /** Every converter of the table except Celsius-to-Fahrenheit is a positive scale. */
  lemma ConvertersArePositiveScales(i: nat)
    requires i < |UnitConversionMappings|
    ensures UnitConversionMappings[i].1.0 != CToF ==>
      UnitConversionMappings[i].1.0.Scale? && UnitConversionMappings[i].1.0.factor > 0.0
  {
  }

  /** A positive scale maps 0 to 0 and keeps the order of values strictly. */
  lemma PositiveScaleKeepsOrder(c: Conversion, x: real, y: real)
    requires c.Scale? && c.factor > 0.0
    ensures Converted(c, 0.0) == 0.0
    ensures x < y <==> Converted(c, x) < Converted(c, y)
  {
    if x < y {
      ScaleStrictlyMonotone(c.factor, x, y);
    } else {
      ScaleMonotone(c.factor, y, x);
    }
  }

  lemma ScaleStrictlyMonotone(k: real, x: real, y: real)
    requires k > 0.0 && x < y
    ensures x * k < y * k
  {
    assert y * k - x * k == (y - x) * k;
  }

  lemma ScaleMonotone(k: real, x: real, y: real)
    requires k > 0.0 && x <= y
    ensures x * k <= y * k
  {
    assert y * k - x * k == (y - x) * k;
  }

  /** Celsius-to-Fahrenheit keeps the order of values strictly too, but moves 0. */
  lemma CelsiusKeepsOrder(x: real, y: real)
    ensures x < y <==> Converted(CToF, x) < Converted(CToF, y)
    ensures Converted(CToF, 0.0) != 0.0
  {
  }

  /** The source units of the table, each lower-cased as `standardize_units` keys them. */
  function LoweredKeys(m: seq<(string, (Conversion, string))>): (keys: seq<string>)
    ensures |keys| == |m|
  {
    seq(|m|, i requires 0 <= i < |m| => Text.Lower(m[i].0))
  }

  lemma LoweredKeysAppend(a: seq<(string, (Conversion, string))>, b: seq<(string, (Conversion, string))>)
    ensures LoweredKeys(a + b) == LoweredKeys(a) + LoweredKeys(b)
  {
  }

  /** The lower-cased source units of the table. */
  const LoweredSources: seq<string> :=
    ["ft", "tf", "kn", "ft/h", "kn.m", "kpa", "mpa", "bar", "bbl", "l", "m3", "m3/h",
     "ft3/h", "c", "l/m", "l/s", "sg"]

  lemma LoweredHead()
    ensures LoweredKeys(UnitConversionMappings[..6]) == LoweredSources[..6]
  {
    var m := UnitConversionMappings[..6];
    forall i | 0 <= i < 6 ensures Text.Lower(m[i].0) == LoweredSources[i] {
      if !(i in {2, 4, 5}) {
        Text.LowerOfLower(m[i].0);
      }
    }
  }

  lemma LoweredMiddle()
    ensures LoweredKeys(UnitConversionMappings[6..12]) == LoweredSources[6..12]
  {
    var m := UnitConversionMappings[6..12];
    forall i | 0 <= i < 6 ensures Text.Lower(m[i].0) == LoweredSources[6 + i] {
      if !(i in {0, 3}) {
        Text.LowerOfLower(m[i].0);
      }
    }
  }

  lemma LoweredTail()
    ensures LoweredKeys(UnitConversionMappings[12..]) == LoweredSources[12..]
  {
    var m := UnitConversionMappings[12..];
    forall i | 0 <= i < 5 ensures Text.Lower(m[i].0) == LoweredSources[12 + i] {
      if i != 1 {
        Text.LowerOfLower(m[i].0);
      }
    }
  }

  /** The lower-cased source units of the table, spelled out. */
  lemma LoweredSourceUnits()
    ensures LoweredKeys(UnitConversionMappings) == LoweredSources
  {
    var m := UnitConversionMappings;
    LoweredHead();
    LoweredMiddle();
    LoweredTail();
    assert m == m[..6] + m[6..12] + m[12..];
    LoweredKeysAppend(m[..6] + m[6..12], m[12..]);
    LoweredKeysAppend(m[..6], m[6..12]);
    assert LoweredSources == LoweredSources[..6] + LoweredSources[6..12] + LoweredSources[12..];
  }

  /** No two entries of the table share a lower-cased source unit, so none is shadowed
      by a later one. */
  lemma SourcesDistinct()
    ensures forall i, j :: 0 <= i < j < |UnitConversionMappings| ==>
      Text.Lower(UnitConversionMappings[i].0) != Text.Lower(UnitConversionMappings[j].0)
  {
    LoweredSourceUnits();
    var m := UnitConversionMappings;
    assert forall i :: 0 <= i < |m| ==> Text.Lower(m[i].0) == LoweredSources[i];
    assert forall i, j :: 0 <= i < j < |LoweredSources| ==> LoweredSources[i] != LoweredSources[j];
  }

  /** The target units of the table, and their lower-cased forms, spelled out. */
  lemma TargetUnits()
    ensures forall i :: 0 <= i < |UnitConversionMappings| ==>
      UnitConversionMappings[i].1.1 in TargetNames &&
      Text.Lower(UnitConversionMappings[i].1.1) in LoweredTargets
  {
    var m := UnitConversionMappings;
    forall i | 0 <= i < |m|
      ensures Text.Lower(m[i].1.1) in LoweredTargets
    {
      if i == 4 {
        assert Text.Lower(m[i].1.1) == "klbf.ft";
      } else if i == 13 {
        assert Text.Lower(m[i].1.1) == "f";
      } else {
        Text.LowerOfLower(m[i].1.1);
      }
    }
  }

  /** The target units of the table, and their lower-cased forms. */
  const TargetNames: seq<string> := ["m", "klbs", "m/h", "kLbf.ft", "psi", "gal", "gpm", "F", "ppg"]
  const LoweredTargets: seq<string> := ["m", "klbs", "m/h", "klbf.ft", "psi", "gal", "gpm", "f", "ppg"]

  lemma TargetsOutsideSources()
    ensures forall t :: t in TargetNames ==> t !in LoweredSources
    ensures forall t :: t in LoweredTargets ==> t !in LoweredSources
  {
  }

  /** No target unit is itself a (lower-cased) source unit of the table, so a column
      the table has converted is not converted again by the table's own key. */
  lemma TargetsAreNotSources()
    ensures forall i :: 0 <= i < |UnitConversionMappings| ==>
      UnitConversionMappings[i].1.1 !in LoweredKeys(UnitConversionMappings) &&
      Text.Lower(UnitConversionMappings[i].1.1) !in LoweredKeys(UnitConversionMappings)
  {
    LoweredSourceUnits();
    TargetUnits();
    TargetsOutsideSources();
  }
}
