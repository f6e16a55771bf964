/** The older top-level reader. Its header rule numbers repeated names by the
    index of their first occurrence, its well name is the second-to-last
    '.'-separated piece of the path, and its retry loop gives up after the
    first encoding. */
module LegacyFileHandling {
  import opened Wrappers
  import opened Frames
  import Text
  import FileHandling

  // ---------------------------------------------------------------------
  // set_header
  // ---------------------------------------------------------------------

  /** A header name after `.str.strip()`: `None` stands for NaN, which is what
      every cell that is not text becomes. */
  type Name = Option<string>

  const StrAccessor: string := "AttributeError: Can only use .str accessor with string values!"
  const NanPlusText: string := "TypeError: unsupported operand type(s) for +: 'float' and 'str'"

  /** A row of numbers with no text at all is inferred as a numeric series, and
      pandas refuses `.str` on it; a row of only missing cells is still allowed. */
  predicate NoStrAccessor(row: Row) {
    (exists j :: 0 <= j < |row| && row[j].Num?) && forall j :: 0 <= j < |row| ==> !row[j].Str?
  }

  /** `row.str.strip()`: text is stripped, any other cell becomes NaN. */
  function StrippedRow(row: Row): (r: Result<seq<Name>>)
    ensures r.Err? <==> NoStrAccessor(row)
    ensures r.Err? ==> r.error == StrAccessor
    ensures r.Ok? ==> |r.value| == |row|
    ensures r.Ok? ==> forall j :: 0 <= j < |row| ==> (r.value[j].Some? <==> row[j].Str?)
    ensures r.Ok? ==> forall j :: 0 <= j < |row| && row[j].Str? ==> r.value[j] == Some(Text.Strip(row[j].s))
  {
    if NoStrAccessor(row) then Err(StrAccessor)
    else Ok(seq(|row|, j requires 0 <= j < |row| => if row[j].Str? then Some(Text.Strip(row[j].s)) else None))
  }

  /** Row 0 and row 1, stripped and joined by "__"; NaN on either side gives NaN. */
  function LegacyCombined(f: Frame): (r: Result<seq<Name>>)
    requires WellFormed(f) && |f.rows| >= 2
    ensures r.Err? <==> NoStrAccessor(f.rows[0]) || NoStrAccessor(f.rows[1])
    ensures r.Err? ==> r.error == StrAccessor
    ensures r.Ok? ==> |r.value| == |f.columns|
    ensures r.Ok? ==> forall j :: 0 <= j < |r.value| ==>
      (r.value[j].Some? <==> f.rows[0][j].Str? && f.rows[1][j].Str?)
    ensures r.Ok? ==> forall j :: 0 <= j < |r.value| && r.value[j].Some? ==>
      r.value[j].value == Text.Strip(f.rows[0][j].s) + "__" + Text.Strip(f.rows[1][j].s)
    ensures r.Ok? ==> forall j :: 0 <= j < |r.value| && r.value[j].Some? ==> '_' in r.value[j].value
  {
    assert f.rows[0] in f.rows && f.rows[1] in f.rows;
    var top :- StrippedRow(f.rows[0]);
    var bottom :- StrippedRow(f.rows[1]);
    var h := seq(|f.columns|, j requires 0 <= j < |f.columns| =>
      if top[j].Some? && bottom[j].Some? then Some(top[j].value + "__" + bottom[j].value) else None);
    assert forall j :: 0 <= j < |h| && h[j].Some? ==> h[j].value[|top[j].value|] == '_';
    Ok(h)
  }

  /** `list.count`: how many names equal `x`. */
  function Count(h: seq<Name>, x: Name): (n: nat)
    ensures n <= |h|
  {
    if |h| == 0 then 0
    else Count(h[..|h| - 1], x) + (if h[|h| - 1] == x then 1 else 0)
  }

  /** A name is counted exactly when it is there. */
  lemma {:induction false} CountPositive(h: seq<Name>, x: Name)
    ensures Count(h, x) > 0 <==> x in h
    decreases |h|
  {
    if |h| > 0 {
      var init := h[..|h| - 1];
      assert h == init + [h[|h| - 1]];
      CountPositive(init, x);
    }
  }

  /** `list.index`: the position of the first name equal to `x`. */
  function First(h: seq<Name>, x: Name): (i: nat)
    requires x in h
    ensures i < |h| && h[i] == x && x !in h[..i]
  {
    if h[0] == x then 0
    else
      var i := First(h[1..], x);
      assert h[..i + 1] == [h[0]] + h[1..][..i];
      i + 1
  }

  predicate NoRepeats(h: seq<Name>) {
    forall i, j :: 0 <= i < j < |h| ==> h[i] != h[j]
  }

  /** A repeated name `x` becomes `x_<index of its first occurrence>`, the same
      for every copy; a repeated NaN cannot be joined to text and raises TypeError. */
  function LegacyName(h: seq<Name>, i: nat): (r: Result<Name>)
    requires i < |h|
    ensures r.Err? <==> h[i].None? && Count(h, h[i]) != 1
    ensures r.Err? ==> r.error == NanPlusText
    ensures r.Ok? ==> (r.value.None? <==> h[i].None?)
  {
    if Count(h, h[i]) == 1 then Ok(h[i])
    else if h[i].None? then Err(NanPlusText)
    else
      CountPositive(h, h[i]);
      Ok(Some(h[i].value + "_" + Text.NatToString(First(h, h[i]))))
  }

  /** The `apply` over the combined header: one name per column, or the error
      of the first name that cannot be formed. */
  function LegacyHeader(h: seq<Name>): (r: Result<seq<Name>>)
    ensures r.Ok? ==> |r.value| == |h|
    ensures r.Ok? ==> forall i :: 0 <= i < |h| ==> (r.value[i].None? <==> h[i].None?)
    ensures r.Err? ==> r.error == NanPlusText
  {
    AllOk(seq(|h|, i requires 0 <= i < |h| => LegacyName(h, i)))
  }

  /** The header is refused exactly when NaN occurs more than once, and then with TypeError. */
  lemma LegacyHeaderFails(h: seq<Name>)
    ensures LegacyHeader(h).Err? <==> Count(h, None) >= 2
  {
    var names := seq(|h|, i requires 0 <= i < |h| => LegacyName(h, i));
    CountPositive(h, None);
    if Count(h, None) >= 2 {
      var i :| 0 <= i < |h| && h[i] == None;
      assert names[i].Err?;
    }
    if LegacyHeader(h).Err? {
      var i :| 0 <= i < |names| && names[i] == Err(LegacyHeader(h).error);
      assert h[i].None?;
    }
  }

  /** The header is `r` when every name is formed and gives the name in `r`. */
  lemma HeaderOf(h: seq<Name>, r: seq<Name>)
    requires |r| == |h| && forall i :: 0 <= i < |h| ==> LegacyName(h, i) == Ok(r[i])
    ensures LegacyHeader(h) == Ok(r)
  {
    var names := seq(|h|, i requires 0 <= i < |h| => LegacyName(h, i));
    assert forall i :: 0 <= i < |h| ==> names[i] == Ok(r[i]);
    var a := AllOk(names);
    assert a.Ok?;
    assert forall i :: 0 <= i < |r| ==> a.value[i] == r[i];
    assert a.value == r;
  }

  /** The header of two names, both formed. */
  lemma HeaderOfTwo(h: seq<Name>, r: seq<Name>)
    requires |h| == 2 && |r| == 2
    requires LegacyName(h, 0) == Ok(r[0]) && LegacyName(h, 1) == Ok(r[1])
    ensures LegacyHeader(h) == Ok(r)
  {
    forall i | 0 <= i < 2
      ensures LegacyName(h, i) == Ok(r[i])
    {
      if i == 0 {
      } else {
      }
    }
    HeaderOf(h, r);
  }

  /** Every copy of a name receives the same new name. */
  lemma LegacyHeaderKeepsDuplicates(h: seq<Name>, i: nat, j: nat)
    requires i < |h| && j < |h| && LegacyHeader(h).Ok?
    ensures h[i] == h[j] ==> LegacyHeader(h).value[i] == LegacyHeader(h).value[j]
  {
  }

  /** In a header without repeats every name occurs exactly once. */
  lemma {:induction false} OccursOnce(h: seq<Name>, i: nat)
    requires NoRepeats(h) && i < |h|
    ensures Count(h, h[i]) == 1
    decreases |h|
  {
    var init := h[..|h| - 1];
    if i == |h| - 1 {
      assert h[i] !in init;
      CountPositive(init, h[i]);
    } else {
      assert init[i] == h[i];
      OccursOnce(init, i);
    }
  }

  /** The legacy rule does not remove duplicates: when it succeeds, the new
      header has repeats exactly when the combined one had. */
  lemma LegacyDistinctIff(h: seq<Name>)
    requires LegacyHeader(h).Ok?
    ensures NoRepeats(LegacyHeader(h).value) <==> NoRepeats(h)
  {
    var r := LegacyHeader(h).value;
    if NoRepeats(h) {
      forall i | 0 <= i < |h|
        ensures r[i] == h[i]
      {
        OccursOnce(h, i);
      }
    } else {
      var i, j :| 0 <= i < j < |h| && h[i] == h[j];
      LegacyHeaderKeepsDuplicates(h, i, j);
    }
  }

  /** The count in a header of two names. */
  lemma CountPair(a: Name, b: Name, x: Name)
    ensures Count([a, b], x) == (if a == x then 1 else 0) + (if b == x then 1 else 0)
  {
    var h: seq<Name> := [a, b];
    assert h[..1] == [a];
    assert Count([a], x) == (if a == x then 1 else 0) by {
      assert [a][..0] == [];
    }
  }

  /** A name that occurs once is kept. */
  lemma NameKept(h: seq<Name>, i: nat)
    requires i < |h| && Count(h, h[i]) == 1
    ensures LegacyName(h, i) == Ok(h[i])
  {
  }

  /** A text name that occurs more than once is numbered by its first position. */
  lemma NameNumbered(h: seq<Name>, i: nat)
    requires i < |h| && h[i].Some? && Count(h, h[i]) != 1
    ensures h[i] in h
    ensures LegacyName(h, i) == Ok(Some(h[i].value + "_" + Text.NatToString(First(h, h[i]))))
  {
  }

  /** Two copies of a name `x` both become `x_0`. */
  lemma LegacyTwoCopies(x: string)
    ensures LegacyHeader([Some(x), Some(x)]) == Ok([Some(x + "_0"), Some(x + "_0")])
  {
    var h: seq<Name> := [Some(x), Some(x)];
    CountPair(Some(x), Some(x), Some(x));
    assert First(h, Some(x)) == 0;
    assert Text.NatToString(0) == "0";
    assert x + "_" + "0" == x + "_0";
    NameNumbered(h, 0);
    NameNumbered(h, 1);
    HeaderOfTwo(h, [Some(x + "_0"), Some(x + "_0")]);
  }

  /** Two copies of `a` both become `a_0` here, where the newer reader gives `a_1` and `a_2`. */
  lemma LegacyVersusNewer()
    ensures LegacyHeader([Some("a"), Some("a")]) == Ok([Some("a_0"), Some("a_0")])
    ensures FileHandling.UniqueHeader(["a", "a"]) == ["a_1", "a_2"]
  {
    LegacyTwoCopies("a");
    assert "a" + "_0" == "a_0";
    assert Text.NatToString(1) == "1" && Text.NatToString(2) == "2";
    var s := ["a", "a"];
    assert FileHandling.Occurrences(s, "a") == 2;
    assert s[..1] == ["a"] && s[..2] == s;
    assert FileHandling.Rank(s, 0) == 1;
    assert FileHandling.Rank(s, 1) == 2;
    assert FileHandling.NewName(s, 0) == "a_1" && FileHandling.NewName(s, 1) == "a_2";
  }

  /** One NaN name is kept as it is; two of them make the renaming raise TypeError. */
  lemma LegacyNanNames(x: string)
    ensures LegacyHeader([None, Some(x)]) == Ok([None, Some(x)])
    ensures LegacyHeader([None, None, Some(x)]) == Err(NanPlusText)
  {
    NanOnceKept(x);
    NanTwiceRefused(x);
  }

  lemma NanOnceKept(x: string)
    ensures LegacyHeader([None, Some(x)]) == Ok([None, Some(x)])
  {
    var h: seq<Name> := [None, Some(x)];
    CountPair(None, Some(x), None);
    CountPair(None, Some(x), Some(x));
    NameKept(h, 0);
    NameKept(h, 1);
    HeaderOfTwo(h, h);
  }

  lemma NanTwiceRefused(x: string)
    ensures LegacyHeader([None, None, Some(x)]) == Err(NanPlusText)
  {
    var g: seq<Name> := [None, None, Some(x)];
    assert g[..2] == [None, None];
    CountPair(None, None, None);
    assert Count(g, None) == 2;
    LegacyHeaderFails(g);
  }

  /** `file_name.split('.')[-2]` on a path or, failing that, on the object's
      `.name`; an object with neither raises AttributeError. */
  function WellName(src: FileHandling.Source): (r: Result<string>)
    ensures src.Unnamed? ==> r.Err?
  {
    match src
    case Path(p) => SecondToLast(Text.Split(p, "."))
    case Upload(n) => SecondToLast(Text.Split(n, "."))
    case Unnamed => Err("AttributeError: object has no attribute 'name'")
  }

  function SecondToLast(pieces: seq<string>): (r: Result<string>)
    ensures r.Ok? <==> |pieces| >= 2
  {
    if |pieces| < 2 then Err("IndexError: list index out of range") else Ok(pieces[|pieces| - 2])
  }

  /** A path with one dot gives everything before it, directory included. */
  lemma WellNameKeepsDirectory(stem: string, ext: string)
    requires '.' !in stem && '.' !in ext
    ensures WellName(FileHandling.Path(stem + "." + ext)) == Ok(stem)
  {
    Text.SplitOnce(stem, '.', ext);
  }

  /** A path without a dot has no well name: the lookup raises IndexError. */
  lemma WellNameNeedsDot(p: string)
    requires '.' !in p
    ensures WellName(FileHandling.Path(p)).Err?
  {
    Text.SplitAbsent(p, '.');
  }

  /** A header whose text names all contain '_' never holds "well". */
  lemma LegacyWellIsNew(h: seq<Name>)
    requires forall j :: 0 <= j < |h| && h[j].Some? ==> '_' in h[j].value
    requires LegacyHeader(h).Ok?
    ensures Some(FileHandling.WellColumn) !in LegacyHeader(h).value
  {
    var r := LegacyHeader(h).value;
    forall i | 0 <= i < |r| && r[i].Some?
      ensures '_' in r[i].value
    {
      if Count(h, h[i]) != 1 {
        assert r[i].value[|h[i].value|] == '_';
      }
    }
  }

  const OutOfBounds: string := "IndexError: single positional indexer is out-of-bounds"

  /** A frame as the legacy reader leaves it: its column names may be NaN. */
  datatype LegacyFrame = LegacyFrame(columns: seq<Name>, rows: seq<Row>)

  predicate LegacyWellFormed(g: LegacyFrame) {
    forall r | r in g.rows :: |r| == |g.columns|
  }

  /** The renamed header plus `well`, over the rows after the first two, each tagged with the well name. */
  function Tagged(f: Frame, h: seq<Name>, well: string): (g: LegacyFrame)
    requires WellFormed(f) && |f.rows| >= 2 && |h| == |f.columns|
    requires Some(FileHandling.WellColumn) !in h
    ensures LegacyWellFormed(g)
    ensures g.columns == h + [Some(FileHandling.WellColumn)]
    ensures Some(FileHandling.WellColumn) !in g.columns[..|g.columns| - 1]
    ensures |g.rows| == |f.rows| - 2
    ensures forall i :: 0 <= i < |g.rows| ==> g.rows[i] == f.rows[i + 2] + [Str(well)]
  {
    assert forall i :: 2 <= i < |f.rows| ==> f.rows[i] in f.rows;
    var rows := seq(|f.rows| - 2, i requires 0 <= i < |f.rows| - 2 => f.rows[i + 2] + [Str(well)]);
    var columns := h + [Some(FileHandling.WellColumn)];
    assert columns[..|columns| - 1] == h;
    LegacyFrame(columns, rows)
  }

  /** Legacy `set_header`, evaluated left to right: no row fails on `iloc[0]`, a
      row 0 without text on its `.str`, a missing row 1 on `iloc[1]`, a row 1
      without text on its `.str`, a repeated NaN name on the renaming, and a
      missing well name on its lookup; otherwise the renamed header, the first
      two rows dropped, and the well name from the path in a new `well` column. */
  function LegacySetHeader(f: Frame, src: FileHandling.Source): (r: Result<LegacyFrame>)
    requires WellFormed(f)
    ensures |f.rows| == 0 ==> r == Err(OutOfBounds)
    ensures |f.rows| > 0 && NoStrAccessor(f.rows[0]) ==> r == Err(StrAccessor)
    ensures |f.rows| == 1 && !NoStrAccessor(f.rows[0]) ==> r == Err(OutOfBounds)
    ensures |f.rows| >= 2 && LegacyCombined(f).Err? ==> r == Err(StrAccessor)
    ensures (|f.rows| >= 2 && LegacyCombined(f).Ok? && LegacyHeader(LegacyCombined(f).value).Err?) ==>
      r == Err(NanPlusText)
    ensures (|f.rows| >= 2 && LegacyCombined(f).Ok? && LegacyHeader(LegacyCombined(f).value).Ok? &&
      WellName(src).Err?) ==> r == Err(WellName(src).error)
    ensures r.Ok? <==> (|f.rows| >= 2 && LegacyCombined(f).Ok? &&
      LegacyHeader(LegacyCombined(f).value).Ok? && WellName(src).Ok?)
    ensures r.Ok? ==> LegacyWellFormed(r.value)
    ensures r.Ok? ==> r.value.columns == LegacyHeader(LegacyCombined(f).value).value + [Some(FileHandling.WellColumn)]
    ensures r.Ok? ==> Some(FileHandling.WellColumn) !in r.value.columns[..|r.value.columns| - 1]
    ensures r.Ok? ==> |r.value.rows| == |f.rows| - 2
    ensures r.Ok? ==> forall i :: 0 <= i < |r.value.rows| ==>
      r.value.rows[i] == f.rows[i + 2] + [Str(WellName(src).value)]
  {
    if |f.rows| == 0 then Err(OutOfBounds)
    else if NoStrAccessor(f.rows[0]) then Err(StrAccessor)
    else if |f.rows| == 1 then Err(OutOfBounds)
    else if LegacyCombined(f).Err? then Err(StrAccessor)
    else if LegacyHeader(LegacyCombined(f).value).Err? then Err(NanPlusText)
    else if WellName(src).Err? then Err(WellName(src).error)
    else
      LegacyWellIsNew(LegacyCombined(f).value);
      Ok(Tagged(f, LegacyHeader(LegacyCombined(f).value).value, WellName(src).value))
  }

  /** A first row of numbers without any text fails on `.str` before anything
      else is looked at, even when there is no second row. */
  lemma LegacyNumberRow(f: Frame, src: FileHandling.Source)
    requires WellFormed(f) && |f.rows| >= 1 && |f.columns| > 0
    requires forall j :: 0 <= j < |f.columns| ==> f.rows[0][j].Num?
    ensures LegacySetHeader(f, src) == Err(StrAccessor)
  {
    assert f.rows[0] in f.rows;
    assert NoStrAccessor(f.rows[0]) by {
      assert f.rows[0][0].Num?;
    }
  }

  // ---------------------------------------------------------------------
  // read_file
  // ---------------------------------------------------------------------

  /** After one attempt: return (a frame or an exception that is not caught), or
      go on with the last UnicodeDecodeError and the last EmptyDataError. */
  datatype Progress =
    | Returned(result: Result<LegacyFrame>)
    | Going(lastUnicode: Option<FileHandling.Exception>, lastEmpty: Option<FileHandling.Exception>)

  function Raise(e: FileHandling.Exception): Result<LegacyFrame> {
    Err(e.kind + ": " + e.message)
  }

  /** One pass of the inner loop body: only UnicodeDecodeError and EmptyDataError are caught. */
  function LegacyStep(src: FileHandling.Source, a: FileHandling.Attempt,
                      lastUnicode: Option<FileHandling.Exception>, lastEmpty: Option<FileHandling.Exception>): (p: Progress)
    requires a.Parsed? ==> WellFormed(a.frame)
    ensures p.Going? ==> p.lastUnicode.Some? || p.lastEmpty.Some?
  {
    match a
    case Parsed(df) => Returned(LegacySetHeader(df, src))
    case Raised(e) =>
      if e.kind == "UnicodeDecodeError" then Going(Some(e), lastEmpty)
      else if e.kind == "EmptyDataError" then Going(lastUnicode, Some(e))
      else Returned(Raise(e))
  }

  /** The inner loop over the remaining delimiters under one encoding. */
  function LegacyDelimiters(src: FileHandling.Source, read: FileHandling.Reader, encoding: string, ds: seq<string>,
                            lastUnicode: Option<FileHandling.Exception>, lastEmpty: Option<FileHandling.Exception>): (p: Progress)
    requires FileHandling.ReadsWellFormed(read)
    ensures |ds| > 0 && p.Going? ==> p.lastUnicode.Some? || p.lastEmpty.Some?
    decreases |ds|
  {
    if |ds| == 0 then Going(lastUnicode, lastEmpty)
    else match LegacyStep(src, read(encoding, Some(ds[0])), lastUnicode, lastEmpty)
      case Returned(r) => Returned(r)
      case Going(u, e) => LegacyDelimiters(src, read, encoding, ds[1..], u, e)
  }

  /** What ends the inner loop when no delimiter worked: the last EmptyDataError
      if there is one, else the last UnicodeDecodeError, else try the next encoding. */
  function AfterDelimiters(p: Progress): Option<Result<LegacyFrame>> {
    match p
    case Returned(r) => Some(r)
    case Going(u, e) =>
      if e.Some? then Some(Raise(e.value))
      else if u.Some? then Some(Raise(u.value))
      else None
  }

  /** The outer loop over the remaining encodings. */
  function LegacyEncodings(src: FileHandling.Source, read: FileHandling.Reader, es: seq<string>,
                           lastUnicode: Option<FileHandling.Exception>, lastEmpty: Option<FileHandling.Exception>): Result<LegacyFrame>
    requires FileHandling.ReadsWellFormed(read)
    decreases |es|
  {
    if |es| == 0 then
      if lastEmpty.Some? then Raise(lastEmpty.value)
      else if lastUnicode.Some? then Raise(lastUnicode.value)
      else Err("TypeError: exceptions must derive from BaseException")
    else
      var p := LegacyDelimiters(src, read, es[0], FileHandling.Delimiters, lastUnicode, lastEmpty);
      match AfterDelimiters(p)
      case Some(r) => r
      case None => LegacyEncodings(src, read, es[1..], p.lastUnicode, p.lastEmpty)
  }

  /** Legacy `read_file`: an unknown type fails with KeyError on the first
      lookup of its reader; otherwise the nested loops above. */
  function LegacyReadSpec(fileType: string, src: FileHandling.Source, read: FileHandling.Reader): (r: Result<LegacyFrame>)
    requires FileHandling.ReadsWellFormed(read)
    ensures fileType !in FileHandling.FileTypes ==> r == Err("KeyError: '" + fileType + "'")
  {
    if fileType !in FileHandling.FileTypes then Err("KeyError: '" + fileType + "'")
    else LegacyEncodings(src, read, FileHandling.Encodings, None, None)
  }

  /** Legacy `read_file`. After the delimiter loop of the first encoding one of
      the two remembered exceptions is always set and is raised, so the loop over
      encodings never reaches its second encoding; the method runs that first
      pass only (see `OnlyFirstEncoding` for the loop as written). */
  method LegacyReadFile(fileType: string, src: FileHandling.Source, read: FileHandling.Reader) returns (r: Result<LegacyFrame>)
    requires FileHandling.ReadsWellFormed(read)
    ensures r == LegacyReadSpec(fileType, src, read)
  {
    if fileType !in FileHandling.FileTypes {
      return Err("KeyError: '" + fileType + "'");
    }
    var encoding := FileHandling.Encodings[0];
    var lastUnicode: Option<FileHandling.Exception> := None;
    var lastEmpty: Option<FileHandling.Exception> := None;
    var ds := FileHandling.Delimiters;
    var j := 0;
    while j < |ds|
      invariant 0 <= j <= |ds|
      invariant LegacyDelimiters(src, read, encoding, ds[j..], lastUnicode, lastEmpty) ==
        LegacyDelimiters(src, read, encoding, ds, None, None)
    {
      assert ds[j..][1..] == ds[j + 1..];
      var p := LegacyStep(src, read(encoding, Some(ds[j])), lastUnicode, lastEmpty);
      if p.Returned? {
        return p.result;
      }
      lastUnicode, lastEmpty := p.lastUnicode, p.lastEmpty;
      j := j + 1;
    }
    if lastEmpty.Some? {
      r := Raise(lastEmpty.value);
    } else {
      r := Raise(lastUnicode.value);
    }
  }

  /** The inner loop under one encoding depends only on that encoding's reads. */
  lemma {:induction false} DelimitersOnlyRead(src: FileHandling.Source, read: FileHandling.Reader, other: FileHandling.Reader,
                                              encoding: string, ds: seq<string>,
                                              u: Option<FileHandling.Exception>, e: Option<FileHandling.Exception>)
    requires FileHandling.ReadsWellFormed(read) && FileHandling.ReadsWellFormed(other)
    requires forall d :: read(encoding, d) == other(encoding, d)
    ensures LegacyDelimiters(src, read, encoding, ds, u, e) == LegacyDelimiters(src, other, encoding, ds, u, e)
    decreases |ds|
  {
    if |ds| > 0 {
      var p := LegacyStep(src, read(encoding, Some(ds[0])), u, e);
      if p.Going? {
        DelimitersOnlyRead(src, read, other, encoding, ds[1..], p.lastUnicode, p.lastEmpty);
      }
    }
  }

  /** The other encodings are never tried: two readers that agree under utf-8
      give the same outcome. */
  lemma OnlyFirstEncoding(fileType: string, src: FileHandling.Source, read: FileHandling.Reader, other: FileHandling.Reader)
    requires FileHandling.ReadsWellFormed(read) && FileHandling.ReadsWellFormed(other)
    requires forall d :: read("utf-8", d) == other("utf-8", d)
    ensures LegacyReadSpec(fileType, src, read) == LegacyReadSpec(fileType, src, other)
  {
    DelimitersOnlyRead(src, read, other, "utf-8", FileHandling.Delimiters, None, None);
  }
}
