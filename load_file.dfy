/** Loading a two-row-header file and merging each header with its unit into one
    "Header (unit)" column name. */
module LoadFile {
  import opened Wrappers
  import opened Frames
  import Text
  import SaveFile

  /** The pandas reader a file name selects. */
  datatype Format = Csv | Excel | Tab

  /** The text encoding a read is attempted with. */
  datatype Encoding = Default | Latin1

  /** A file as pandas reads it with `header=[0, 1]`: a (header, unit) pair per column. */
  datatype Loaded = Loaded(columns: seq<(string, string)>, rows: seq<Row>)

  /** The outcome of one pandas read. */
  datatype Attempt = Read(data: Loaded) | DecodeError | Failed

  /** The pandas readers, given the format and the encoding. */
  type Reader = (Format, Encoding) -> Attempt

  /** The extension test of `load_file_into_dataframe`: a case-sensitive suffix match,
      `.csv` first, then `.xlsx` or `.xls`, then `.txt`. */
  function Dispatch(path: string): (r: Option<Format>)
    ensures r.None? <==>
      !Text.EndsWith(path, ".csv") && !Text.EndsWith(path, ".xlsx") &&
      !Text.EndsWith(path, ".xls") && !Text.EndsWith(path, ".txt")
    ensures r == Some(Csv) <==> Text.EndsWith(path, ".csv")
  {
    if Text.EndsWith(path, ".csv") then Some(Csv)
    else if Text.EndsWith(path, ".xlsx") || Text.EndsWith(path, ".xls") then Some(Excel)
    else if Text.EndsWith(path, ".txt") then Some(Tab)
    else None
  }

  /** Every supported extension selects its reader, whatever precedes it. */
  lemma DispatchBySuffix(stem: string)
    ensures Dispatch(stem + ".csv") == Some(Csv)
    ensures Dispatch(stem + ".xlsx") == Some(Excel)
    ensures Dispatch(stem + ".xls") == Some(Excel)
    ensures Dispatch(stem + ".txt") == Some(Tab)
  {
    assert (stem + ".csv")[|stem|..] == ".csv";
    assert (stem + ".xlsx")[|stem| + 1..] == "xlsx";
    assert (stem + ".xlsx")[|stem|..] == ".xlsx";
    assert (stem + ".xls")[|stem| - 1 + 1..] == ".xls";
    assert (stem + ".txt")[|stem|..] == ".txt";
    assert (stem + ".txt")[|stem| + 1..] == "txt";
  }

  /** The match is case-sensitive: an upper-case extension is not supported. */
  lemma UpperCaseExtensionUnsupported()
    ensures Dispatch("data.CSV") == None
    ensures Dispatch("log.TXT") == None
  {
    assert "data.CSV"[4..] == ".CSV";
    assert "log.TXT"[3..] == ".TXT";
  }

  /** `load_file_into_dataframe(file_path)`: an unsupported name gives None without any
      read; a read that fails to decode is retried once as CSV in latin1, whatever the
      extension; any other failure gives None. */
  function LoadFileIntoDataframe(path: string, read: Reader): (r: Option<Loaded>)
    ensures Dispatch(path).None? ==> r.None?
    ensures r.Some? ==>
      read(Dispatch(path).value, Default) == Read(r.value) ||
      (read(Dispatch(path).value, Default) == DecodeError && read(Csv, Latin1) == Read(r.value))
  {
    match Dispatch(path)
    case None => None
    case Some(format) =>
      match read(format, Default)
      case Read(data) => Some(data)
      case Failed => None
      case DecodeError =>
        match read(Csv, Latin1)
        case Read(data) => Some(data)
        case _ => None
  }

  /** An unsupported file name is refused before any read: the readers do not matter. */
  lemma UnsupportedNeverRead(path: string, read: Reader, other: Reader)
    requires Dispatch(path).None?
    ensures LoadFileIntoDataframe(path, read) == LoadFileIntoDataframe(path, other) == None
  {
  }

  /** A first read that succeeds is the result, and the latin1 retry is never consulted:
      readers that agree on the first read give the same outcome. */
  lemma FirstReadWins(path: string, read: Reader, other: Reader)
    requires Dispatch(path).Some?
    requires read(Dispatch(path).value, Default).Read?
    requires other(Dispatch(path).value, Default) == read(Dispatch(path).value, Default)
    ensures LoadFileIntoDataframe(path, read) == LoadFileIntoDataframe(path, other) ==
      Some(read(Dispatch(path).value, Default).data)
  {
  }

  /** After a decoding failure the outcome is the latin1 CSV read, for every extension. */
  lemma DecodeErrorRetriesCsv(path: string, read: Reader)
    requires Dispatch(path).Some? && read(Dispatch(path).value, Default) == DecodeError
    ensures read(Csv, Latin1).Read? ==> LoadFileIntoDataframe(path, read) == Some(read(Csv, Latin1).data)
    ensures !read(Csv, Latin1).Read? ==> LoadFileIntoDataframe(path, read) == None
  {
  }

  /** `f"{header.strip()} ({unit.strip()})"`. */
  function Merged(header: string, unit: string): string {
    Text.Strip(header) + " (" + Text.Strip(unit) + ")"
  }

  /** The merged name of every column, in column order. */
  function MergeHeaders(columns: seq<(string, string)>): (names: seq<string>)
    ensures |names| == |columns|
  {
    seq(|columns|, k requires 0 <= k < |columns| => Merged(columns[k].0, columns[k].1))
  }

  /** Entry `k` of `MergeHeaders` merges the header and unit of column `k`. */
  lemma MergedAt(columns: seq<(string, string)>, k: nat)
    requires k < |columns|
    ensures MergeHeaders(columns)[k] == Merged(columns[k].0, columns[k].1)
  {
  }

  /** The header part of a merged name is the stripped header when the header has no "(". */
  lemma MergedHeader(header: string, unit: string)
    requires '(' !in header && '(' !in unit && ')' !in unit
    ensures Text.Split(Merged(header, unit), "(") == [Text.Strip(header) + " ", Text.Strip(unit) + ")"]
    ensures SaveFile.HeaderOf(Merged(header, unit)) == Text.Strip(header)
  {
    var h := Text.Strip(header);
    var u := Text.Strip(unit);
    Text.StripKeepsChars(header, '(');
    Text.StripKeepsChars(unit, '(');
    Text.StripIsStripped(header);
    var front := h + " ";
    var back := u + ")";
    assert Merged(header, unit) == front + ['('] + back;
    assert '(' !in front && '(' !in back;
    Text.SplitOnce(front, '(', back);
    Text.StripTrailingBlank(h);
  }

  /** The unit part of a merged name is the stripped unit when the unit has no parentheses. */
  lemma MergedUnit(header: string, unit: string)
    requires '(' !in header && '(' !in unit && ')' !in unit
    ensures SaveFile.UnitOf(Merged(header, unit)) == Text.Strip(unit)
  {
    var u := Text.Strip(unit);
    MergedHeader(header, unit);
    Text.StripKeepsChars(unit, ')');
    Text.StripIsStripped(unit);
    var back := u + ")";
    assert '(' in Merged(header, unit) && ')' in Merged(header, unit) by {
      assert Merged(header, unit) == Text.Strip(header) + " " + ['('] + back;
      assert back[|u|] == ')';
    }
    assert back == u + [')'] + "";
    Text.SplitOnce(u, ')', "");
    Text.StripOfStripped(u);
  }

  /** A header without "(" and a unit without "(" or ")" survive the merge: splitting
      the merged name as the save path does gives back the stripped header and unit,
      and a header and unit that were already stripped exactly. */
  lemma MergedRoundTrip(header: string, unit: string)
    requires '(' !in header && '(' !in unit && ')' !in unit
    ensures SaveFile.HeaderOf(Merged(header, unit)) == Text.Strip(header)
    ensures SaveFile.UnitOf(Merged(header, unit)) == Text.Strip(unit)
    ensures Text.IsStripped(header) && Text.IsStripped(unit) ==>
      SaveFile.HeaderOf(Merged(header, unit)) == header && SaveFile.UnitOf(Merged(header, unit)) == unit
  {
    MergedHeader(header, unit);
    MergedUnit(header, unit);
    if Text.IsStripped(header) && Text.IsStripped(unit) {
      Text.StripOfStripped(header);
      Text.StripOfStripped(unit);
    }
  }

  /** Over a whole file: merging on load and splitting on save give back every stripped
      header and unit, in column order. */
  lemma MergeThenSplit(columns: seq<(string, string)>)
    requires forall k :: 0 <= k < |columns| ==>
      '(' !in columns[k].0 && '(' !in columns[k].1 && ')' !in columns[k].1
    ensures forall k :: 0 <= k < |columns| ==>
      SaveFile.Headers(MergeHeaders(columns))[k] == Text.Strip(columns[k].0) &&
      SaveFile.Units(MergeHeaders(columns))[k] == Text.Strip(columns[k].1)
  {
    var names := MergeHeaders(columns);
    forall k | 0 <= k < |columns|
      ensures SaveFile.Headers(names)[k] == Text.Strip(columns[k].0)
      ensures SaveFile.Units(names)[k] == Text.Strip(columns[k].1)
    {
      MergedAt(columns, k);
      SaveFile.HeaderAt(names, k);
      SaveFile.UnitAt(names, k);
      MergedRoundTrip(columns[k].0, columns[k].1);
    }
  }

  /** `load_file_and_merge_headers(file_path)`: the loaded rows under the merged column
      names. A file that did not load fails at `data.head()`. */
  function LoadFileAndMergeHeaders(path: string, read: Reader): (r: Result<Frame>)
    ensures r.Ok? <==> LoadFileIntoDataframe(path, read).Some?
    ensures r.Ok? ==>
      var data := LoadFileIntoDataframe(path, read).value;
      r.value.rows == data.rows && |r.value.columns| == |data.columns| &&
      forall k :: 0 <= k < |data.columns| ==> r.value.columns[k] == Merged(data.columns[k].0, data.columns[k].1)
  {
    match LoadFileIntoDataframe(path, read)
    case None => Err("AttributeError: 'NoneType' object has no attribute 'head'")
    case Some(data) => Ok(Frame(MergeHeaders(data.columns), data.rows))
  }
}
