/** Reading a raw CSV / Excel / text export into a frame whose header is built
    from its first two rows (name row and unit row), made unique, and tagged
    with the well name taken from the file name. */
module FileHandling {
  import opened Wrappers
  import opened Frames
  import Text

  // ---------------------------------------------------------------------
  // generate_unique_header
  // ---------------------------------------------------------------------

  /** How many times `x` occurs in `s` (`Counter(s)[x]`). */
  function Occurrences(s: seq<string>, x: string): (n: nat)
    ensures n <= |s|
  {
    if |s| == 0 then 0
    else Occurrences(s[..|s| - 1], x) + (if s[|s| - 1] == x then 1 else 0)
  }

  /** A name is counted exactly when it is there. */
  lemma {:induction false} OccurrencesPositive(s: seq<string>, x: string)
    ensures Occurrences(s, x) > 0 <==> x in s
    decreases |s|
  {
    if |s| > 0 {
      var init := s[..|s| - 1];
      assert s == init + [s[|s| - 1]];
      OccurrencesPositive(init, x);
    }
  }

  /** The copy number of `h[i]`: how many times its name has been seen up to and including `i`. */
  function Rank(h: seq<string>, i: nat): nat
    requires i < |h|
  {
    Occurrences(h[..i + 1], h[i])
  }

  /** The name position `i` gets: a name that occurs once is kept, the k-th copy
      of a repeated name becomes `name_k`. */
  function NewName(h: seq<string>, i: nat): string
    requires i < |h|
  {
    if Occurrences(h, h[i]) > 1 then h[i] + "_" + Text.NatToString(Rank(h, i)) else h[i]
  }

  /** The header after renaming every position. */
  function UniqueHeader(h: seq<string>): (r: seq<string>)
    ensures |r| == |h|
  {
    seq(|h|, i requires 0 <= i < |h| => NewName(h, i))
  }

  /** Names that occur once are unchanged; the copies of a repeated name are
      suffixed with their copy number. */
  lemma UniqueHeaderRenames(h: seq<string>)
    ensures forall i :: 0 <= i < |h| && Occurrences(h, h[i]) == 1 ==> UniqueHeader(h)[i] == h[i]
    ensures forall i :: 0 <= i < |h| && Occurrences(h, h[i]) > 1 ==>
      UniqueHeader(h)[i] == h[i] + "_" + Text.NatToString(Rank(h, i))
  {
  }

  /** A `Counter` lookup: a missing key counts zero. */
  function Count(counter: map<string, nat>, x: string): nat {
    if x in counter then counter[x] else 0
  }

  /** `Counter(h)`: the number of copies of every name. */
  method CountNames(h: seq<string>) returns (counts: map<string, nat>)
    ensures forall x :: Count(counts, x) == Occurrences(h, x)
  {
    counts := map[];
    var i := 0;
    while i < |h|
      invariant 0 <= i <= |h|
      invariant forall x :: Count(counts, x) == Occurrences(h[..i], x)
    {
      OccurrencesStep(h, i);
      var before := counts;
      counts := counts[h[i] := Count(counts, h[i]) + 1];
      forall x
        ensures Count(counts, x) == Occurrences(h[..i + 1], x)
      {
        assert Count(before, x) == Occurrences(h[..i], x);
        assert Count(counts, x) == Count(before, x) + (if h[i] == x then 1 else 0);
      }
      i := i + 1;
    }
    assert h[..|h|] == h;
  }

  /** `generate_unique_header`: count every name, then number the copies of the
      repeated ones in order of appearance. */
  method GenerateUniqueHeader(h: seq<string>) returns (r: seq<string>)
    ensures r == UniqueHeader(h)
  {
    var counts := CountNames(h);
    var seen: map<string, nat> := map[];
    r := [];
    var i := 0;
    while i < |h|
      invariant 0 <= i <= |h|
      invariant |r| == i
      invariant forall k :: 0 <= k < i ==> r[k] == NewName(h, k)
      invariant forall x :: Occurrences(h, x) > 1 ==> Count(seen, x) == Occurrences(h[..i], x)
    {
      var col := h[i];
      OccurrencesStep(h, i);
      var name := col;
      if Count(counts, col) > 1 {
        seen := seen[col := Count(seen, col) + 1];
        name := col + "_" + Text.NatToString(Count(seen, col));
      }
      assert name == NewName(h, i);
      r := r + [name];
      i := i + 1;
    }
  }

  /** One more name counted. */
  lemma OccurrencesStep(h: seq<string>, i: nat)
    requires i < |h|
    ensures forall x :: Occurrences(h[..i + 1], x) == Occurrences(h[..i], x) + (if h[i] == x then 1 else 0)
  {
    assert h[..i + 1][..i] == h[..i];
  }

  lemma {:induction false} OccurrencesGrow(s: seq<string>, x: string, a: nat, b: nat)
    requires a <= b <= |s|
    ensures Occurrences(s[..a], x) <= Occurrences(s[..b], x)
    decreases b - a
  {
    if a < b {
      OccurrencesGrow(s, x, a, b - 1);
      assert s[..b][..b - 1] == s[..b - 1];
    }
  }

  /** Every copy of a repeated name gets a number between 1 and its count. */
  lemma RankBounds(h: seq<string>, i: nat)
    requires i < |h|
    ensures 1 <= Rank(h, i) <= Occurrences(h, h[i])
  {
    assert h[..i + 1][i] == h[i];
    OccurrencesPositive(h[..i + 1], h[i]);
    OccurrencesGrow(h, h[i], i + 1, |h|);
    assert h[..|h|] == h;
  }

  /** A later copy of the same name gets a larger number. */
  lemma RankIncreases(h: seq<string>, i: nat, j: nat)
    requires i < j < |h|
    ensures h[i] == h[j] ==> Rank(h, i) < Rank(h, j)
  {
    OccurrencesGrow(h, h[i], i + 1, j);
    assert h[..j + 1][..j] == h[..j];
  }

  /** Every number from 1 to the count of `x` is the copy number of some copy of `x`. */
  lemma {:induction false} RankAttained(h: seq<string>, x: string, k: nat) returns (i: nat)
    requires 1 <= k <= Occurrences(h, x)
    ensures i < |h| && h[i] == x && Rank(h, i) == k
    decreases |h|
  {
    var init := h[..|h| - 1];
    if h[|h| - 1] == x && k == Occurrences(h, x) {
      i := |h| - 1;
      assert h[..i + 1] == h;
    } else {
      i := RankAttained(init, x, k);
      assert init[..i + 1] == h[..i + 1];
    }
  }

  /** Two positions holding the same name make that name repeated. */
  lemma TwoCopies(h: seq<string>, i: nat, j: nat)
    requires i < j < |h|
    ensures h[i] == h[j] ==> Occurrences(h, h[i]) > 1
  {
    RankBounds(h, i);
    RankBounds(h, j);
    RankIncreases(h, i, j);
  }

  predicate Distinct(s: seq<string>) {
    forall i, j :: 0 <= i < j < |s| ==> s[i] != s[j]
  }

  /** No name that occurs once already reads `name_k` for a repeated `name` with k
      between 1 and the number of its copies. */
  ghost predicate NoClash(h: seq<string>) {
    forall i, m, k: nat ::
      0 <= i < |h| && 0 <= m < |h| && Occurrences(h, h[i]) > 1 && Occurrences(h, h[m]) == 1 &&
      1 <= k <= Occurrences(h, h[i]) ==>
        h[m] != h[i] + "_" + Text.NatToString(k)
  }

  lemma PairDistinct(h: seq<string>, i: nat, j: nat)
    requires NoClash(h) && i < j < |h|
    ensures UniqueHeader(h)[i] != UniqueHeader(h)[j]
  {
    var r := UniqueHeader(h);
    RankBounds(h, i);
    RankBounds(h, j);
    RankIncreases(h, i, j);
    TwoCopies(h, i, j);
    Text.SuffixedParts(h[i], Text.NatToString(Rank(h, i)), h[j], Text.NatToString(Rank(h, j)));
    Text.NatToStringInjective(Rank(h, i), Rank(h, j));
  }

  /** The renamed header is free of duplicates exactly when no single name
      collides with a generated `name_k`. */
  lemma UniqueIffNoClash(h: seq<string>)
    ensures Distinct(UniqueHeader(h)) <==> NoClash(h)
  {
    var r := UniqueHeader(h);
    if NoClash(h) {
      forall i, j | 0 <= i < j < |r|
        ensures r[i] != r[j]
      {
        PairDistinct(h, i, j);
      }
    }
    if Distinct(r) {
      forall i, m, k: nat | 0 <= i < |h| && 0 <= m < |h| && Occurrences(h, h[i]) > 1 &&
        Occurrences(h, h[m]) == 1 && 1 <= k <= Occurrences(h, h[i])
        ensures h[m] != h[i] + "_" + Text.NatToString(k)
      {
        var p := RankAttained(h, h[i], k);
        assert r[p] == h[i] + "_" + Text.NatToString(k);
        assert r[m] == h[m];
        assert p != m;
        if p < m {
          assert r[p] != r[m];
        } else {
          assert r[m] != r[p];
        }
      }
    }
  }

  /** Renaming can collide: a repeated `a` and an existing `a_1` give `a_1` twice. */
  lemma CollisionExample()
    ensures !Distinct(UniqueHeader(["a", "a", "a_1"]))
  {
    var h := ["a", "a", "a_1"];
    assert Occurrences(h, "a") == 2;
    assert Occurrences(h, "a_1") == 1;
    assert Rank(h, 0) == 1 by { assert h[..1] == ["a"]; }
    assert Text.NatToString(1) == "1";
    assert UniqueHeader(h)[0] == UniqueHeader(h)[2];
  }

  // ---------------------------------------------------------------------
  // get_base_filename
  // ---------------------------------------------------------------------

  /** What `read_file` was given: a path, an uploaded object with a `.name`, or neither. */
  datatype Source = Path(path: string) | Upload(name: string) | Unnamed

  /** `os.path.basename`: the text after the last '/'. */
  function Basename(p: string): (b: string)
    ensures '/' !in b
    ensures Text.EndsWith(p, b)
    ensures |b| < |p| ==> p[|p| - |b| - 1] == '/'
  {
    if |p| == 0 || p[|p| - 1] == '/' then ""
    else
      var b := Basename(p[..|p| - 1]) + [p[|p| - 1]];
      assert p[|p| - |b|..] == p[..|p| - 1][|p| - |b|..] + [p[|p| - 1]];
      b
  }

  /** The position of the last '.' in `s`, if any. */
  function LastDot(s: string): (r: Option<nat>)
    ensures r.Some? ==> r.value < |s| && s[r.value] == '.' && '.' !in s[r.value + 1..]
    ensures r.None? <==> '.' !in s
  {
    if |s| == 0 then None
    else if s[|s| - 1] == '.' then Some(|s| - 1)
    else
      var r := LastDot(s[..|s| - 1]);
      assert s == s[..|s| - 1] + [s[|s| - 1]];
      assert r.Some? ==> s[r.value + 1..] == s[..|s| - 1][r.value + 1..] + [s[|s| - 1]];
      r
  }

  predicate AllDots(s: string) {
    forall i :: 0 <= i < |s| ==> s[i] == '.'
  }

  /** `os.path.splitext(b)[0]` for a name without '/': cut at the last '.',
      unless nothing but dots comes before it (a hidden file such as `.env`). */
  function StripExtension(b: string): (root: string)
    ensures Text.StartsWith(b, root)
    ensures |root| < |b| ==> b[|root|] == '.' && '.' !in b[|root| + 1..] && !AllDots(root)
    ensures |root| == |b| ==> '.' !in b || AllDots(b[..LastDot(b).value])
  {
    match LastDot(b)
    case None => b
    case Some(d) => if AllDots(b[..d]) then b else b[..d]
  }

  /** `get_base_filename`: the file name without directory and last extension,
      or "unknown_file" when there is no name at all. */
  function BaseFilename(src: Source): (r: string)
    ensures src.Unnamed? ==> r == "unknown_file"
    ensures '/' !in r
  {
    match src
    case Path(p) => NameStem(p)
    case Upload(n) => NameStem(n)
    case Unnamed => "unknown_file"
  }

  function NameStem(p: string): (r: string)
    ensures '/' !in r
  {
    var b := Basename(p);
    var r := StripExtension(b);
    assert r == b[..|r|];
    assert forall i :: 0 <= i < |r| ==> r[i] == b[i];
    r
  }

  lemma {:induction false} BasenameAfterSlash(dir: string, name: string)
    requires '/' !in name
    ensures Basename(dir + "/" + name) == name
    decreases |name|
  {
    var p := dir + "/" + name;
    if |name| > 0 {
      var init := name[..|name| - 1];
      assert p[..|p| - 1] == dir + "/" + init;
      assert name[|name| - 1] in name;
      BasenameAfterSlash(dir, init);
      assert init + [name[|name| - 1]] == name;
    }
  }

  lemma {:induction false} LastDotBefore(a: string, b: string)
    requires '.' !in b
    ensures LastDot(a + "." + b) == Some(|a|)
    decreases |b|
  {
    var s := a + "." + b;
    if |b| > 0 {
      var init := b[..|b| - 1];
      assert s[..|s| - 1] == a + "." + init;
      assert b[|b| - 1] in b;
      LastDotBefore(a, init);
    }
  }

  /** The usual case: `dir/stem.ext` gives `stem`, whatever the directory. */
  lemma StemOfPath(dir: string, stem: string, ext: string)
    requires '/' !in stem && '/' !in ext && '.' !in ext
    requires !AllDots(stem)
    ensures BaseFilename(Path(dir + "/" + stem + "." + ext)) == stem
  {
    var name := stem + "." + ext;
    assert forall i :: 0 <= i < |name| ==> name[i] == '.' || name[i] in stem || name[i] in ext;
    BasenameAfterSlash(dir, name);
    assert dir + "/" + stem + "." + ext == dir + "/" + name;
    LastDotBefore(stem, ext);
    assert name[..|stem|] == stem;
  }

  // ---------------------------------------------------------------------
  // set_header
  // ---------------------------------------------------------------------

  /** `astype(str)` on one cell; how a number prints is a parameter. */
  function AsText(c: Cell, numText: real -> string): string {
    match c
    case Num(v) => numText(v)
    case Str(s) => s
    case Missing => "nan"
  }

  /** Row 0 and row 1, stripped and joined by "__", column by column. */
  function CombinedHeader(f: Frame, numText: real -> string): (h: seq<string>)
    requires WellFormed(f) && |f.rows| >= 2
    ensures |h| == |f.columns|
    ensures forall j :: 0 <= j < |h| ==> '_' in h[j]
  {
    assert f.rows[0] in f.rows && f.rows[1] in f.rows;
    var h := seq(|f.columns|, j requires 0 <= j < |f.columns| =>
      Text.Strip(AsText(f.rows[0][j], numText)) + "__" + Text.Strip(AsText(f.rows[1][j], numText)));
    assert forall j :: 0 <= j < |h| ==> h[j][|Text.Strip(AsText(f.rows[0][j], numText))|] == '_';
    h
  }

  const WellColumn: string := "well"
  const TooShort: string := "ValueError: DataFrame must have at least two rows to generate header."

  /** A header made of names that all contain '_' never holds "well", so
      `df["well"] = ...` always appends a new column. */
  lemma WellIsNew(h: seq<string>)
    requires forall j :: 0 <= j < |h| ==> '_' in h[j]
    ensures WellColumn !in UniqueHeader(h)
  {
    var r := UniqueHeader(h);
    forall i | 0 <= i < |r|
      ensures '_' in r[i]
    {
      if Occurrences(h, h[i]) > 1 {
        assert r[i][|h[i]|] == '_';
      }
    }
  }

  /** `df["well"] = name` on a frame that has no `well` column yet: a constant column at the end. */
  function TagWell(columns: seq<string>, rows: seq<Row>, well: string): (g: Frame)
    requires WellColumn !in columns
    requires forall i :: 0 <= i < |rows| ==> |rows[i]| == |columns|
    ensures WellFormed(g)
    ensures g.columns == columns + [WellColumn]
    ensures |g.rows| == |rows|
    ensures forall i :: 0 <= i < |rows| ==> g.rows[i] == rows[i] + [Str(well)]
  {
    var values := Constant(|rows|, Str(well));
    var g := WithColumn(Frame(columns, rows), WellColumn, values);
    ColumnIndexAppended(columns, WellColumn);
    assert forall i :: 0 <= i < |g.rows| ==> g.rows[i] == rows[i] + [values[i]];
    g
  }

  /** `set_header`: at least two rows are needed; the header is the unique form
      of the combined first two rows, which are then dropped, and every row gets
      the base file name in a new `well` column. */
  function SetHeader(f: Frame, src: Source, numText: real -> string): (r: Result<Frame>)
    requires WellFormed(f)
    ensures r.Ok? <==> |f.rows| >= 2
    ensures r.Err? ==> r.error == TooShort
    ensures r.Ok? ==> WellFormed(r.value)
    ensures r.Ok? ==> r.value.columns == UniqueHeader(CombinedHeader(f, numText)) + [WellColumn]
    ensures r.Ok? ==> |r.value.rows| == |f.rows| - 2
    ensures r.Ok? ==> forall i :: 0 <= i < |r.value.rows| ==>
      r.value.rows[i] == f.rows[i + 2] + [Str(BaseFilename(src))]
  {
    if |f.rows| < 2 then Err(TooShort)
    else
      var h := UniqueHeader(CombinedHeader(f, numText));
      WellIsNew(CombinedHeader(f, numText));
      assert forall i :: 2 <= i < |f.rows| ==> f.rows[i] in f.rows;
      Ok(TagWell(h, f.rows[2..], BaseFilename(src)))
  }

  // ---------------------------------------------------------------------
  // read_file
  // ---------------------------------------------------------------------

  /** A raised exception: its class name and its message. */
  datatype Exception = Exception(kind: string, message: string)

  /** What one call of the pandas reader gives for one encoding and delimiter. */
  datatype Attempt = Parsed(frame: Frame) | Raised(exception: Exception)

  /** After an attempt: either `read_file` returns, or it goes on remembering the last exception. */
  datatype Outcome = Done(result: Result<Frame>) | Pending(last: Option<Exception>)

  const FileTypes: seq<string> := ["csv", "excel", "txt"]
  const Encodings: seq<string> := ["utf-8", "latin-1", "ISO-8859-1", "utf-16"]
  const Delimiters: seq<string> := [",", "\t", ";", " "]

  /** The reader is handed every (encoding, delimiter) pair it is tried with;
      Excel files are read without a delimiter. */
  type Reader = (string, Option<string>) -> Attempt

  /** Whatever the reader parses has one cell per column in every row. */
  ghost predicate ReadsWellFormed(read: Reader) {
    forall e, d :: read(e, d).Parsed? ==> WellFormed(read(e, d).frame)
  }

  function Unsupported(fileType: string): string {
    "ValueError: Unsupported file type: " + fileType + ". Supported types are: ['csv', 'excel', 'txt']"
  }

  /** The delimiters tried under one encoding: all four for csv and txt, none for Excel. */
  function Delimiting(fileType: string): (ds: seq<Option<string>>)
    ensures |ds| > 0
  {
    if fileType == "csv" || fileType == "txt" then
      seq(|Delimiters|, j requires 0 <= j < |Delimiters| => Some(Delimiters[j]))
    else [None]
  }

  /** `df.empty`: no rows or no columns. */
  predicate Empty(f: Frame) {
    |f.columns| == 0 || |f.rows| == 0
  }

  function EmptyMessage(base: string, encoding: string, delimiter: Option<string>): string {
    match delimiter
    case Some(d) =>
      "No columns to parse from file '" + base + "' with encoding '" + encoding + "' and delimiter '" + d + "'"
    case None =>
      "No columns to parse from file '" + base + "' (Excel) with encoding '" + encoding + "'"
  }

  /** One pass of the body of the retry loop. A parse that is not empty but has
      fewer than two rows raises a ValueError, which the loop's own
      `except Exception` catches, so the search goes on. An empty parse records
      an EmptyDataError unless the last exception already is one. */
  function Step(src: Source, numText: real -> string, encoding: string, delimiter: Option<string>,
                a: Attempt, last: Option<Exception>): (o: Outcome)
    requires a.Parsed? ==> WellFormed(a.frame)
    ensures o.Pending? ==> o.last.Some?
    ensures o.Done? <==> a.Parsed? && !Empty(a.frame) && |a.frame.rows| >= 2
    ensures o.Done? ==> o.result.Ok?
  {
    match a
    case Raised(e) => Pending(Some(e))
    case Parsed(df) =>
      if !Empty(df) then
        if |df.rows| < 2 then
          Pending(Some(Exception("ValueError", "File '" + BaseFilename(src) +
            "' has less than 2 rows required for header generation.")))
        else Done(SetHeader(df, src, numText))
      else if last.Some? && last.value.kind == "EmptyDataError" then Pending(last)
      else Pending(Some(Exception("EmptyDataError", EmptyMessage(BaseFilename(src), encoding, delimiter))))
  }

  /** The inner loop: try each delimiter in turn under one encoding. */
  function TryDelimiters(src: Source, numText: real -> string, read: Reader, encoding: string,
                         ds: seq<Option<string>>, last: Option<Exception>): (o: Outcome)
    requires ReadsWellFormed(read)
    ensures |ds| > 0 && o.Pending? ==> o.last.Some?
    decreases |ds|
  {
    if |ds| == 0 then Pending(last)
    else match Step(src, numText, encoding, ds[0], read(encoding, ds[0]), last)
      case Done(r) => Done(r)
      case Pending(l) => TryDelimiters(src, numText, read, encoding, ds[1..], l)
  }

  /** A pass over delimiters is the step with the first one, then, unless that step is
      done, the pass over the rest. */
  lemma TryDelimitersUnfold(src: Source, numText: real -> string, read: Reader, encoding: string,
                            ds: seq<Option<string>>, last: Option<Exception>)
    requires ReadsWellFormed(read) && |ds| > 0
    ensures var o := Step(src, numText, encoding, ds[0], read(encoding, ds[0]), last);
      TryDelimiters(src, numText, read, encoding, ds, last) ==
        if o.Done? then o else TryDelimiters(src, numText, read, encoding, ds[1..], o.last)
  {
  }

  /** The outer loop: try each encoding in turn. */
  function TryEncodings(src: Source, numText: real -> string, read: Reader, fileType: string,
                        es: seq<string>, last: Option<Exception>): (o: Outcome)
    requires ReadsWellFormed(read)
    ensures |es| > 0 && o.Pending? ==> o.last.Some?
    decreases |es|
  {
    if |es| == 0 then Pending(last)
    else match TryDelimiters(src, numText, read, es[0], Delimiting(fileType), last)
      case Done(r) => Done(r)
      case Pending(l) => TryEncodings(src, numText, read, fileType, es[1..], l)
  }

  /** `read_file`: reject an unknown file type before reading anything; otherwise
      return the first usable parse with its header set, or raise the last exception. */
  function ReadSpec(fileType: string, src: Source, read: Reader, numText: real -> string): (r: Result<Frame>)
    requires ReadsWellFormed(read)
    ensures fileType !in FileTypes ==> r == Err(Unsupported(fileType))
  {
    if fileType !in FileTypes then Err(Unsupported(fileType))
    else match TryEncodings(src, numText, read, fileType, Encodings, None)
      case Done(r) => r
      case Pending(Some(e)) => Err(e.kind + ": " + e.message)
      case Pending(None) =>
        Err("Exception: Could not read file '" + BaseFilename(src) +
          "' with any tried encoding/delimiter combination.")
  }

  /** `read_file` with its retry loop over the encodings. */
  method ReadFile(fileType: string, src: Source, read: Reader, numText: real -> string) returns (r: Result<Frame>)
    requires ReadsWellFormed(read)
    ensures r == ReadSpec(fileType, src, read, numText)
  {
    if fileType !in FileTypes {
      return Err(Unsupported(fileType));
    }
    var last: Option<Exception> := None;
    var i := 0;
    while i < |Encodings|
      invariant 0 <= i <= |Encodings|
      invariant TryEncodings(src, numText, read, fileType, Encodings[i..], last) ==
        TryEncodings(src, numText, read, fileType, Encodings, None)
    {
      assert Encodings[i..][0] == Encodings[i];
      assert Encodings[i..][1..] == Encodings[i + 1..];
      var o := TryEncoding(fileType, src, read, numText, Encodings[i], last);
      if o.Done? {
        return o.result;
      }
      last := o.last;
      i := i + 1;
    }
    match last
    case Some(e) =>
      r := Err(e.kind + ": " + e.message);
    case None =>
      r := Err("Exception: Could not read file '" + BaseFilename(src) +
        "' with any tried encoding/delimiter combination.");
  }

  /** The body of the encoding loop: every delimiter for csv and txt, one plain
      read for Excel. */
  method TryEncoding(fileType: string, src: Source, read: Reader, numText: real -> string,
                     encoding: string, last0: Option<Exception>) returns (o: Outcome)
    requires ReadsWellFormed(read)
    ensures o == TryDelimiters(src, numText, read, encoding, Delimiting(fileType), last0)
  {
    var last := last0;
    if fileType == "csv" || fileType == "txt" {
      var ds := Delimiting(fileType);
      var j := 0;
      while j < |Delimiters|
        invariant 0 <= j <= |Delimiters|
        invariant TryDelimiters(src, numText, read, encoding, ds[j..], last) ==
          TryDelimiters(src, numText, read, encoding, ds, last0)
      {
        TryDelimitersUnfold(src, numText, read, encoding, ds[j..], last);
        assert ds[j..][0] == Some(Delimiters[j]);
        assert ds[j..][1..] == ds[j + 1..];
        o := Step(src, numText, encoding, Some(Delimiters[j]), read(encoding, Some(Delimiters[j])), last);
        if o.Done? {
          return;
        }
        last := o.last;
        j := j + 1;
      }
      o := Pending(last);
    } else {
      o := Step(src, numText, encoding, None, read(encoding, None), last);
    }
  }

  /** A parse `read_file` accepts: not empty and with the two header rows. */
  predicate Good(a: Attempt) {
    a.Parsed? && WellFormed(a.frame) && !Empty(a.frame) && |a.frame.rows| >= 2
  }

  /** The frame of the first acceptable attempt. */
  function FirstGood(attempts: seq<Attempt>): (g: Option<Frame>)
    ensures g.Some? ==> WellFormed(g.value) && |g.value.rows| >= 2
    ensures g.Some? <==> exists k :: 0 <= k < |attempts| && Good(attempts[k])
  {
    if |attempts| == 0 then None
    else if Good(attempts[0]) then Some(attempts[0].frame)
    else
      var g := FirstGood(attempts[1..]);
      assert forall k :: 1 <= k < |attempts| ==> attempts[k] == attempts[1..][k - 1];
      g
  }

  /** The reader's answers, in the order `read_file` asks for them. */
  function Tries(read: Reader, encoding: string, ds: seq<Option<string>>): (a: seq<Attempt>)
    ensures |a| == |ds|
  {
    if |ds| == 0 then [] else [read(encoding, ds[0])] + Tries(read, encoding, ds[1..])
  }

  function AllTries(read: Reader, fileType: string, es: seq<string>): seq<Attempt> {
    if |es| == 0 then [] else Tries(read, es[0], Delimiting(fileType)) + AllTries(read, fileType, es[1..])
  }

  lemma {:induction false} FirstGoodAppend(a: seq<Attempt>, b: seq<Attempt>)
    ensures FirstGood(a + b) == if FirstGood(a).Some? then FirstGood(a) else FirstGood(b)
    decreases |a|
  {
    if |a| == 0 {
      assert a + b == b;
    } else {
      assert (a + b)[0] == a[0];
      assert (a + b)[1..] == a[1..] + b;
      FirstGoodAppend(a[1..], b);
    }
  }

  lemma {:induction false} DelimitersTakeFirstGood(src: Source, numText: real -> string, read: Reader,
                                                   encoding: string, ds: seq<Option<string>>, last: Option<Exception>)
    requires ReadsWellFormed(read)
    ensures TryDelimiters(src, numText, read, encoding, ds, last).Done? <==> FirstGood(Tries(read, encoding, ds)).Some?
    ensures TryDelimiters(src, numText, read, encoding, ds, last).Done? ==>
      TryDelimiters(src, numText, read, encoding, ds, last).result ==
      SetHeader(FirstGood(Tries(read, encoding, ds)).value, src, numText)
    decreases |ds|
  {
    if |ds| > 0 {
      var o := Step(src, numText, encoding, ds[0], read(encoding, ds[0]), last);
      if o.Pending? {
        DelimitersTakeFirstGood(src, numText, read, encoding, ds[1..], o.last);
      }
    }
  }

  lemma {:induction false} EncodingsTakeFirstGood(src: Source, numText: real -> string, read: Reader,
                                                  fileType: string, es: seq<string>, last: Option<Exception>)
    requires ReadsWellFormed(read)
    ensures TryEncodings(src, numText, read, fileType, es, last).Done? <==> FirstGood(AllTries(read, fileType, es)).Some?
    ensures TryEncodings(src, numText, read, fileType, es, last).Done? ==>
      TryEncodings(src, numText, read, fileType, es, last).result ==
      SetHeader(FirstGood(AllTries(read, fileType, es)).value, src, numText)
    decreases |es|
  {
    if |es| > 0 {
      var ds := Delimiting(fileType);
      DelimitersTakeFirstGood(src, numText, read, es[0], ds, last);
      FirstGoodAppend(Tries(read, es[0], ds), AllTries(read, fileType, es[1..]));
      var o := TryDelimiters(src, numText, read, es[0], ds, last);
      if o.Pending? {
        EncodingsTakeFirstGood(src, numText, read, fileType, es[1..], o.last);
      }
    }
  }

  /** For a supported type, `read_file` succeeds exactly when some encoding and
      delimiter, in the order tried, gives a usable parse, and then returns the
      first such parse with its header set; otherwise it raises the last
      exception seen, never the generic fallback. */
  lemma ReadTakesFirstGood(fileType: string, src: Source, read: Reader, numText: real -> string)
    requires ReadsWellFormed(read) && fileType in FileTypes
    ensures ReadSpec(fileType, src, read, numText).Ok? <==> FirstGood(AllTries(read, fileType, Encodings)).Some?
    ensures ReadSpec(fileType, src, read, numText).Ok? ==>
      ReadSpec(fileType, src, read, numText) ==
      SetHeader(FirstGood(AllTries(read, fileType, Encodings)).value, src, numText)
    ensures TryEncodings(src, numText, read, fileType, Encodings, None).Pending? ==>
      TryEncodings(src, numText, read, fileType, Encodings, None).last.Some?
  {
    EncodingsTakeFirstGood(src, numText, read, fileType, Encodings, None);
  }
}
