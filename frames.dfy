/** A pandas DataFrame as Dafny sees it: named columns over rows of cells.
    Pure operations take a `Frame` value; operations that pandas performs in
    place (`df[name] = values`, `df.columns = ...`) go through a `Table`. */
module Frames {
  import opened Wrappers

  /** One cell: a number, a text, or a missing value (NaN / None). */
  datatype Cell = Num(v: real) | Str(s: string) | Missing

  type Row = seq<Cell>

  datatype Frame = Frame(columns: seq<string>, rows: seq<Row>)

  /** Every row has one cell per column. */
  predicate WellFormed(f: Frame) {
    forall r | r in f.rows :: |r| == |f.columns|
  }

  /** Some column named in `names` holds a text cell. */
  predicate TextIn(f: Frame, names: seq<string>) {
    exists i, j :: 0 <= i < |f.rows| && 0 <= j < |f.rows[i]| && j < |f.columns| &&
      f.columns[j] in names && f.rows[i][j].Str?
  }

  /** Some column named in `names` holds a text cell that `float()`, given as `parse`,
      cannot read. */
  predicate UnreadableIn(f: Frame, names: seq<string>, parse: string -> Option<real>) {
    exists i, j :: 0 <= i < |f.rows| && 0 <= j < |f.rows[i]| && j < |f.columns| &&
      f.columns[j] in names && f.rows[i][j].Str? && parse(f.rows[i][j].s).None?
  }

  /** Some column named in `names` holds a missing cell (NaN). */
  predicate MissingIn(f: Frame, names: seq<string>) {
    exists i, j :: 0 <= i < |f.rows| && 0 <= j < |f.rows[i]| && j < |f.columns| &&
      f.columns[j] in names && f.rows[i][j].Missing?
  }

  /** Every cell of every column named in `names` becomes a number under `float()`: it is a
      number, or a text that `parse` reads as one. Only a missing cell (NaN) is left out. */
  predicate FloatsIn(f: Frame, names: seq<string>, parse: string -> Option<real>) {
    forall i, j ::
      (0 <= i < |f.rows| && 0 <= j < |f.rows[i]| && j < |f.columns| && f.columns[j] in names) ==>
        f.rows[i][j].Num? || (f.rows[i][j].Str? && parse(f.rows[i][j].s).Some?)
  }

  /** The position of the first column called `name`; for a unique name this is the
      column `df[name]` selects. */
  function ColumnIndex(columns: seq<string>, name: string): (r: Option<nat>)
    ensures r.Some? ==> r.value < |columns| && columns[r.value] == name
    ensures r.Some? ==> forall j :: 0 <= j < r.value ==> columns[j] != name
    ensures r.None? <==> name !in columns
  {
    if |columns| == 0 then None
    else if columns[0] == name then Some(0)
    else match ColumnIndex(columns[1..], name)
      case None => None
      case Some(j) => Some(j + 1)
  }

  /** A name appended to columns that lack it is found at the end. */
  lemma ColumnIndexAppended(columns: seq<string>, name: string)
    requires name !in columns
    ensures ColumnIndex(columns + [name], name) == Some(|columns|)
  {
    var all := columns + [name];
    assert all[|columns|] == name;
    assert forall k :: 0 <= k < |columns| ==> all[k] == columns[k];
  }

  /** The cells of column `j`, top to bottom. */
  function Column(f: Frame, j: nat): (c: seq<Cell>)
    requires WellFormed(f) && j < |f.columns|
    ensures |c| == |f.rows|
    ensures forall i :: 0 <= i < |f.rows| ==> c[i] == f.rows[i][j]
  {
    seq(|f.rows|, i requires 0 <= i < |f.rows| => f.rows[i][j])
  }

  /** `df[name] = values`: overwrite the column if it exists, otherwise append it. */
  function WithColumn(f: Frame, name: string, values: seq<Cell>): (g: Frame)
    requires WellFormed(f) && |values| == |f.rows|
    ensures WellFormed(g) && |g.rows| == |f.rows|
    ensures name in g.columns
    ensures name in f.columns ==> g.columns == f.columns
    ensures name !in f.columns ==> g.columns == f.columns + [name]
    ensures forall i :: 0 <= i < |f.rows| ==> g.rows[i][ColumnIndex(g.columns, name).value] == values[i]
    ensures forall i, j :: 0 <= i < |f.rows| && 0 <= j < |f.columns| && f.columns[j] != name ==>
      g.rows[i][j] == f.rows[i][j]
  {
    match ColumnIndex(f.columns, name)
    case Some(j) => Overwritten(f, j, values)
    case None =>
      ColumnIndexAppended(f.columns, name);
      Appended(f, name, values)
  }

  /** Column `j` replaced by `values`. */
  function Overwritten(f: Frame, j: nat, values: seq<Cell>): (g: Frame)
    requires WellFormed(f) && j < |f.columns| && |values| == |f.rows|
    ensures WellFormed(g) && g.columns == f.columns && |g.rows| == |f.rows|
    ensures forall i :: 0 <= i < |f.rows| ==> g.rows[i][j] == values[i]
    ensures forall i, k :: 0 <= i < |f.rows| && 0 <= k < |f.columns| && k != j ==> g.rows[i][k] == f.rows[i][k]
  {
    Frame(f.columns, seq(|f.rows|, i requires 0 <= i < |f.rows| => f.rows[i][j := values[i]]))
  }

  /** A new last column `name` holding `values`. */
  function Appended(f: Frame, name: string, values: seq<Cell>): (g: Frame)
    requires WellFormed(f) && |values| == |f.rows|
    ensures WellFormed(g) && g.columns == f.columns + [name] && |g.rows| == |f.rows|
    ensures forall i :: 0 <= i < |f.rows| ==> g.rows[i] == f.rows[i] + [values[i]]
    ensures forall i :: 0 <= i < |f.rows| ==> g.rows[i][|f.columns|] == values[i]
    ensures forall i, k :: 0 <= i < |f.rows| && 0 <= k < |f.columns| ==> g.rows[i][k] == f.rows[i][k]
  {
    Frame(f.columns + [name], seq(|f.rows|, i requires 0 <= i < |f.rows| => f.rows[i] + [values[i]]))
  }

  /** One cell of `WithColumn`: the written column holds the new value, every other
      column keeps its old cell. */
  lemma WithColumnCell(f: Frame, name: string, values: seq<Cell>, i: nat, k: nat)
    requires WellFormed(f) && |values| == |f.rows|
    requires i < |f.rows| && k < |WithColumn(f, name, values).columns|
    ensures k != ColumnIndex(WithColumn(f, name, values).columns, name).value ==>
      k < |f.columns| && WithColumn(f, name, values).columns[k] == f.columns[k] &&
      WithColumn(f, name, values).rows[i][k] == f.rows[i][k]
    ensures k == ColumnIndex(WithColumn(f, name, values).columns, name).value ==>
      WithColumn(f, name, values).rows[i][k] == values[i]
  {
    if name !in f.columns {
      ColumnIndexAppended(f.columns, name);
    }
  }

  /** One cell of `WithColumn` on a frame with distinct column names: the cell
      under `name` holds the new value, a cell under any other name is unchanged. */
  lemma WithColumnAt(f: Frame, name: string, values: seq<Cell>, i: nat, k: nat)
    requires WellFormed(f) && |values| == |f.rows|
    requires forall a, b :: 0 <= a < b < |f.columns| ==> f.columns[a] != f.columns[b]
    requires i < |f.rows| && k < |WithColumn(f, name, values).columns|
    ensures WithColumn(f, name, values).columns[k] == name ==>
      WithColumn(f, name, values).rows[i][k] == values[i]
    ensures WithColumn(f, name, values).columns[k] != name ==>
      k < |f.columns| && f.columns[k] == WithColumn(f, name, values).columns[k] &&
      WithColumn(f, name, values).rows[i][k] == f.rows[i][k]
  {
    WithColumnCell(f, name, values, i, k);
  }

  /** A column filled with one value, as pandas broadcasts a scalar. */
  function Constant(n: nat, c: Cell): (s: seq<Cell>)
    ensures |s| == n && forall i :: 0 <= i < n ==> s[i] == c
  {
    seq(n, _ => c)
  }

  /** The distinct elements of `s` in order of first appearance (`Series.unique()`). */
  function Unique<T(==, !new)>(s: seq<T>): (r: seq<T>)
    ensures forall x :: x in r <==> x in s
    ensures forall i, j :: 0 <= i < j < |r| ==> r[i] != r[j]
    ensures |r| <= |s|
  {
    if |s| == 0 then []
    else
      var u := Unique(s[..|s| - 1]);
      assert s == s[..|s| - 1] + [s[|s| - 1]];
      if s[|s| - 1] in u then u else u + [s[|s| - 1]]
  }

  /** Keep, in order, the elements that satisfy `p`. */
  function Filter<T>(s: seq<T>, p: T -> bool): (r: seq<T>)
    ensures |r| <= |s|
    ensures forall x :: x in r ==> x in s && p(x)
  {
    if |s| == 0 then [] else if p(s[0]) then [s[0]] + Filter(s[1..], p) else Filter(s[1..], p)
  }

  lemma {:induction false} FilterKeepsAll<T>(s: seq<T>, p: T -> bool)
    requires forall x :: x in s ==> p(x)
    ensures Filter(s, p) == s
  {
    if |s| > 0 {
      assert forall x :: x in s[1..] ==> x in s;
      FilterKeepsAll(s[1..], p);
    }
  }

  lemma {:induction false} FilterNone<T>(s: seq<T>, p: T -> bool)
    requires forall x :: x in s ==> !p(x)
    ensures Filter(s, p) == []
  {
    if |s| > 0 {
      assert forall x :: x in s[1..] ==> x in s;
      FilterNone(s[1..], p);
    }
  }

  lemma {:induction false} FilterComplete<T>(s: seq<T>, p: T -> bool, x: T)
    requires x in s && p(x)
    ensures x in Filter(s, p)
  {
    if s[0] != x {
      FilterComplete(s[1..], p, x);
    }
  }

  /** An element that passes the filter appears, mapped, in the mapped result. */
  lemma MapFilterMember<T, U>(s: seq<T>, p: T -> bool, g: T -> U, x: T)
    requires x in s && p(x)
    ensures g(x) in Map(Filter(s, p), g)
  {
    FilterComplete(s, p, x);
    var i :| 0 <= i < |Filter(s, p)| && Filter(s, p)[i] == x;
    assert Map(Filter(s, p), g)[i] == g(x);
  }

  /** Everything in the mapped result comes from an element that passed the filter. */
  lemma MapFilterSource<T, U>(s: seq<T>, p: T -> bool, g: T -> U, y: U) returns (x: T)
    requires y in Map(Filter(s, p), g)
    ensures x in s && p(x) && y == g(x)
  {
    var i :| 0 <= i < |Filter(s, p)| && Map(Filter(s, p), g)[i] == y;
    x := Filter(s, p)[i];
  }

  /** `a` is `b` with some elements deleted, order kept. */
  predicate IsSubsequence<T(==)>(a: seq<T>, b: seq<T>)
    decreases |b|
  {
    |a| == 0 ||
    (|b| > 0 && ((a[0] == b[0] && IsSubsequence(a[1..], b[1..])) || IsSubsequence(a, b[1..])))
  }

  lemma {:induction false} FilterIsSubsequence<T>(s: seq<T>, p: T -> bool)
    ensures IsSubsequence(Filter(s, p), s)
  {
    if |s| > 0 {
      FilterIsSubsequence(s[1..], p);
      if p(s[0]) {
        assert Filter(s, p)[1..] == Filter(s[1..], p);
      }
    }
  }

  /** Everything in a subsequence is in the sequence. */
  lemma {:induction false} SubsequenceIn<T>(a: seq<T>, b: seq<T>)
    requires IsSubsequence(a, b)
    ensures forall x :: x in a ==> x in b
    decreases |b|
  {
    if |a| > 0 {
      if a[0] == b[0] && IsSubsequence(a[1..], b[1..]) {
        SubsequenceIn(a[1..], b[1..]);
        assert forall x :: x in a ==> x == a[0] || x in a[1..];
      } else {
        SubsequenceIn(a, b[1..]);
      }
      assert forall x :: x in b[1..] ==> x in b;
    }
  }

  lemma {:induction false} SubsequenceReflexive<T>(a: seq<T>)
    ensures IsSubsequence(a, a)
  {
    if |a| > 0 {
      SubsequenceReflexive(a[1..]);
    }
  }

  lemma {:induction false} SubsequenceTransitive<T>(a: seq<T>, b: seq<T>, c: seq<T>)
    requires IsSubsequence(a, b) && IsSubsequence(b, c)
    ensures IsSubsequence(a, c)
    decreases |c|
  {
    if |a| == 0 {
    } else if |b| == 0 {
    } else if b[0] == c[0] && IsSubsequence(b[1..], c[1..]) {
      if a[0] == b[0] && IsSubsequence(a[1..], b[1..]) {
        SubsequenceTransitive(a[1..], b[1..], c[1..]);
      } else {
        SubsequenceTransitive(a, b[1..], c[1..]);
      }
    } else {
      SubsequenceTransitive(a, b, c[1..]);
    }
  }

  /** Apply `g` to every element, order kept. */
  function Map<T, U>(s: seq<T>, g: T -> U): (r: seq<U>)
    ensures |r| == |s| && forall i :: 0 <= i < |s| ==> r[i] == g(s[i])
  {
    seq(|s|, i requires 0 <= i < |s| => g(s[i]))
  }

  lemma MapCompose<T, U, V>(s: seq<T>, f: T -> U, g: U -> V, h: T -> V)
    requires forall x :: x in s ==> h(x) == g(f(x))
    ensures Map(Map(s, f), g) == Map(s, h)
  {
    assert forall i :: 0 <= i < |s| ==> s[i] in s;
  }

  lemma {:induction false} FilterCongruent<T>(s: seq<T>, p: T -> bool, q: T -> bool)
    requires forall x :: x in s ==> p(x) == q(x)
    ensures Filter(s, p) == Filter(s, q)
  {
    if |s| > 0 {
      assert forall x :: x in s[1..] ==> x in s;
      FilterCongruent(s[1..], p, q);
    }
  }

  /** Filtering after a map is filtering by the mapped test, then mapping. */
  lemma {:induction false} FilterMap<T, U>(s: seq<T>, g: T -> U, p: U -> bool, q: T -> bool)
    requires forall x :: x in s ==> q(x) == p(g(x))
    ensures Filter(Map(s, g), p) == Map(Filter(s, q), g)
  {
    if |s| > 0 {
      var m := Map(s, g);
      assert m[1..] == Map(s[1..], g);
      FilterMap(s[1..], g, p, q);
      assert s[0] in s && m[0] == g(s[0]);
      if q(s[0]) {
        var rest := Filter(s[1..], q);
        assert Map([s[0]] + rest, g) == [g(s[0])] + Map(rest, g);
      }
    }
  }

  /** Two filters in a row keep what passes both tests. */
  lemma {:induction false} FilterFilter<T>(s: seq<T>, p: T -> bool, q: T -> bool, both: T -> bool)
    requires forall x :: x in s ==> both(x) == (p(x) && q(x))
    ensures Filter(Filter(s, p), q) == Filter(s, both)
  {
    if |s| > 0 {
      assert forall x :: x in s[1..] ==> x in s;
      FilterFilter(s[1..], p, q, both);
    }
  }

  lemma {:induction false} MapSubsequence<T, U>(a: seq<T>, b: seq<T>, g: T -> U)
    requires IsSubsequence(a, b)
    ensures IsSubsequence(Map(a, g), Map(b, g))
    decreases |b|
  {
    if |a| > 0 {
      assert Map(a, g)[1..] == Map(a[1..], g);
      assert Map(b, g)[1..] == Map(b[1..], g);
      if a[0] == b[0] && IsSubsequence(a[1..], b[1..]) {
        MapSubsequence(a[1..], b[1..], g);
      } else {
        MapSubsequence(a, b[1..], g);
      }
    }
  }

  /** A DataFrame that pandas changes in place. */
  class Table {
    var columns: seq<string>
    var rows: seq<Row>

    predicate Valid()
      reads this
    {
      WellFormed(Frame(columns, rows))
    }

    function Snapshot(): Frame
      reads this
    {
      Frame(columns, rows)
    }

    constructor (f: Frame)
      requires WellFormed(f)
      ensures Valid() && Snapshot() == f
    {
      columns, rows := f.columns, f.rows;
    }

    /** `df[name] = values`. */
    method SetColumn(name: string, values: seq<Cell>)
      requires Valid() && |values| == |rows|
      modifies this
      ensures Valid() && Snapshot() == WithColumn(old(Snapshot()), name, values)
    {
      var g := WithColumn(Frame(columns, rows), name, values);
      columns, rows := g.columns, g.rows;
    }

    /** `df.columns = names`: relabel every column, keep the cells. */
    method Relabel(names: seq<string>)
      requires Valid() && |names| == |columns|
      modifies this
      ensures Valid() && Snapshot() == Frame(names, old(rows))
    {
      columns := names;
    }

    /** `df[df.columns[j]] = values` on a frame whose names do not repeat: column `j`
        takes the new cells. */
    method OverwriteColumn(j: nat, values: seq<Cell>)
      requires Valid() && j < |columns| && |values| == |rows|
      modifies this
      ensures Valid() && Snapshot() == Overwritten(old(Snapshot()), j, values)
    {
      var g := Overwritten(Frame(columns, rows), j, values);
      rows := g.rows;
    }

    /** `df.rename(columns={df.columns[j]: name}, inplace=True)` on a frame whose names
        do not repeat: column `j` takes the new name, every cell stays. */
    method RenameAt(j: nat, name: string)
      requires Valid() && j < |columns|
      modifies this
      ensures Valid() && Snapshot() == Frame(old(columns)[j := name], old(rows))
    {
      columns := columns[j := name];
    }

    /** Replace the whole content, as pandas does when a method rebinds a frame in place. */
    method Replace(f: Frame)
      requires WellFormed(f)
      modifies this
      ensures Valid() && Snapshot() == f
    {
      columns, rows := f.columns, f.rows;
    }
  }
}
