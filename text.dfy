/** String helpers with Python's semantics: lower/upper (ASCII), `in` on strings,
    `startswith`/`endswith`, `strip`, `rstrip(c)`, `split(sep)` and `str(n)`. */
module Text {
  import opened Wrappers

  function LowerChar(c: char): char {
    if 'A' <= c <= 'Z' then (c as int + 32) as char else c
  }

  function UpperChar(c: char): char {
    if 'a' <= c <= 'z' then (c as int - 32) as char else c
  }

  /** `s.lower()`, restricted to ASCII letters. */
  function Lower(s: string): (r: string)
    ensures |r| == |s|
  {
    seq(|s|, i requires 0 <= i < |s| => LowerChar(s[i]))
  }

  /** `s.upper()`, restricted to ASCII letters. */
  function Upper(s: string): (r: string)
    ensures |r| == |s|
  {
    seq(|s|, i requires 0 <= i < |s| => UpperChar(s[i]))
  }

  /** A text without upper-case letters is its own lower-case form. */
  lemma LowerOfLower(s: string)
    requires forall i :: 0 <= i < |s| ==> !('A' <= s[i] <= 'Z')
    ensures Lower(s) == s
  {
  }

  lemma LowerIdempotent(s: string)
    ensures Lower(Lower(s)) == Lower(s)
  {
  }

  predicate StartsWith(s: string, p: string) {
    |p| <= |s| && s[..|p|] == p
  }

  predicate EndsWith(s: string, p: string) {
    |p| <= |s| && s[|s| - |p|..] == p
  }

  /** Python's `p in s`. */
  predicate Contains(s: string, p: string)
    decreases |s|
  {
    StartsWith(s, p) || (|s| > 0 && Contains(s[1..], p))
  }

  /** A text contains whatever it ends with. */
  lemma {:induction false} ContainsAppended(a: string, p: string)
    ensures Contains(a + p, p)
    decreases |a|
  {
    if |a| > 0 {
      assert (a + p)[1..] == a[1..] + p;
      ContainsAppended(a[1..], p);
    } else {
      assert a + p == p;
    }
  }

  /** Whatever occurs in a text still occurs once more text follows it. */
  lemma {:induction false} ContainsPrefix(a: string, b: string, p: string)
    requires Contains(a, p)
    ensures Contains(a + b, p)
    decreases |a|
  {
    if StartsWith(a, p) {
      assert (a + b)[..|p|] == a[..|p|];
    } else {
      assert (a + b)[1..] == a[1..] + b;
      ContainsPrefix(a[1..], b, p);
    }
  }

  /** Nothing longer than a text occurs in it. */
  lemma {:induction false} ContainsShorter(s: string, p: string)
    requires |s| < |p|
    ensures !Contains(s, p)
    decreases |s|
  {
    if |s| > 0 {
      ContainsShorter(s[1..], p);
    }
  }

  /** `s.find(p)`: the first index at which `p` occurs, if any. */
  function IndexOf(s: string, p: string): (r: Option<nat>)
    ensures r.Some? ==> r.value + |p| <= |s| && s[r.value..r.value + |p|] == p
    ensures r.Some? <==> Contains(s, p)
    decreases |s|
  {
    if StartsWith(s, p) then Some(0)
    else if |s| == 0 then None
    else match IndexOf(s[1..], p)
      case None => None
      case Some(i) => Some(i + 1)
  }

  lemma {:induction false} IndexOfAbsent(s: string, c: char)
    requires c !in s
    ensures IndexOf(s, [c]) == None
    decreases |s|
  {
    if |s| > 0 {
      assert s[0] in s;
      assert !StartsWith(s, [c]) by { assert s[..1] == [s[0]]; }
      IndexOfAbsent(s[1..], c);
    }
  }

  lemma {:induction false} IndexOfFirst(a: string, c: char, b: string)
    requires c !in a
    ensures IndexOf(a + [c] + b, [c]) == Some(|a|)
    decreases |a|
  {
    if |a| > 0 {
      assert a[0] in a;
      assert !StartsWith(a + [c] + b, [c]) by { assert (a + [c] + b)[..1] == [a[0]]; }
      assert (a + [c] + b)[1..] == a[1..] + [c] + b;
      IndexOfFirst(a[1..], c, b);
    }
  }

  /** `s.split(sep)` for a non-empty separator. */
  function Split(s: string, sep: string): (r: seq<string>)
    requires |sep| > 0
    ensures |r| >= 1
    decreases |s|
  {
    match IndexOf(s, sep)
    case None => [s]
    case Some(i) => [s[..i]] + Split(s[i + |sep|..], sep)
  }

  lemma SplitAbsent(s: string, c: char)
    requires c !in s
    ensures Split(s, [c]) == [s]
  {
    IndexOfAbsent(s, c);
  }

  lemma SplitOnce(a: string, c: char, b: string)
    requires c !in a && c !in b
    ensures Split(a + [c] + b, [c]) == [a, b]
  {
    var s := a + [c] + b;
    IndexOfFirst(a, c, b);
    assert s[..|a|] == a;
    assert s[|a| + 1..] == b;
    SplitAbsent(b, c);
  }

  function Last<T>(s: seq<T>): T
    requires |s| > 0
  {
    s[|s| - 1]
  }

  /** The ASCII characters `str.strip()` removes: the space, tab, line feed, vertical tab,
      form feed and carriage return, and the four separators 0x1C to 0x1F. */
  predicate IsSpace(c: char) {
    c == ' ' || c == '\t' || c == '\n' || c == '\r' || c == 11 as char || c == 12 as char ||
    (28 as char <= c <= 31 as char)
  }

  function StripLeft(s: string): (r: string)
    ensures |r| <= |s|
    decreases |s|
  {
    if |s| > 0 && IsSpace(s[0]) then StripLeft(s[1..]) else s
  }

  function StripRight(s: string): (r: string)
    ensures |r| <= |s|
    decreases |s|
  {
    if |s| > 0 && IsSpace(s[|s| - 1]) then StripRight(s[..|s| - 1]) else s
  }

  /** `s.strip()`. */
  function Strip(s: string): string {
    StripRight(StripLeft(s))
  }

  /** Neither end of `s` is whitespace: what `strip` leaves behind. */
  predicate IsStripped(s: string) {
    |s| == 0 || (!IsSpace(s[0]) && !IsSpace(s[|s| - 1]))
  }

  lemma {:induction false} StripLeftSound(s: string)
    ensures |StripLeft(s)| == 0 || !IsSpace(StripLeft(s)[0])
    ensures StripLeft(s) == s[|s| - |StripLeft(s)|..]
    decreases |s|
  {
    if |s| > 0 && IsSpace(s[0]) {
      StripLeftSound(s[1..]);
    }
  }

  lemma {:induction false} StripRightSound(s: string)
    ensures |StripRight(s)| == 0 || !IsSpace(Last(StripRight(s)))
    ensures StripRight(s) == s[..|StripRight(s)|]
    decreases |s|
  {
    if |s| > 0 && IsSpace(s[|s| - 1]) {
      StripRightSound(s[..|s| - 1]);
    }
  }

  /** `strip` removes whitespace only at the ends and leaves a stripped string. */
  lemma StripIsStripped(s: string)
    ensures IsStripped(Strip(s))
  {
    var l := StripLeft(s);
    StripLeftSound(s);
    StripRightSound(l);
    var r := StripRight(l);
    if |r| > 0 {
      assert r[0] == l[0];
    }
  }

  lemma StripOfStripped(s: string)
    requires IsStripped(s)
    ensures Strip(s) == s
  {
  }

  /** Stripping a stripped text followed by one blank gives the text back. */
  lemma StripTrailingBlank(s: string)
    requires IsStripped(s)
    ensures Strip(s + " ") == s
  {
    var t := s + " ";
    if |s| == 0 {
      assert StripLeft(t) == "";
    } else {
      assert StripLeft(t) == t;
      assert t[..|t| - 1] == s;
      assert StripRight(t) == StripRight(s);
    }
  }

  lemma StripKeepsChars(s: string, c: char)
    requires c !in s
    ensures c !in Strip(s)
  {
    StripLeftSound(s);
    StripRightSound(StripLeft(s));
  }

  /** `s.rstrip(c)`: drop every trailing `c`. */
  function RStripChar(s: string, c: char): (r: string)
    ensures |r| <= |s|
    decreases |s|
  {
    if |s| > 0 && s[|s| - 1] == c then RStripChar(s[..|s| - 1], c) else s
  }

  function DigitChar(d: nat): char
    requires d < 10
  {
    ('0' as int + d) as char
  }

  /** `str(n)` for a non-negative integer. */
  function NatToString(n: nat): (r: string)
    ensures |r| > 0
    ensures forall i :: 0 <= i < |r| ==> '0' <= r[i] <= '9'
  {
    if n < 10 then [DigitChar(n)] else NatToString(n / 10) + [DigitChar(n % 10)]
  }

  /** Different numbers print differently. */
  lemma {:induction false} NatToStringInjective(a: nat, b: nat)
    ensures NatToString(a) == NatToString(b) ==> a == b
    decreases a
  {
    var s := NatToString(a);
    if s == NatToString(b) {
      if a >= 10 && b >= 10 {
        assert s[..|s| - 1] == NatToString(a / 10) == NatToString(b / 10);
        NatToStringInjective(a / 10, b / 10);
        assert DigitChar(a % 10) == s[|s| - 1] == DigitChar(b % 10);
      } else if a >= 10 || b >= 10 {
        assert false;
      }
    }
  }

  predicate AllDigits(s: string) {
    forall i :: 0 <= i < |s| ==> '0' <= s[i] <= '9'
  }

  /** `a + "_" + s` with `s` all digits splits back into `a` and `s` in one way only. */
  lemma SuffixedParts(a: string, s: string, b: string, t: string)
    requires AllDigits(s) && AllDigits(t)
    ensures a + "_" + s == b + "_" + t ==> a == b && s == t
  {
    var x := a + "_" + s;
    if x == b + "_" + t {
      assert x[|a|] == '_';
      assert x[|b|] == '_';
      if |a| > |b| {
        assert false;
      } else if |a| < |b| {
        assert false;
      }
      assert a == x[..|a|] && b == x[..|b|];
      assert s == x[|a| + 1..] && t == x[|b| + 1..];
    }
  }
}
