/**
 * The parts of Python's `str` that the command builder relies on:
 * `s.split(sep)` with an explicit one-character separator, `sep.join(parts)`
 * and the argument-less `s.strip()`.
 */
module PyStr {

  /** The position of the first `c` in `s`. */
  function IndexOf(s: string, c: char): (i: nat)
    requires c in s
    ensures i < |s| && s[i] == c && c !in s[..i]
  {
    if s[0] == c then 0 else 1 + IndexOf(s[1..], c)
  }

  /** `s.split(sep)`: every occurrence of `sep` separates two pieces, so
      empty pieces are kept and the result is never empty (`"".split(" ") == [""]`). */
  function Split(s: string, sep: char): (parts: seq<string>)
    ensures |parts| >= 1
    decreases |s|
  {
    if sep !in s then [s]
    else
      var i := IndexOf(s, sep);
      [s[..i]] + Split(s[i + 1..], sep)
  }

  /** `sep.join(parts)` for a one-character separator. */
  function Join(parts: seq<string>, sep: char): string
  {
    if |parts| == 0 then ""
    else if |parts| == 1 then parts[0]
    else parts[0] + [sep] + Join(parts[1..], sep)
  }

  function Last<T>(s: seq<T>): T
    requires |s| > 0
  {
    s[|s| - 1]
  }

  /** `s.endswith(suffix)`. */
  predicate EndsWith(s: string, suffix: string)
  {
    |suffix| <= |s| && s[|s| - |suffix|..] == suffix
  }

  /** The first occurrence is determined by "is `c`, with no `c` before it". */
  lemma IndexOfUnique(s: string, c: char, j: nat)
    requires j < |s| && s[j] == c && c !in s[..j]
    ensures IndexOf(s, c) == j
  {
  }

  /** No piece contains the separator. */
  lemma {:induction false} SplitPiecesFree(s: string, sep: char)
    ensures forall k :: 0 <= k < |Split(s, sep)| ==> sep !in Split(s, sep)[k]
    decreases |s|
  {
    if sep in s {
      var i := IndexOf(s, sep);
      SplitPiecesFree(s[i + 1..], sep);
      var rest := Split(s[i + 1..], sep);
      forall k | 0 <= k < |Split(s, sep)| ensures sep !in Split(s, sep)[k] {
        if k > 0 {
          assert Split(s, sep)[k] == rest[k - 1];
        }
      }
    }
  }

  /** A string free of the separator is one piece. */
  lemma SplitNoSeparator(s: string, sep: char)
    requires sep !in s
    ensures Split(s, sep) == [s]
  {
  }

  /** The first separator ends the first piece. */
  lemma SplitAtSeparator(a: string, b: string, sep: char)
    requires sep !in a
    ensures Split(a + [sep] + b, sep) == [a] + Split(b, sep)
  {
    var s := a + [sep] + b;
    assert s[..|a|] == a;
    IndexOfUnique(s, sep, |a|);
    assert s[|a| + 1..] == b;
  }

  /** A separator-free suffix glues onto the last piece of what precedes it. */
  lemma {:induction false} SplitSuffix(a: string, b: string, sep: char)
    requires sep !in b
    ensures var p := Split(a, sep);
      Split(a + b, sep) == p[..|p| - 1] + [Last(p) + b]
    decreases |a|
  {
    var s := a + b;
    if sep in a {
      var i := IndexOf(a, sep);
      assert s[..i] == a[..i];
      IndexOfUnique(s, sep, i);
      assert s[i + 1..] == a[i + 1..] + b;
      SplitSuffix(a[i + 1..], b, sep);
      var p, r := Split(a, sep), Split(a[i + 1..], sep);
      assert p == [a[..i]] + r;
      assert p[..|p| - 1] == [a[..i]] + r[..|r| - 1];
      assert Last(p) == Last(r);
      assert Split(s, sep) == [a[..i]] + Split(a[i + 1..] + b, sep);
    } else {
      assert sep !in s;
    }
  }

  /** A separator at the very end leaves an empty last piece. */
  lemma {:induction false} SplitTrailingSeparator(s: string, sep: char)
    ensures Split(s + [sep], sep) == Split(s, sep) + [""]
    decreases |s|
  {
    var t := s + [sep];
    if sep in s {
      var i := IndexOf(s, sep);
      assert t[..i] == s[..i];
      IndexOfUnique(t, sep, i);
      assert t[i + 1..] == s[i + 1..] + [sep];
      SplitTrailingSeparator(s[i + 1..], sep);
      assert Split(t, sep) == [s[..i]] + Split(s[i + 1..] + [sep], sep);
      assert Split(s, sep) == [s[..i]] + Split(s[i + 1..], sep);
    } else {
      assert t[..|s|] == s;
      IndexOfUnique(t, sep, |s|);
      assert t[|s| + 1..] == "";
    }
  }

  /** A character that is neither the separator nor in any piece is not in the joined string. */
  lemma {:induction false} JoinAvoids(parts: seq<string>, sep: char, c: char)
    requires c != sep
    requires forall i :: 0 <= i < |parts| ==> c !in parts[i]
    ensures c !in Join(parts, sep)
    decreases |parts|
  {
    if |parts| > 1 {
      JoinAvoids(parts[1..], sep, c);
    }
  }

  /** Splitting loses nothing: joining the pieces with the separator rebuilds the string. */
  lemma {:induction false} JoinSplit(s: string, sep: char)
    ensures Join(Split(s, sep), sep) == s
    decreases |s|
  {
    if sep in s {
      var i := IndexOf(s, sep);
      var rest := Split(s[i + 1..], sep);
      JoinSplit(s[i + 1..], sep);
      assert ([s[..i]] + rest)[1..] == rest;
      assert s[..i] + [sep] + s[i + 1..] == s;
    }
  }

  /** Joining separator-free pieces and splitting again gives the pieces back. */
  lemma {:induction false} SplitJoin(parts: seq<string>, sep: char)
    requires |parts| >= 1
    requires forall i :: 0 <= i < |parts| ==> sep !in parts[i]
    ensures Split(Join(parts, sep), sep) == parts
    decreases |parts|
  {
    if |parts| > 1 {
      SplitJoin(parts[1..], sep);
      SplitAtSeparator(parts[0], Join(parts[1..], sep), sep);
      assert [parts[0]] + parts[1..] == parts;
    }
  }

  /** The whitespace that `str.strip()` removes: the characters for which
      `str.isspace()` holds. */
  predicate IsSpace(c: char)
  {
    c in {' ', '\t', '\n', '\r', '\U{0B}', '\U{0C}', '\U{1C}', '\U{1D}', '\U{1E}', '\U{1F}',
          '\U{85}', '\U{A0}', '\U{1680}', '\U{2000}', '\U{2001}', '\U{2002}', '\U{2003}',
          '\U{2004}', '\U{2005}', '\U{2006}', '\U{2007}', '\U{2008}', '\U{2009}', '\U{200A}',
          '\U{2028}', '\U{2029}', '\U{202F}', '\U{205F}', '\U{3000}'}
  }

  /** `s.lstrip()`: the longest suffix of `s` that does not start with whitespace. */
  function StripLeft(s: string): (r: string)
    ensures |r| <= |s| && r == s[|s| - |r|..]
    ensures forall i :: 0 <= i < |s| - |r| ==> IsSpace(s[i])
    ensures |r| > 0 ==> !IsSpace(r[0])
  {
    if |s| > 0 && IsSpace(s[0]) then StripLeft(s[1..]) else s
  }

  /** `s.rstrip()`: the longest prefix of `s` that does not end with whitespace. */
  function StripRight(s: string): (r: string)
    ensures |r| <= |s| && r == s[..|r|]
    ensures forall i :: |r| <= i < |s| ==> IsSpace(s[i])
    ensures |r| > 0 ==> !IsSpace(r[|r| - 1])
  {
    if |s| > 0 && IsSpace(s[|s| - 1]) then StripRight(s[..|s| - 1]) else s
  }

  /** `s.strip()`. */
  function Strip(s: string): string
  {
    StripRight(StripLeft(s))
  }

  /** Only whitespace, or nothing at all. */
  predicate IsBlank(s: string)
  {
    |s| == 0 || (IsSpace(s[0]) && IsBlank(s[1..]))
  }

  /** `IsBlank` holds exactly when every character is whitespace. */
  lemma {:induction false} IsBlankEvery(s: string)
    ensures IsBlank(s) <==> forall i :: 0 <= i < |s| ==> IsSpace(s[i])
  {
    if |s| > 0 {
      IsBlankEvery(s[1..]);
      assert forall i :: 1 <= i < |s| ==> s[i] == s[1..][i - 1];
    }
  }

  /** `s.strip()` is falsy exactly when `s` holds nothing but whitespace. */
  lemma StripEmptyIff(s: string)
    ensures Strip(s) == "" <==> IsBlank(s)
  {
    IsBlankEvery(s);
    var l := StripLeft(s);
    var k := |s| - |l|;
    assert forall i :: k <= i < |s| ==> s[i] == l[i - k];
  }
}
