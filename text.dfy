/**
 * The Python string operations the invoice generator relies on:
 * `str.replace`, `str.strip`, `sep.join` and `str.split(sep)`.
 */
module Text {

  /** `pat` occurs in `s` starting at index `j`. */
  predicate MatchAt(s: string, pat: string, j: int) {
    0 <= j && j + |pat| <= |s| && s[j..j + |pat|] == pat
  }

  /** `pat` occurs somewhere in `s`. */
  predicate Occurs(pat: string, s: string) {
    exists j | 0 <= j <= |s| :: MatchAt(s, pat, j)
  }

  /** `s` begins with `p`. */
  predicate StartsWith(s: string, p: string) {
    |p| <= |s| && s[..|p|] == p
  }

  /**
   * `s.replace(pat, rep)`: scans left to right and replaces every
   * non-overlapping occurrence of `pat` by `rep`.
   */
  function ReplaceAll(s: string, pat: string, rep: string): string
    requires pat != []
    decreases |s|
  {
    if |s| < |pat| then s
    else if s[..|pat|] == pat then rep + ReplaceAll(s[|pat|..], pat, rep)
    else [s[0]] + ReplaceAll(s[1..], pat, rep)
  }

  /** Replacing a pattern that does not occur changes nothing. */
  lemma {:induction false} ReplaceAllAbsent(s: string, pat: string, rep: string)
    requires pat != []
    requires !Occurs(pat, s)
    ensures ReplaceAll(s, pat, rep) == s
    decreases |s|
  {
    if |s| >= |pat| {
      assert !MatchAt(s, pat, 0);
      assert s[0..|pat|] == s[..|pat|];
      forall j | MatchAt(s[1..], pat, j) ensures MatchAt(s, pat, j + 1) {
        assert s[1..][j..j + |pat|] == s[j + 1..j + 1 + |pat|];
      }
      ReplaceAllAbsent(s[1..], pat, rep);
      assert [s[0]] + s[1..] == s;
    }
  }

  /** No occurrence of `pat` in `a + c` starts in `a` and ends in `c`. */
  predicate NoStraddle(a: string, c: string, pat: string) {
    forall j :: 0 <= j < |a| < j + |pat| ==> !MatchAt(a + c, pat, j)
  }

  /** Dropping a prefix of `a` keeps the boundary free of straddling occurrences. */
  lemma NoStraddleTail(a: string, c: string, pat: string, k: nat)
    requires k <= |a| && NoStraddle(a, c, pat)
    ensures NoStraddle(a[k..], c, pat)
  {
    var a' := a[k..];
    assert (a + c)[k..] == a' + c;
    forall j | 0 <= j < |a'| < j + |pat| ensures !MatchAt(a' + c, pat, j) {
      if j + |pat| <= |a' + c| {
        assert (a' + c)[j..j + |pat|] == (a + c)[j + k..j + k + |pat|];
        assert !MatchAt(a + c, pat, j + k);
      }
    }
  }

  /**
   * When no occurrence of `pat` straddles the boundary between `a` and `c`,
   * replacing in `a + c` is replacing in each part separately.
   */
  lemma {:induction false} ReplaceAllSplits(a: string, c: string, pat: string, rep: string)
    requires pat != []
    requires NoStraddle(a, c, pat)
    ensures ReplaceAll(a + c, pat, rep) == ReplaceAll(a, pat, rep) + ReplaceAll(c, pat, rep)
    decreases |a|
  {
    var s := a + c;
    if a == [] {
      assert s == c;
    } else if |s| < |pat| {
    } else if s[..|pat|] == pat {
      assert MatchAt(s, pat, 0) by { assert s[0..|pat|] == s[..|pat|]; }
      assert |pat| <= |a|;
      assert a[..|pat|] == pat;
      assert s[|pat|..] == a[|pat|..] + c;
      NoStraddleTail(a, c, pat, |pat|);
      ReplaceAllSplits(a[|pat|..], c, pat, rep);
    } else {
      var a' := a[1..];
      assert s[1..] == a' + c;
      NoStraddleTail(a, c, pat, 1);
      ReplaceAllSplits(a', c, pat, rep);
      if |a| < |pat| {
        assert [a[0]] + a' == a;
      } else {
        assert a[..|pat|] == s[..|pat|];
      }
    }
  }

  /** Replacing a single character splits over concatenation: no occurrence can straddle. */
  lemma ReplaceCharSplits(a: string, c: string, ch: char, rep: string)
    ensures ReplaceAll(a + c, [ch], rep) == ReplaceAll(a, [ch], rep) + ReplaceAll(c, [ch], rep)
  {
    ReplaceAllSplits(a, c, [ch], rep);
  }

  /** After replacing character `ch` by a text that lacks it, `ch` is gone. */
  lemma {:induction false} ReplaceCharRemoves(s: string, ch: char, rep: string)
    requires ch !in rep
    ensures ch !in ReplaceAll(s, [ch], rep)
    decreases |s|
  {
    if |s| >= 1 {
      ReplaceCharRemoves(s[1..], ch, rep);
      assert s[..1] == [ch] <==> s[0] == ch;
    }
  }

  /** Every character of a replacement result comes from the input or from the replacement text. */
  lemma {:induction false} ReplaceAllChars(s: string, pat: string, rep: string, x: char)
    requires pat != []
    requires x in ReplaceAll(s, pat, rep)
    ensures x in s || x in rep
    decreases |s|
  {
    if |s| < |pat| {
    } else if s[..|pat|] == pat {
      var t := ReplaceAll(s[|pat|..], pat, rep);
      if x !in rep {
        assert x in t;
        ReplaceAllChars(s[|pat|..], pat, rep, x);
      }
    } else {
      var t := ReplaceAll(s[1..], pat, rep);
      if x != s[0] {
        assert x in t;
        ReplaceAllChars(s[1..], pat, rep, x);
      }
    }
  }

  /** Python's `str.isspace`: the characters `str.strip()` removes. */
  predicate IsSpace(c: char) {
    c == ' ' || ('\t' <= c <= '\r') || ('\U{1C}' <= c <= '\U{1F}') || c == '\U{85}' || c == '\U{A0}'
    || c == '\U{1680}' || ('\U{2000}' <= c <= '\U{200A}') || c == '\U{2028}' || c == '\U{2029}'
    || c == '\U{202F}' || c == '\U{205F}' || c == '\U{3000}'
  }

  function TrimStart(s: string): string
    decreases |s|
  {
    if s != [] && IsSpace(s[0]) then TrimStart(s[1..]) else s
  }

  function TrimEnd(s: string): string
    decreases |s|
  {
    if s != [] && IsSpace(s[|s| - 1]) then TrimEnd(s[..|s| - 1]) else s
  }

  /** `s.strip()`: leading and trailing whitespace removed. */
  function Strip(s: string): string {
    TrimEnd(TrimStart(s))
  }

  lemma {:induction false} TrimStartShape(s: string)
    ensures var r := TrimStart(s);
      (exists i :: 0 <= i <= |s| && r == s[i..] && forall k :: 0 <= k < i ==> IsSpace(s[k]))
      && (r != [] ==> !IsSpace(r[0]))
    decreases |s|
  {
    if s != [] && IsSpace(s[0]) {
      TrimStartShape(s[1..]);
      var i :| 0 <= i <= |s[1..]| && TrimStart(s[1..]) == s[1..][i..]
        && forall k :: 0 <= k < i ==> IsSpace(s[1..][k]);
      assert s[1..][i..] == s[i + 1..];
      assert forall k :: 0 <= k < i + 1 ==> IsSpace(s[k]) by {
        forall k | 0 <= k < i + 1 ensures IsSpace(s[k]) {
          if k > 0 { assert s[k] == s[1..][k - 1]; }
        }
      }
    } else {
      assert s == s[0..];
    }
  }

  lemma {:induction false} TrimEndShape(s: string)
    ensures var r := TrimEnd(s);
      (exists j :: 0 <= j <= |s| && r == s[..j] && forall k :: j <= k < |s| ==> IsSpace(s[k]))
      && (r != [] ==> !IsSpace(r[|r| - 1]))
    decreases |s|
  {
    if s != [] && IsSpace(s[|s| - 1]) {
      var p := s[..|s| - 1];
      TrimEndShape(p);
      var j :| 0 <= j <= |p| && TrimEnd(p) == p[..j] && forall k :: j <= k < |p| ==> IsSpace(p[k]);
      assert p[..j] == s[..j];
      assert forall k :: j <= k < |s| ==> IsSpace(s[k]) by {
        forall k | j <= k < |s| ensures IsSpace(s[k]) {
          if k < |s| - 1 { assert s[k] == p[k]; }
        }
      }
    } else {
      assert s == s[..|s|];
    }
  }

  /** A prefix of a suffix is a slice. */
  lemma SliceOfSuffix(s: string, i: nat, j: nat)
    requires i <= |s| && j <= |s| - i
    ensures s[i..][..j] == s[i..i + j]
  {
  }

  /** Whitespace after position `j` of `s[i..]` is whitespace after position `i + j` of `s`. */
  lemma SpaceSuffixShift(s: string, i: nat, j: nat)
    requires i <= |s| && j <= |s| - i
    requires forall k :: j <= k < |s[i..]| ==> IsSpace(s[i..][k])
    ensures forall k :: i + j <= k < |s| ==> IsSpace(s[k])
  {
    forall k | i + j <= k < |s| ensures IsSpace(s[k]) {
      assert s[k] == s[i..][k - i];
    }
  }

  /** The cut points of `s.strip()`: where the whitespace prefix ends and the whitespace suffix begins. */
  lemma StripCut(s: string) returns (i: nat, j: nat)
    ensures i <= j <= |s| && Strip(s) == s[i..j]
    ensures forall k :: 0 <= k < i ==> IsSpace(s[k])
    ensures forall k :: j <= k < |s| ==> IsSpace(s[k])
  {
    TrimStartShape(s);
    i :| i <= |s| && TrimStart(s) == s[i..] && forall k :: 0 <= k < i ==> IsSpace(s[k]);
    var t := s[i..];
    TrimEndShape(t);
    var m :| 0 <= m <= |t| && TrimEnd(t) == t[..m] && forall k :: m <= k < |t| ==> IsSpace(t[k]);
    SliceOfSuffix(s, i, m);
    SpaceSuffixShift(s, i, m);
    j := i + m;
  }

  /** `s.strip()` is the slice of `s` left after dropping a whitespace prefix and a whitespace suffix. */
  lemma StripSlice(s: string)
    ensures exists i, j ::
              && 0 <= i <= j <= |s| && Strip(s) == s[i..j]
              && (forall k :: 0 <= k < i ==> IsSpace(s[k]))
              && (forall k :: j <= k < |s| ==> IsSpace(s[k]))
  {
    var i, j := StripCut(s);
  }

  /** `s.strip()` neither begins nor ends with whitespace. */
  lemma StripEnds(s: string)
    ensures var r := Strip(s);
      r != [] ==> !IsSpace(r[0]) && !IsSpace(r[|r| - 1])
  {
    var t := TrimStart(s);
    TrimStartShape(s);
    TrimEndShape(t);
    var r := TrimEnd(t);
    if r != [] {
      var j :| 0 <= j <= |t| && r == t[..j];
      assert r[0] == t[0];
    }
  }

  /** `s.strip()` is empty exactly when every character of `s` is whitespace. */
  lemma StripEmpty(s: string)
    ensures Strip(s) == [] <==> forall k :: 0 <= k < |s| ==> IsSpace(s[k])
  {
    var t := TrimStart(s);
    TrimStartShape(s);
    var i :| 0 <= i <= |s| && t == s[i..] && forall k :: 0 <= k < i ==> IsSpace(s[k]);
    TrimEndShape(t);
    var j :| 0 <= j <= |t| && TrimEnd(t) == t[..j] && forall k :: j <= k < |t| ==> IsSpace(t[k]);
    if Strip(s) == [] {
      assert j == 0;
      assert i == |s|;
    } else {
      assert j > 0 && !IsSpace(t[0]) && t[0] == s[i];
    }
  }

  /** `sep.join(parts)`. */
  function Join(parts: seq<string>, sep: char): string
    decreases |parts|
  {
    if parts == [] then []
    else if |parts| == 1 then parts[0]
    else parts[0] + [sep] + Join(parts[1..], sep)
  }

  /** `s.split(sep)` with an explicit one-character separator: always at least one part. */
  function Split(s: string, sep: char): (parts: seq<string>)
    ensures |parts| >= 1
    decreases |s|
  {
    if s == [] then [[]]
    else
      var rest := Split(s[1..], sep);
      if s[0] == sep then [[]] + rest else [[s[0]] + rest[0]] + rest[1..]
  }

  /** A text without the separator splits into itself. */
  lemma {:induction false} SplitNoSep(s: string, sep: char)
    requires sep !in s
    ensures Split(s, sep) == [s]
    decreases |s|
  {
    if s != [] {
      SplitNoSep(s[1..], sep);
      assert [s[0]] + s[1..] == s;
    }
  }

  /** Splitting at the first separator peels off the text before it. */
  lemma {:induction false} SplitAtFirst(a: string, b: string, sep: char)
    requires sep !in a
    ensures Split(a + [sep] + b, sep) == [a] + Split(b, sep)
    decreases |a|
  {
    if a == [] {
      assert a + [sep] + b == [sep] + b;
      assert ([sep] + b)[1..] == b;
    } else {
      SplitAtFirst(a[1..], b, sep);
      assert (a + [sep] + b)[1..] == a[1..] + [sep] + b;
      assert [a[0]] + a[1..] == a;
    }
  }

  /** Joining parts that lack the separator and splitting again gives the parts back. */
  lemma {:induction false} SplitJoin(parts: seq<string>, sep: char)
    requires |parts| >= 1
    requires forall i :: 0 <= i < |parts| ==> sep !in parts[i]
    ensures Split(Join(parts, sep), sep) == parts
    decreases |parts|
  {
    if |parts| == 1 {
      SplitNoSep(parts[0], sep);
    } else {
      SplitJoin(parts[1..], sep);
      SplitAtFirst(parts[0], Join(parts[1..], sep), sep);
      assert [parts[0]] + parts[1..] == parts;
    }
  }
}
