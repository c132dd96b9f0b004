/** The string operations the schema setters and the bearer-header parsing rely on:
    `toLowerCase`, `trim` and `split` on ASCII text. */
module Strings {

  predicate IsUpper(c: char) {
    'A' <= c <= 'Z'
  }

  function LowerChar(c: char): (d: char)
    ensures !IsUpper(d)
    ensures !IsUpper(c) ==> d == c
    ensures IsUpper(c) ==> d as int == c as int + 32
  {
    if IsUpper(c) then (c as int + 32) as char else c
  }

  predicate IsLowercase(s: string) {
    forall i :: 0 <= i < |s| ==> !IsUpper(s[i])
  }

  /** `String.prototype.toLowerCase` restricted to ASCII letters. */
  function Lower(s: string): (r: string)
    ensures |r| == |s|
    ensures IsLowercase(r)
    ensures forall i :: 0 <= i < |s| ==> r[i] == LowerChar(s[i])
  {
    if s == [] then [] else [LowerChar(s[0])] + Lower(s[1..])
  }

  /** Lowercasing leaves lowercase text alone, so it is idempotent. */
  lemma {:induction false} LowerOfLowercase(s: string)
    requires IsLowercase(s)
    ensures Lower(s) == s
  {
    if s != [] {
      LowerOfLowercase(s[1..]);
    }
  }

  lemma LowerIdempotent(s: string)
    ensures Lower(Lower(s)) == Lower(s)
  {
    LowerOfLowercase(Lower(s));
  }

  /** The whitespace `String.prototype.trim` removes, restricted to ASCII. */
  predicate IsSpace(c: char) {
    c == ' ' || c == '\t' || c == '\n' || c == '\r' || c == '\U{B}' || c == '\U{C}'
  }

  predicate IsTrimmed(s: string) {
    s == [] || (!IsSpace(s[0]) && !IsSpace(s[|s| - 1]))
  }

  predicate AllSpace(s: string) {
    forall k :: 0 <= k < |s| ==> IsSpace(s[k])
  }

  /** `r` is `s` with a run of leading and a run of trailing whitespace cut off. */
  ghost predicate CutsSpace(s: string, r: string) {
    exists i, j :: 0 <= i <= j <= |s| && r == s[i..j] && AllSpace(s[..i]) && AllSpace(s[j..])
  }

  /** `String.prototype.trim`: the text without leading and trailing whitespace. */
  function Trim(s: string): (r: string)
    ensures IsTrimmed(r)
    ensures r == [] <==> AllSpace(s)
    ensures IsTrimmed(s) ==> r == s
    ensures |r| <= |s|
    decreases |s|
  {
    if s == [] then []
    else if IsSpace(s[0]) then
      var r := Trim(s[1..]);
      assert AllSpace(s) <==> AllSpace(s[1..]) by {
        assert forall k :: 0 <= k < |s[1..]| ==> s[1..][k] == s[k + 1];
      }
      r
    else if IsSpace(s[|s| - 1]) then
      var r := Trim(s[..|s| - 1]);
      assert !AllSpace(s[..|s| - 1]) by {
        assert s[..|s| - 1][0] == s[0];
      }
      r
    else s
  }

  /** What `Trim` keeps is the input itself, cut after a leading run of whitespace and
      before a trailing one: trimming removes whitespace and nothing else. */
  lemma {:induction false} TrimCutsSpace(s: string)
    ensures CutsSpace(s, Trim(s))
    decreases |s|
  {
    if s == [] {
      assert Trim(s) == s[0..0] && s[..0] == [] && s[0..] == [];
    } else if IsSpace(s[0]) {
      assert Trim(s) == Trim(s[1..]);
      TrimCutsSpace(s[1..]);
      CutsSpaceAfterLeading(s, Trim(s));
    } else if IsSpace(s[|s| - 1]) {
      assert Trim(s) == Trim(s[..|s| - 1]);
      TrimCutsSpace(s[..|s| - 1]);
      CutsSpaceBeforeTrailing(s, Trim(s));
    } else {
      assert Trim(s) == s[0..|s|] && s[..0] == [] && s[|s|..] == [];
    }
  }

  lemma CutsSpaceAfterLeading(s: string, r: string)
    requires s != [] && IsSpace(s[0]) && CutsSpace(s[1..], r)
    ensures CutsSpace(s, r)
  {
    var t := s[1..];
    var i, j :| 0 <= i <= j <= |t| && r == t[i..j] && AllSpace(t[..i]) && AllSpace(t[j..]);
    assert t[i..j] == s[i + 1..j + 1];
    var lead := s[..i + 1];
    forall k | 0 <= k < |lead| ensures IsSpace(lead[k]) {
      if k > 0 {
        assert lead[k] == t[..i][k - 1];
      }
    }
    assert s[j + 1..] == t[j..];
    assert AllSpace(s[..i + 1]) && AllSpace(s[j + 1..]);
  }

  lemma CutsSpaceBeforeTrailing(s: string, r: string)
    requires s != [] && IsSpace(s[|s| - 1]) && CutsSpace(s[..|s| - 1], r)
    ensures CutsSpace(s, r)
  {
    var t := s[..|s| - 1];
    var i, j :| 0 <= i <= j <= |t| && r == t[i..j] && AllSpace(t[..i]) && AllSpace(t[j..]);
    assert t[i..j] == s[i..j];
    assert s[..i] == t[..i];
    var trail := s[j..];
    forall k | 0 <= k < |trail| ensures IsSpace(trail[k]) {
      if k < |t| - j {
        assert trail[k] == t[j..][k];
      }
    }
    assert AllSpace(s[..i]) && AllSpace(s[j..]);
  }

  /** `String.prototype.split(sep)` for a one-character separator: the fields between separators. */
  function Split(s: string, sep: char): (r: seq<string>)
    ensures |r| >= 1
  {
    if s == [] then [""]
    else
      var rest := Split(s[1..], sep);
      if s[0] == sep then [""] + rest else [[s[0]] + rest[0]] + rest[1..]
  }

  /** The text of `s` up to (not including) its first `sep`. */
  function UpTo(s: string, sep: char): (r: string)
    ensures |r| <= |s| && r == s[..|r|]
    ensures sep !in r
    ensures |r| < |s| ==> s[|r|] == sep
  {
    if s == [] || s[0] == sep then [] else [s[0]] + UpTo(s[1..], sep)
  }

  /** The first field of a split is the text before the first separator. */
  lemma {:induction false} SplitFirstField(s: string, sep: char)
    ensures Split(s, sep)[0] == UpTo(s, sep)
  {
    if s != [] && s[0] != sep {
      SplitFirstField(s[1..], sep);
    }
  }

  /** Splitting a separator-free word followed by the separator peels the word off as a field. */
  lemma {:induction false} SplitAfterWord(w: string, sep: char, t: string)
    requires sep !in w
    ensures Split(w + [sep] + t, sep) == [w] + Split(t, sep)
  {
    if w == [] {
      assert [sep] + t == w + [sep] + t;
      assert ([sep] + t)[1..] == t;
    } else {
      assert (w + [sep] + t)[1..] == w[1..] + [sep] + t;
      SplitAfterWord(w[1..], sep, t);
      assert [w[0]] + w[1..] == w;
    }
  }
}
