/** Whitespace and trimming shared by both pipelines.
    One whitespace predicate (the ASCII set " \t\n\r\f\v") stands both for what
    Python's `str.strip()` removes and for what the regex class `\s` matches. */
module Text {

  predicate IsSpace(c: char) {
    c == ' ' || c == '\t' || c == '\n' || c == '\r' || c == '\U{000B}' || c == '\U{000C}'
  }

  predicate AllSpace(s: string) {
    forall i :: 0 <= i < |s| ==> IsSpace(s[i])
  }

  /** Concatenation regroups freely. */
  lemma Associate(x: string, y: string, z: string)
    ensures x + (y + z) == (x + y) + z
  {
  }

  /** Every character of `s` from index `lo` up to `hi` is whitespace. */
  predicate SpaceRun(s: string, lo: int, hi: int) {
    forall k :: lo <= k < hi && 0 <= k < |s| ==> IsSpace(s[k])
  }

  /** No whitespace at either end. */
  predicate Stripped(s: string) {
    s == [] || (!IsSpace(s[0]) && !IsSpace(s[|s| - 1]))
  }

  /** `r` is `s` with some whitespace removed at its two ends. */
  ghost predicate TrimmedFrom(r: string, s: string) {
    exists i, j :: 0 <= i <= j <= |s| && r == s[i..j] && SpaceRun(s, 0, i) && SpaceRun(s, j, |s|)
  }

  /** Python's `s.lstrip()`. */
  function TrimStart(s: string): (r: string)
    ensures |r| <= |s| && r == s[|s| - |r|..]
    ensures SpaceRun(s, 0, |s| - |r|)
    ensures r == [] || !IsSpace(r[0])
  {
    if s != [] && IsSpace(s[0]) then TrimStart(s[1..]) else s
  }

  /** Python's `s.rstrip()`. */
  function TrimEnd(s: string): (r: string)
    ensures |r| <= |s| && r == s[..|r|]
    ensures SpaceRun(s, |r|, |s|)
    ensures r == [] || !IsSpace(r[|r| - 1])
  {
    if s != [] && IsSpace(s[|s| - 1]) then TrimEnd(s[..|s| - 1]) else s
  }

  /** A run of whitespace, sliced out, is all whitespace. */
  lemma SpaceRunSlice(s: string, lo: int, hi: int)
    requires 0 <= lo <= hi <= |s| && SpaceRun(s, lo, hi)
    ensures AllSpace(s[lo..hi])
  {
    forall i | 0 <= i < hi - lo
      ensures IsSpace(s[lo..hi][i])
    {
      assert s[lo..hi][i] == s[lo + i];
    }
  }

  lemma TrimStartEmpty(s: string)
    ensures TrimStart(s) == [] <==> AllSpace(s)
  {
    var r := TrimStart(s);
    if r != [] {
      assert r[0] == s[|s| - |r|];
    }
  }

  lemma TrimEndEmpty(s: string)
    ensures TrimEnd(s) == [] <==> AllSpace(s)
  {
    var r := TrimEnd(s);
    if r != [] {
      assert r[|r| - 1] == s[|r| - 1];
    }
  }

  lemma TrimBothIsSlice(s: string)
    ensures TrimmedFrom(TrimEnd(TrimStart(s)), s)
  {
    var t := TrimStart(s);
    var k := |s| - |t|;
    var r := TrimEnd(t);
    var j := k + |r|;
    assert r == s[k..j] by {
      assert t == s[k..] && r == t[..|r|];
    }
    assert forall m :: j <= m < |s| ==> s[m] == t[m - k];
  }

  lemma TrimBothEmpty(s: string)
    ensures TrimEnd(TrimStart(s)) == [] <==> AllSpace(s)
  {
    TrimStartEmpty(s);
    TrimEndEmpty(TrimStart(s));
  }

  /** Python's `s.strip()`: the longest slice of `s` with no whitespace at its ends. */
  function Strip(s: string): (r: string)
    ensures Stripped(r)
    ensures TrimmedFrom(r, s)
    ensures r == [] <==> AllSpace(s)
  {
    var t := TrimStart(s);
    var r := TrimEnd(t);
    TrimBothIsSlice(s);
    TrimBothEmpty(s);
    assert r != [] ==> r[0] == t[0];
    r
  }

  /** Stripping text that has nothing to strip returns it unchanged. */
  lemma StripStripped(s: string)
    requires Stripped(s)
    ensures Strip(s) == s
  {
    assert TrimStart(s) == s;
    assert TrimEnd(s) == s;
  }

  /** One whitespace character on each side of stripped text is removed by
      `str.strip()`, and nothing else is. */
  lemma StripPadded(c: char, s: string, d: char)
    requires IsSpace(c) && IsSpace(d)
    requires s != [] && Stripped(s)
    ensures Strip([c] + s + [d]) == s
  {
    var padded := [c] + s + [d];
    var t := s + [d];
    assert TrimStart(padded) == t by {
      assert padded[0] == c && padded[1..] == t;
      assert t[0] == s[0];
    }
    assert TrimEnd(t) == s by {
      assert t[|t| - 1] == d && t[..|t| - 1] == s;
    }
  }

  /** `str.strip()` is idempotent. */
  lemma StripIdempotent(s: string)
    ensures Strip(Strip(s)) == Strip(s)
  {
    StripStripped(Strip(s));
  }
}
