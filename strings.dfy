/**
 * The two functions of Go's `strings` package the harness relies on,
 * `HasSuffix` and `TrimSpace`.  Which characters count as white space is
 * a parameter (`isSpace`), so the lemmas hold for any white-space set.
 * The harness does not call `HasPrefix`; it is here to state prefix
 * facts of the model, such as the stem of a path and the corrected
 * group name.
 */
module Strings {

  /** `strings.HasPrefix(s, prefix)`. */
  predicate HasPrefix(s: string, prefix: string)
  {
    |prefix| <= |s| && s[..|prefix|] == prefix
  }

  /** `strings.HasSuffix(s, suffix)`. */
  predicate HasSuffix(s: string, suffix: string)
  {
    |suffix| <= |s| && s[|s| - |suffix|..] == suffix
  }

  /** Every character of `s` is white space. */
  predicate AllSpace(s: string, isSpace: char -> bool)
  {
    forall k :: 0 <= k < |s| ==> isSpace(s[k])
  }

  /** `s` is empty, or neither starts nor ends with white space. */
  predicate Trimmed(s: string, isSpace: char -> bool)
  {
    s == [] || (!isSpace(s[0]) && !isSpace(s[|s| - 1]))
  }

  /** Drops the leading white space. */
  function TrimLeft(s: string, isSpace: char -> bool): string
  {
    if s != [] && isSpace(s[0]) then TrimLeft(s[1..], isSpace) else s
  }

  /** Drops the trailing white space. */
  function TrimRight(s: string, isSpace: char -> bool): string
  {
    if s != [] && isSpace(s[|s| - 1]) then TrimRight(s[..|s| - 1], isSpace) else s
  }

  /** `TrimLeft` returns a suffix after a white-space prefix, and that suffix does not start with white space. */
  lemma {:induction false} TrimLeftSpec(s: string, isSpace: char -> bool)
    ensures var r := TrimLeft(s, isSpace);
      |r| <= |s| && r == s[|s| - |r|..] && AllSpace(s[..|s| - |r|], isSpace) && (r == [] || !isSpace(r[0]))
  {
    if s != [] && isSpace(s[0]) {
      TrimLeftSpec(s[1..], isSpace);
      var r := TrimLeft(s, isSpace);
      assert s[..|s| - |r|] == [s[0]] + s[1..][..|s| - 1 - |r|];
    }
  }

  /** `TrimRight` returns a prefix before a white-space suffix, and that prefix does not end with white space. */
  lemma {:induction false} TrimRightSpec(s: string, isSpace: char -> bool)
    ensures var r := TrimRight(s, isSpace);
      |r| <= |s| && r == s[..|r|] && AllSpace(s[|r|..], isSpace) && (r == [] || !isSpace(r[|r| - 1]))
  {
    if s != [] && isSpace(s[|s| - 1]) {
      var t := s[..|s| - 1];
      TrimRightSpec(t, isSpace);
      var r := TrimRight(s, isSpace);
      assert s[|r|..] == t[|r|..] + [s[|s| - 1]];
    }
  }

  /** `strings.TrimSpace`: leading, then trailing, white space removed. */
  function TrimSpace(s: string, isSpace: char -> bool): string
  {
    TrimRight(TrimLeft(s, isSpace), isSpace)
  }

  /**
   * What `TrimSpace` returns: the slice `s[i..j]` between a white-space
   * prefix and a white-space suffix, with no white space at its own ends.
   */
  lemma TrimSpaceIsCore(s: string, isSpace: char -> bool) returns (i: nat, j: nat)
    ensures i <= j <= |s| && TrimSpace(s, isSpace) == s[i..j]
    ensures AllSpace(s[..i], isSpace) && AllSpace(s[j..], isSpace) && Trimmed(s[i..j], isSpace)
  {
    var l := TrimLeft(s, isSpace);
    var t := TrimRight(l, isSpace);
    TrimLeftSpec(s, isSpace);
    TrimRightSpec(l, isSpace);
    i := |s| - |l|;
    j := i + |t|;
    assert t == s[i..j];
    assert s[j..] == l[|t|..];
  }

  /**
   * The converse: padding a trimmed core with white space on either side
   * does not change what `TrimSpace` returns.
   */
  lemma {:induction false} TrimSpaceOfPadded(pre: string, core: string, suf: string, isSpace: char -> bool)
    requires AllSpace(pre, isSpace) && AllSpace(suf, isSpace) && Trimmed(core, isSpace)
    ensures TrimSpace(pre + core + suf, isSpace) == core
  {
    if core == [] {
      assert pre + core + suf == pre + suf;
      TrimLeftOfAllSpace(pre + suf, isSpace);
    } else {
      assert pre + core + suf == pre + (core + suf);
      TrimLeftOfPadded(pre, core + suf, isSpace);
      TrimRightOfPadded(core, suf, isSpace);
    }
  }

  lemma {:induction false} TrimLeftOfAllSpace(s: string, isSpace: char -> bool)
    requires AllSpace(s, isSpace)
    ensures TrimLeft(s, isSpace) == []
  {
    if s != [] {
      TrimLeftOfAllSpace(s[1..], isSpace);
    }
  }

  lemma {:induction false} TrimLeftOfPadded(pre: string, rest: string, isSpace: char -> bool)
    requires AllSpace(pre, isSpace) && (rest == [] || !isSpace(rest[0]))
    ensures TrimLeft(pre + rest, isSpace) == rest
  {
    if pre != [] {
      assert (pre + rest)[1..] == pre[1..] + rest;
      TrimLeftOfPadded(pre[1..], rest, isSpace);
    }
  }

  lemma {:induction false} TrimRightOfPadded(core: string, suf: string, isSpace: char -> bool)
    requires AllSpace(suf, isSpace) && (core == [] || !isSpace(core[|core| - 1]))
    ensures TrimRight(core + suf, isSpace) == core
  {
    if suf != [] {
      var n := |suf|;
      assert (core + suf)[..|core + suf| - 1] == core + suf[..n - 1];
      TrimRightOfPadded(core, suf[..n - 1], isSpace);
    } else {
      assert core + suf == core;
    }
  }

  /** Trimming twice is trimming once. */
  lemma TrimSpaceIdempotent(s: string, isSpace: char -> bool)
    ensures TrimSpace(TrimSpace(s, isSpace), isSpace) == TrimSpace(s, isSpace)
  {
    var t := TrimSpace(s, isSpace);
    var i, j := TrimSpaceIsCore(s, isSpace);
    assert t == [] + t + [];
    TrimSpaceOfPadded([], t, [], isSpace);
  }
}
