/**
 * The comparison of lines 166-173 between a test's expected result and
 * what the engine's `Eval` returned: `expect: pass` needs no error; any
 * other value, `skip` and unknown strings included, needs an error, and a
 * non-empty `error_text` must equal the error's message once both are
 * trimmed of surrounding white space.
 */
module Verdicts {
  import opened Wrappers
  import opened Strings

  /** The values of `ExpectResult`; the comparison branches on the first only. */
  const ExpectPass: string := "pass"
  const ExpectFail: string := "fail"
  const ExpectError: string := "error"
  const ExpectSkip: string := "skip"

  /** Why a case fails its comparison. */
  datatype Mismatch =
    | UnexpectedError(msg: string)        // `require.NoError`
    | MissingError                        // `require.Error`
    | TextMismatch(expected: string, actual: string) // `require.Equal` of the trimmed texts

  /** The comparison; `None` is a passing case. */
  function CheckResult(expected: string, errorText: string, err: Option<string>, isSpace: char -> bool): (r: Option<Mismatch>)
    ensures expected == ExpectPass ==> (r.None? <==> err.None?)
    ensures expected == ExpectPass && err.Some? ==> r == Some(UnexpectedError(err.value))
    ensures expected != ExpectPass && err.None? ==> r == Some(MissingError)
    ensures expected != ExpectPass && err.Some? ==>
      (r.None? <==> errorText == "" || TrimSpace(errorText, isSpace) == TrimSpace(err.value, isSpace))
    ensures (&& expected != ExpectPass && err.Some? && errorText != ""
             && TrimSpace(errorText, isSpace) != TrimSpace(err.value, isSpace)) ==>
      r == Some(TextMismatch(TrimSpace(errorText, isSpace), TrimSpace(err.value, isSpace)))
    ensures r.Some? && r.value.TextMismatch? ==>
      err.Some? && r.value.expected == TrimSpace(errorText, isSpace) && r.value.actual == TrimSpace(err.value, isSpace)
  {
    if expected == ExpectPass then
      if err.None? then None else Some(UnexpectedError(err.value))
    else if err.None? then Some(MissingError)
    else if errorText != "" && TrimSpace(errorText, isSpace) != TrimSpace(err.value, isSpace) then
      Some(TextMismatch(TrimSpace(errorText, isSpace), TrimSpace(err.value, isSpace)))
    else None
  }

  /** `s` is `pre + core + suf` with white space only in `pre` and `suf`. */
  predicate PaddedForm(s: string, pre: string, core: string, suf: string, isSpace: char -> bool)
  {
    s == pre + core + suf && AllSpace(pre, isSpace) && AllSpace(suf, isSpace)
  }

  /** `a` and `b` are one trimmed text with (possibly different) white space around it. */
  ghost predicate SameUpToPadding(a: string, b: string, isSpace: char -> bool)
  {
    exists core, p1, s1, p2, s2 ::
      Trimmed(core, isSpace) && PaddedForm(a, p1, core, s1, isSpace) && PaddedForm(b, p2, core, s2, isSpace)
  }

  /** Trimmed equality, the test `require.Equal` makes, is equality up to surrounding white space. */
  lemma TrimEqualIffSameUpToPadding(a: string, b: string, isSpace: char -> bool)
    ensures TrimSpace(a, isSpace) == TrimSpace(b, isSpace) <==> SameUpToPadding(a, b, isSpace)
  {
    if TrimSpace(a, isSpace) == TrimSpace(b, isSpace) {
      TrimEqualGivesPadding(a, b, isSpace);
    }
    if SameUpToPadding(a, b, isSpace) {
      var core, p1, s1, p2, s2 :|
        Trimmed(core, isSpace) && PaddedForm(a, p1, core, s1, isSpace) && PaddedForm(b, p2, core, s2, isSpace);
      TrimSpaceOfPadded(p1, core, s1, isSpace);
      TrimSpaceOfPadded(p2, core, s2, isSpace);
    }
  }

  lemma TrimEqualGivesPadding(a: string, b: string, isSpace: char -> bool)
    requires TrimSpace(a, isSpace) == TrimSpace(b, isSpace)
    ensures SameUpToPadding(a, b, isSpace)
  {
    var i, j := TrimSpaceIsCore(a, isSpace);
    var k, l := TrimSpaceIsCore(b, isSpace);
    var core := a[i..j];
    assert core == b[k..l];
    PaddedSlice(a, i, j, isSpace);
    PaddedSlice(b, k, l, isSpace);
    assert Trimmed(core, isSpace) && PaddedForm(a, a[..i], core, a[j..], isSpace) && PaddedForm(b, b[..k], core, b[l..], isSpace);
  }

  lemma PaddedSlice(s: string, i: nat, j: nat, isSpace: char -> bool)
    requires i <= j <= |s| && AllSpace(s[..i], isSpace) && AllSpace(s[j..], isSpace)
    ensures PaddedForm(s, s[..i], s[i..j], s[j..], isSpace)
  {
    assert s == s[..i] + s[i..j] + s[j..];
  }

  /**
   * A case that expects a rejection and names an error text passes exactly
   * when an error occurred whose message is that text up to surrounding
   * white space.
   */
  lemma ErrorTextMatchesUpToPadding(expected: string, errorText: string, msg: string, isSpace: char -> bool)
    requires expected != ExpectPass && errorText != ""
    ensures CheckResult(expected, errorText, Some(msg), isSpace).None? <==> SameUpToPadding(errorText, msg, isSpace)
  {
    TrimEqualIffSameUpToPadding(errorText, msg, isSpace);
  }

  /**
   * The comparison does not tell `fail`, `error` and `skip` apart, nor an
   * unknown value such as `Pass`: each is a case that must see an error.
   */
  lemma NonPassExpectationsAgree(errorText: string, err: Option<string>, isSpace: char -> bool)
    ensures CheckResult(ExpectFail, errorText, err, isSpace) == CheckResult(ExpectError, errorText, err, isSpace)
    ensures CheckResult(ExpectSkip, errorText, err, isSpace) == CheckResult(ExpectError, errorText, err, isSpace)
    ensures CheckResult("Pass", errorText, err, isSpace) == CheckResult(ExpectError, errorText, err, isSpace)
    ensures CheckResult(ExpectError, errorText, err, isSpace).None? ==> err.Some?
    ensures CheckResult(ExpectError, errorText, None, isSpace) == Some(MissingError)
  {
  }

  /** Error text `boom`: the messages `boom` and `boom\n` pass, `boomz` does not. */
  lemma BoomExamples(isSpace: char -> bool)
    requires isSpace('\n') && !isSpace('b') && !isSpace('m') && !isSpace('z')
    ensures CheckResult(ExpectError, "boom", Some("boom"), isSpace).None?
    ensures CheckResult(ExpectError, "boom", Some("boom\n"), isSpace).None?
    ensures CheckResult(ExpectError, "boom", Some("boomz"), isSpace) == Some(TextMismatch("boom", "boomz"))
  {
    TrimmedUnchanged("boom", isSpace);
    TrimmedUnchanged("boomz", isSpace);
    assert TrimSpace("boom\n", isSpace) == "boom" by {
      assert "boom\n" == [] + "boom" + "\n";
      TrimSpaceOfPadded([], "boom", "\n", isSpace);
    }
    assert "boom" != "boomz";
  }

  lemma TrimmedUnchanged(s: string, isSpace: char -> bool)
    requires Trimmed(s, isSpace)
    ensures TrimSpace(s, isSpace) == s
  {
    assert s == [] + s + [];
    TrimSpaceOfPadded([], s, [], isSpace);
  }
}
