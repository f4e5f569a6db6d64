/**
 * Path helpers of rules_test.go: Go's `filepath.Ext` and `filepath.Join`
 * (without `Clean`), `removeExtension`, `isTestFile`,
 * `isRelevantRuleTypeFile`, `normalizeTestNameFromPath` and the two
 * companion paths a rule-type definition file is paired with.
 */
module Paths {
  import opened Strings

  /** The path separator (`os.PathSeparator` on Unix). */
  const Separator: char := '/'

  /** The first folder walked; its length plus one is what the test name drops. */
  const RuleTypesDir: string := "rule-types"
  const SecurityBaselineDir: string := "security-baseline/rule-types"

  const TestSuiteSuffix: string := ".test.yaml"
  const TestDataSuffix: string := ".testdata"

  /** No `.` in `s` is followed by nothing but non-separators: the last path element has no dot. */
  predicate NoDotInLastElement(s: string)
  {
    forall j :: 0 <= j < |s| && s[j] == '.' ==> Separator in s[j + 1..]
  }

  /** A well-formed extension: a dot followed by no dot and no separator. */
  predicate IsExtension(e: string)
  {
    |e| > 0 && e[0] == '.' && forall k :: 1 <= k < |e| ==> e[k] != '.' && e[k] != Separator
  }

  /** The scan of `filepath.Ext`: look at `p[i-1]`, `p[i-2]`, ... down to the first separator. */
  function ExtFrom(p: string, i: nat): string
    requires i <= |p|
    decreases i
  {
    if i == 0 then ""
    else if p[i - 1] == Separator then ""
    else if p[i - 1] == '.' then p[i - 1..]
    else ExtFrom(p, i - 1)
  }

  lemma {:induction false} ExtFromSpec(p: string, i: nat)
    requires i <= |p|
    requires forall j :: i <= j < |p| ==> p[j] != '.' && p[j] != Separator
    ensures var e := ExtFrom(p, i);
      && |e| <= |p| && e == p[|p| - |e|..]
      && (e == [] || IsExtension(e))
      && (e == [] ==> NoDotInLastElement(p))
  {
    if i == 0 {
    } else if p[i - 1] == Separator {
      forall j | 0 <= j < |p| && p[j] == '.' ensures Separator in p[j + 1..] {
        assert j < i - 1;
        assert p[j + 1..][i - 1 - (j + 1)] == Separator;
      }
    } else if p[i - 1] == '.' {
      var e := p[i - 1..];
      forall k | 1 <= k < |e| ensures e[k] != '.' && e[k] != Separator {
        assert e[k] == p[i - 1 + k];
      }
    } else {
      ExtFromSpec(p, i - 1);
    }
  }

  /**
   * `filepath.Ext(p)`: the suffix of `p` from the last `.` of its final
   * element, or "" when that element has no dot.
   */
  function Ext(p: string): (e: string)
    ensures |e| <= |p| && e == p[|p| - |e|..]
    ensures e == [] || IsExtension(e)
    ensures e == [] ==> NoDotInLastElement(p)
  {
    ExtFromSpec(p, |p|);
    ExtFrom(p, |p|)
  }

  /** A well-formed extension at the end of a path is the path's `Ext`. */
  lemma ExtOfSuffix(stem: string, e: string)
    requires IsExtension(e)
    ensures Ext(stem + e) == e
  {
    var q := stem + e;
    assert q[|stem|] == '.';
    assert q[|stem|..] == e;
  }

  /** `removeExtension(p)`: `p` without `Ext(p)`. */
  function RemoveExtension(p: string): (r: string)
    ensures r + Ext(p) == p
    ensures HasPrefix(p, r)
  {
    p[..|p| - |Ext(p)|]
  }

  /** `isTestFile(p)`: the `.test.yaml` or `.test.yml` suffix. */
  predicate IsTestFile(p: string)
  {
    HasSuffix(p, ".test.yaml") || HasSuffix(p, ".test.yml")
  }

  /** `isRelevantRuleTypeFile(p)`: a `.yaml` or `.yml` file that is not a test file. */
  predicate IsRelevantRuleTypeFile(p: string)
  {
    (Ext(p) == ".yaml" || Ext(p) == ".yml") && !IsTestFile(p)
  }

  /** `normalizeTestNameFromPath(p)`: drop `len("rule-types") + 1` characters, whatever they are, then the extension. */
  function NormalizeTestNameFromPath(p: string): string
    requires |p| >= |RuleTypesDir| + 1
  {
    RemoveExtension(p[|RuleTypesDir| + 1..])
  }

  /** `removeExtension(path) + ".test.yaml"` (line 200). */
  function TestSuitePath(p: string): string
  {
    RemoveExtension(p) + TestSuiteSuffix
  }

  /** `removeExtension(path) + ".testdata"` (line 206). */
  function TestDataPath(p: string): string
  {
    RemoveExtension(p) + TestDataSuffix
  }

  /** `filepath.Join(a, b)` without `Clean`: empty elements are ignored. */
  function Join(a: string, b: string): (r: string)
    ensures a == "" ==> r == b
    ensures b == "" ==> r == a
    ensures a != "" && b != "" ==> r == a + [Separator] + b
  {
    if a == "" then b else if b == "" then a else a + [Separator] + b
  }

  /** A test file carries a definition extension but is never taken as a definition. */
  lemma TestFilesAreNotDefinitions(p: string)
    ensures IsTestFile(p) ==> (Ext(p) == ".yaml" || Ext(p) == ".yml") && !IsRelevantRuleTypeFile(p)
    ensures IsRelevantRuleTypeFile(p) ==> (Ext(p) == ".yaml" || Ext(p) == ".yml") && !IsTestFile(p)
  {
    if HasSuffix(p, ".test.yaml") {
      assert p == p[..|p| - 5] + ".yaml";
      ExtOfSuffix(p[..|p| - 5], ".yaml");
    } else if HasSuffix(p, ".test.yml") {
      assert p == p[..|p| - 4] + ".yml";
      ExtOfSuffix(p[..|p| - 4], ".yml");
    }
  }

  /** A definition file's name ends in the `l` of `.yaml` or `.yml`. */
  lemma DefinitionEndsInL(p: string)
    requires IsRelevantRuleTypeFile(p)
    ensures |p| > 0 && p[|p| - 1] == 'l'
  {
    var e := Ext(p);
    assert p[|p| - 1] == e[|e| - 1];
  }

  /** So a name ending in any other character is not a definition. */
  lemma NotEndingInLNotDefinition(p: string)
    requires |p| > 0 && p[|p| - 1] != 'l'
    ensures !IsRelevantRuleTypeFile(p)
  {
    if IsRelevantRuleTypeFile(p) {
      DefinitionEndsInL(p);
    }
  }

  /**
   * The suite path of any definition is a `.test.yaml` test file, which the
   * walker never takes as a definition; the fixture directory has
   * extension `.testdata` and is neither; both share the definition's stem.
   */
  lemma CompanionPaths(p: string)
    ensures IsTestFile(TestSuitePath(p)) && !IsRelevantRuleTypeFile(TestSuitePath(p))
    ensures Ext(TestSuitePath(p)) == ".yaml"
    ensures RemoveExtension(TestSuitePath(p)) == RemoveExtension(p) + ".test"
    ensures Ext(TestDataPath(p)) == TestDataSuffix
    ensures RemoveExtension(TestDataPath(p)) == RemoveExtension(p)
    ensures !IsTestFile(TestDataPath(p)) && !IsRelevantRuleTypeFile(TestDataPath(p))
  {
    var stem := RemoveExtension(p);
    var s := TestSuitePath(p);
    assert s == (stem + ".test") + ".yaml";
    ExtOfSuffix(stem + ".test", ".yaml");
    assert s[|s| - |".test.yaml"|..] == ".test.yaml";
    TestFilesAreNotDefinitions(s);
    assert IsExtension(TestDataSuffix);
    ExtOfSuffix(stem, TestDataSuffix);
    assert TestDataPath(p)[|TestDataPath(p)| - |TestDataSuffix|..] == TestDataSuffix;
    NotTestFileEndingInA(TestDataPath(p));
  }

  /** Both test-file suffixes end in `l`. */
  lemma NotTestFileEndingInA(d: string)
    requires HasSuffix(d, TestDataSuffix)
    ensures !IsTestFile(d)
  {
    assert d[|d| - 1] == 'a';
    assert ".test.yaml"[9] == ".test.yml"[8] == 'l';
  }

  /** The companion paths of a definition `stem + e`, for any well-formed extension `e`. */
  lemma CompanionsOfStem(stem: string, e: string)
    requires IsExtension(e)
    ensures TestSuitePath(stem + e) == stem + TestSuiteSuffix
    ensures TestDataPath(stem + e) == stem + TestDataSuffix
  {
    ExtOfSuffix(stem, e);
  }

  /** The pairs named in the harness's comments, worked out. */
  lemma CompanionExamples()
    ensures TestSuitePath("d/foo.yaml") == "d/foo.test.yaml"
    ensures TestDataPath("d/foo.yaml") == "d/foo.testdata"
  {
    CompanionsOfYaml("d/foo", "d/foo.yaml");
  }

  /** A `.yml` definition is still paired with a `.test.yaml` suite. */
  lemma YmlDefinitionExample()
    ensures TestSuitePath("d/foo.yml") == "d/foo.test.yaml"
  {
    CompanionsOfYml("d/foo", "d/foo.yml");
  }

  /** A suite file's extension is its last one only. */
  lemma TestFileExtExample()
    ensures Ext("x.test.yaml") == ".yaml" && RemoveExtension("x.test.yaml") == "x.test"
  {
    StemOfYaml("x.test", "x.test.yaml");
  }

  lemma CompanionsOfYaml(stem: string, p: string)
    requires p == stem + ".yaml"
    ensures TestSuitePath(p) == stem + TestSuiteSuffix && TestDataPath(p) == stem + TestDataSuffix
  {
    CompanionsOfStem(stem, ".yaml");
  }

  lemma CompanionsOfYml(stem: string, p: string)
    requires p == stem + ".yml"
    ensures TestSuitePath(p) == stem + TestSuiteSuffix
  {
    CompanionsOfStem(stem, ".yml");
  }

  lemma StemOfYaml(stem: string, p: string)
    requires p == stem + ".yaml"
    ensures Ext(p) == ".yaml" && RemoveExtension(p) == stem
  {
    ExtOfSuffix(stem, ".yaml");
  }

  /** The test name depends only on what follows the first 11 characters. */
  lemma NormalizeIgnoresPrefix(p: string, q: string)
    requires |p| >= |RuleTypesDir| + 1 && |q| >= |RuleTypesDir| + 1
    requires p[|RuleTypesDir| + 1..] == q[|RuleTypesDir| + 1..]
    ensures NormalizeTestNameFromPath(p) == NormalizeTestNameFromPath(q)
  {
  }

  /** Under the first folder the test name is the relative path without its extension. */
  lemma NormalizeUnderRuleTypes(rel: string)
    ensures NormalizeTestNameFromPath(RuleTypesDir + [Separator] + rel) + Ext(rel) == rel
  {
    assert (RuleTypesDir + [Separator] + rel)[|RuleTypesDir| + 1..] == rel;
  }

  /**
   * As written, the name of a definition under the second folder keeps
   * part of that folder's name: the fixed 11 characters are not its prefix.
   */
  lemma NormalizeUnderSecondFolder()
    ensures NormalizeTestNameFromPath("security-baseline/rule-types/foo.yaml") == "seline/rule-types/foo"
  {
    NormalizeDrops11("security-ba", "seline/rule-types/foo", "security-baseline/rule-types/foo.yaml");
  }

  lemma NormalizeDrops11(dropped: string, stem: string, p: string)
    requires |dropped| == |RuleTypesDir| + 1 && p == dropped + stem + ".yaml"
    ensures NormalizeTestNameFromPath(p) == stem
  {
    assert p[|RuleTypesDir| + 1..] == stem + ".yaml";
    StemOfYaml(stem, stem + ".yaml");
  }

  /** The corrected name of the same definition is its path relative to the folder. */
  lemma GroupNameUnderSecondFolder()
    ensures GroupName(SecurityBaselineDir, "security-baseline/rule-types/foo.yaml") == "foo"
  {
    GroupNameOfYaml(SecurityBaselineDir, "foo", "security-baseline/rule-types/foo.yaml");
  }

  lemma GroupNameOfYaml(root: string, stem: string, p: string)
    requires p == root + [Separator] + stem + ".yaml"
    ensures GroupName(root, p) == stem
  {
    assert p == root + [Separator] + (stem + ".yaml");
    assert p[|root| + 1..] == stem + ".yaml";
    GroupNameRelative(root, stem + ".yaml");
    StemOfYaml(stem, stem + ".yaml");
  }

  /**
   * The group name as intended: the path relative to the folder being
   * walked, without its extension.  Paths outside the folder keep their
   * whole text.
   */
  function GroupName(root: string, p: string): (r: string)
    ensures HasPrefix(p, root + [Separator]) ==> r + Ext(p[|root| + 1..]) == p[|root| + 1..]
    ensures !HasPrefix(p, root + [Separator]) ==> r + Ext(p) == p
  {
    if HasPrefix(p, root + [Separator]) then RemoveExtension(p[|root| + 1..]) else RemoveExtension(p)
  }

  /** Under the first folder the corrected name is the name the harness prints. */
  lemma GroupNameAgreesUnderRuleTypes(p: string)
    requires HasPrefix(p, RuleTypesDir + [Separator])
    ensures GroupName(RuleTypesDir, p) == NormalizeTestNameFromPath(p)
  {
  }

  /** Under any folder the corrected name is the relative path without its extension. */
  lemma GroupNameRelative(root: string, rel: string)
    ensures GroupName(root, root + [Separator] + rel) + Ext(rel) == rel
  {
    var p := root + [Separator] + rel;
    assert p[..|root| + 1] == root + [Separator];
    assert p[|root| + 1..] == rel;
  }
}
