/**
 * The execution protocol of rules_test.go: the ingest-kind dispatch and
 * the run of one test case (the callback of `TestRuleTypes`), the file
 * selection of `walkRuleTypesTests`, and the run of one rule type's
 * group of cases.
 *
 * The engine (`rtengine`, the test kit, schema validation, `Eval`) is the
 * opaque `engine` of a `Harness`; so are the YAML and resource parsers and
 * `rt.Validate()`.
 */
module Driver {
  import opened Wrappers
  import opened Strings
  import opened Paths
  import opened Entities
  import opened Fixtures
  import opened RuleTypes
  import opened Verdicts

  const GitIngest: string := "git"
  const RestIngest: string := "rest"

  /** What the engine reports for one case: the errors of `NewRuleTypeEngine`, the two schema checks and `Eval`. */
  datatype EngineRun = EngineRun(
    newError: Option<string>,
    defError: Option<string>,
    paramsError: Option<string>,
    evalError: Option<string>)

  /** The collaborators the harness calls but whose code is not modelled. */
  datatype Harness = Harness(
    parseSuite: string -> Result<RawSuite, string>,
    conforms: (EntityKind, Value) -> Option<string>,
    parseRuleType: string -> Result<RuleTypeDef, string>,
    validate: RuleTypeDef -> Option<string>,
    engine: (RuleTypeDef, RuleTest, IngestOption) -> EngineRun,
    isSpace: char -> bool)

  /** The outcome of the stub-selection step (lines 140-147). */
  datatype Setup =
    | Configured(option: IngestOption)
    | SetupFailed(error: StubError)
    | Unsupported(kind: string)

  /** A stub builder's result as a setup: its option, or its failed `require`. */
  function FromStub(r: Result<IngestOption, StubError>): Setup
  {
    match r
    case Success(option) => Configured(option)
    case Failure(e) => SetupFailed(e)
  }

  /**
   * Lines 141-147: `git` builds the git stub, `rest` the HTTP stub, and
   * any other kind skips the case without building any.
   */
  function IngestSetup(ingestType: string, tc: TestFields, rtDataPath: string, fs: FileSystem): (s: Setup)
    ensures s.Unsupported? <==> ingestType != GitIngest && ingestType != RestIngest
    ensures s.Unsupported? ==> s.kind == ingestType
    ensures ingestType == GitIngest ==>
      && (s.Configured? <==> GitTestOpts(tc.git, rtDataPath, fs).Success?)
      && (s.Configured? ==> s.option == GitTestOpts(tc.git, rtDataPath, fs).value)
      && (s.SetupFailed? ==> s.error == GitTestOpts(tc.git, rtDataPath, fs).error)
    ensures ingestType == RestIngest ==>
      && (s.Configured? <==> HttpOption(tc.http, rtDataPath, fs).Success?)
      && (s.Configured? ==> s.option == HttpOption(tc.http, rtDataPath, fs).value)
      && (s.SetupFailed? ==> s.error == HttpOption(tc.http, rtDataPath, fs).error)
    ensures s.Configured? && s.option.GitDir? <==> ingestType == GitIngest && tc.git.Some? && rtDataPath in fs.dirs
    ensures s.Configured? && s.option.GitDir? ==> s.option.dir == Join(rtDataPath, tc.git.value.repoBase)
    ensures s.Configured? && s.option.HttpResponse? ==> ingestType == RestIngest && tc.http.Some?
  {
    if ingestType == GitIngest then FromStub(GitTestOpts(tc.git, rtDataPath, fs))
    else if ingestType == RestIngest then FromStub(HttpOption(tc.http, rtDataPath, fs))
    else Unsupported(ingestType)
  }

  /** Why a case failed. */
  datatype CaseFailure =
    | StubFailed(stub: StubError)
    | EngineNotBuilt(msg: string)
    | InvalidDefinition(msg: string) // "Failed to validate rule definition against schema"
    | InvalidParams(msg: string)     // "Failed to validate params against schema"
    | Mismatched(mismatch: Mismatch)

  datatype CaseOutcome = Passed | Skipped(reason: string) | Failed(failure: CaseFailure)

  function UnsupportedMessage(kind: string): string
  {
    "Unsupported ingest type " + kind
  }

  /**
   * One test case (the callback at lines 139-174): dispatch, engine
   * construction, the two schema checks, then the comparison of `Eval`'s
   * error with the expected result.
   */
  function RunCase(rt: RuleTypeDef, tc: RuleTest, rtDataPath: string, fs: FileSystem, h: Harness): (o: CaseOutcome)
    ensures o.Skipped? <==> rt.ingestType != GitIngest && rt.ingestType != RestIngest
    ensures o.Skipped? ==> o.reason == UnsupportedMessage(rt.ingestType)
    ensures o.Passed? ==>
      var s := IngestSetup(rt.ingestType, tc.fields, rtDataPath, fs);
      && s.Configured?
      && var run := h.engine(rt, tc, s.option);
      && run.newError.None? && run.defError.None? && run.paramsError.None?
      && CheckResult(tc.fields.expected, tc.fields.errorText, run.evalError, h.isSpace).None?
    ensures IngestSetup(rt.ingestType, tc.fields, rtDataPath, fs).SetupFailed? ==>
      o == Failed(StubFailed(IngestSetup(rt.ingestType, tc.fields, rtDataPath, fs).error))
    ensures var s := IngestSetup(rt.ingestType, tc.fields, rtDataPath, fs);
      s.Configured? ==>
        var run := h.engine(rt, tc, s.option);
        var check := CheckResult(tc.fields.expected, tc.fields.errorText, run.evalError, h.isSpace);
        && (run.newError.Some? ==> o == Failed(EngineNotBuilt(run.newError.value)))
        && (run.newError.None? && run.defError.Some? ==> o == Failed(InvalidDefinition(run.defError.value)))
        && (run.newError.None? && run.defError.None? && run.paramsError.Some? ==> o == Failed(InvalidParams(run.paramsError.value)))
        && (run.newError.None? && run.defError.None? && run.paramsError.None? && check.Some? ==> o == Failed(Mismatched(check.value)))
  {
    match IngestSetup(rt.ingestType, tc.fields, rtDataPath, fs)
    case Unsupported(kind) => Skipped(UnsupportedMessage(kind))
    case SetupFailed(e) => Failed(StubFailed(e))
    case Configured(option) =>
      var run := h.engine(rt, tc, option);
      if run.newError.Some? then Failed(EngineNotBuilt(run.newError.value))
      else if run.defError.Some? then Failed(InvalidDefinition(run.defError.value))
      else if run.paramsError.Some? then Failed(InvalidParams(run.paramsError.value))
      else match CheckResult(tc.fields.expected, tc.fields.errorText, run.evalError, h.isSpace)
        case None => Passed
        case Some(m) => Failed(Mismatched(m))
  }

  /**
   * Once the stub is built and the schemas accept the case, the case passes
   * exactly when the comparison does; a schema violation fails the case
   * whatever it expects.
   */
  lemma CaseFollowsComparison(rt: RuleTypeDef, tc: RuleTest, rtDataPath: string, fs: FileSystem, h: Harness)
    requires IngestSetup(rt.ingestType, tc.fields, rtDataPath, fs).Configured?
    ensures var run := h.engine(rt, tc, IngestSetup(rt.ingestType, tc.fields, rtDataPath, fs).option);
      && (run.newError.None? && run.defError.None? && run.paramsError.None? ==>
            (RunCase(rt, tc, rtDataPath, fs, h).Passed? <==>
             CheckResult(tc.fields.expected, tc.fields.errorText, run.evalError, h.isSpace).None?))
      && (run.defError.Some? || run.paramsError.Some? ==> RunCase(rt, tc, rtDataPath, fs, h).Failed?)
  {
  }

  /** A case expecting `pass` passes only without an `Eval` error; any other expectation needs one. */
  lemma PassingCaseSawExpectedError(rt: RuleTypeDef, tc: RuleTest, rtDataPath: string, fs: FileSystem, h: Harness)
    requires RunCase(rt, tc, rtDataPath, fs, h).Passed?
    ensures var run := h.engine(rt, tc, IngestSetup(rt.ingestType, tc.fields, rtDataPath, fs).option);
      (tc.fields.expected == ExpectPass <==> run.evalError.None?)
  {
  }

  /**
   * A `rest` rule type and a case with `http: {body: "{}"}`: the engine gets
   * a 200 response with that body and no headers, and when it reports no
   * error a case expecting `pass` passes.
   */
  lemma RestScenario(rt: RuleTypeDef, tc: RuleTest, rtDataPath: string, fs: FileSystem, h: Harness)
    requires rt.ingestType == RestIngest && tc.fields.http == Some(Http(0, "{}", "", None)) && tc.fields.expected == ExpectPass
    requires h.engine(rt, tc, HttpResponse(StatusOK, "{}", map[])) == EngineRun(None, None, None, None)
    ensures IngestSetup(rt.ingestType, tc.fields, rtDataPath, fs) == Configured(HttpResponse(StatusOK, "{}", map[]))
    ensures RunCase(rt, tc, rtDataPath, fs, h) == Passed
  {
    assert HttpOption(tc.fields.http, rtDataPath, fs) == Success(HttpResponse(StatusOK, "{}", map[]));
  }

  /** One entry of `filepath.Walk`, in walk order. */
  datatype WalkEntry = FileEntry(path: string) | DirEntry(path: string) | WalkFailure(msg: string)

  /** The definition files `walkRuleTypesTests` visits (lines 186-194): files only, relevant ones only, up to the first walk error. */
  function Selected(entries: seq<WalkEntry>): seq<string>
    decreases |entries|
  {
    if entries == [] then []
    else match entries[0]
      case WalkFailure(_) => []
      case DirEntry(_) => Selected(entries[1..])
      case FileEntry(p) => (if IsRelevantRuleTypeFile(p) then [p] else []) + Selected(entries[1..])
  }

  /** The error `filepath.Walk` returns: the first failing entry's. */
  function WalkError(entries: seq<WalkEntry>): Option<string>
    decreases |entries|
  {
    if entries == [] then None
    else if entries[0].WalkFailure? then Some(entries[0].msg)
    else WalkError(entries[1..])
  }

  /** The walk fails exactly when some entry is a failure, and then with the message of the first one. */
  lemma {:induction false} WalkErrorIsFirstFailure(entries: seq<WalkEntry>)
    ensures WalkError(entries).None? <==> forall j :: 0 <= j < |entries| ==> !entries[j].WalkFailure?
    ensures WalkError(entries).Some? ==> exists i ::
      && 0 <= i < |entries| && entries[i] == WalkFailure(WalkError(entries).value)
      && forall j :: 0 <= j < i ==> !entries[j].WalkFailure?
    decreases |entries|
  {
    if entries != [] && !entries[0].WalkFailure? {
      WalkErrorIsFirstFailure(entries[1..]);
      if WalkError(entries).Some? {
        var i :| 0 <= i < |entries| - 1 && entries[1..][i] == WalkFailure(WalkError(entries).value) &&
          forall j :: 0 <= j < i ==> !entries[1..][j].WalkFailure?;
        assert entries[i + 1] == WalkFailure(WalkError(entries).value);
        forall j | 0 <= j < i + 1 ensures !entries[j].WalkFailure? {
          if j > 0 { assert entries[j] == entries[1..][j - 1]; }
        }
      } else {
        forall j | 0 <= j < |entries| ensures !entries[j].WalkFailure? {
          if j > 0 { assert entries[j] == entries[1..][j - 1]; }
        }
      }
    } else if entries != [] {
      assert entries[0] == WalkFailure(WalkError(entries).value);
    }
  }

  /** Every visited path is a file of the walk and a definition, never a test-suite file. */
  lemma {:induction false} SelectedAreDefinitions(entries: seq<WalkEntry>)
    ensures forall p :: p in Selected(entries) ==>
      FileEntry(p) in entries && IsRelevantRuleTypeFile(p) && !IsTestFile(p)
  {
    if entries != [] && !entries[0].WalkFailure? {
      SelectedAreDefinitions(entries[1..]);
      forall p | p in Selected(entries) ensures FileEntry(p) in entries && IsRelevantRuleTypeFile(p) {
        if p !in Selected(entries[1..]) {
          assert entries[0] == FileEntry(p);
        } else {
          assert FileEntry(p) in entries[1..];
        }
      }
    }
  }

  /** Every definition file met before the first walk error is visited. */
  lemma {:induction false} DefinitionsBeforeFailureSelected(entries: seq<WalkEntry>, i: nat)
    requires i < |entries| && entries[i].FileEntry? && IsRelevantRuleTypeFile(entries[i].path)
    requires forall k :: 0 <= k < i ==> !entries[k].WalkFailure?
    ensures entries[i].path in Selected(entries)
  {
    SelectedStep(entries, 0);
    assert entries[0..] == entries;
    if i > 0 {
      assert entries[1..][i - 1] == entries[i];
      DefinitionsBeforeFailureSelected(entries[1..], i - 1);
    }
  }

  /**
   * `idx` places the paths `sel` in the walk: `sel[k]` is the file entry at
   * `idx[k]`, the indices strictly increase, and no walk error comes at or
   * before any of them.
   */
  predicate WalkIndex(entries: seq<WalkEntry>, sel: seq<string>, idx: seq<nat>)
  {
    && |idx| == |sel|
    && (forall k :: 0 <= k < |idx| ==> idx[k] < |entries| && entries[idx[k]] == FileEntry(sel[k]))
    && (forall k, l :: 0 <= k < l < |idx| ==> idx[k] < idx[l])
    && (forall k, j :: 0 <= k < |idx| && 0 <= j <= idx[k] ==> !entries[j].WalkFailure?)
  }

  /**
   * The visited paths are the walk's own file entries, in walk order and
   * all before the first walk error.
   */
  lemma {:induction false} SelectedInWalkOrder(entries: seq<WalkEntry>) returns (idx: seq<nat>)
    ensures WalkIndex(entries, Selected(entries), idx)
    decreases |entries|
  {
    if entries == [] || entries[0].WalkFailure? {
      return [];
    }
    var tail := SelectedInWalkOrder(entries[1..]);
    var shifted := ShiftIndices(entries, Selected(entries[1..]), tail);
    if entries[0].FileEntry? && IsRelevantRuleTypeFile(entries[0].path) {
      idx := PrependFirst(entries, Selected(entries[1..]), shifted);
      assert Selected(entries) == [entries[0].path] + Selected(entries[1..]);
    } else {
      idx := shifted;
      assert Selected(entries) == [] + Selected(entries[1..]);
    }
  }

  /** The indices of the tail's walk, read as indices of the whole walk. */
  lemma ShiftIndices(entries: seq<WalkEntry>, sel: seq<string>, tail: seq<nat>) returns (shifted: seq<nat>)
    requires entries != [] && !entries[0].WalkFailure? && WalkIndex(entries[1..], sel, tail)
    ensures WalkIndex(entries, sel, shifted)
    ensures forall k :: 0 <= k < |shifted| ==> shifted[k] > 0
  {
    shifted := seq(|tail|, k requires 0 <= k < |tail| => tail[k] + 1);
    forall k | 0 <= k < |shifted| ensures entries[shifted[k]] == FileEntry(sel[k]) {
      assert entries[shifted[k]] == entries[1..][tail[k]];
    }
    forall k, j | 0 <= k < |shifted| && 0 <= j <= shifted[k] ensures !entries[j].WalkFailure? {
      if j > 0 {
        assert entries[j] == entries[1..][j - 1];
      }
    }
  }

  /** A first entry that is visited goes in front, at index 0. */
  lemma PrependFirst(entries: seq<WalkEntry>, sel: seq<string>, shifted: seq<nat>) returns (idx: seq<nat>)
    requires entries != [] && entries[0].FileEntry? && WalkIndex(entries, sel, shifted)
    requires forall k :: 0 <= k < |shifted| ==> shifted[k] > 0
    ensures WalkIndex(entries, [entries[0].path] + sel, idx)
  {
    idx := [0] + shifted;
    var all := [entries[0].path] + sel;
    forall k | 0 <= k < |idx| ensures idx[k] < |entries| && entries[idx[k]] == FileEntry(all[k]) {
      if k > 0 {
        assert idx[k] == shifted[k - 1] && all[k] == sel[k - 1];
      }
    }
    forall k, l | 0 <= k < l < |idx| ensures idx[k] < idx[l] {
      assert idx[l] == shifted[l - 1];
      if k > 0 {
        assert idx[k] == shifted[k - 1];
      }
    }
    forall k, j | 0 <= k < |idx| && 0 <= j <= idx[k] ensures !entries[j].WalkFailure? {
      if k > 0 {
        assert idx[k] == shifted[k - 1];
      }
    }
  }

  /** Nothing after the first walk error is visited: every visited path is a file entry met before any failure. */
  lemma SelectedOnlyBeforeFailure(entries: seq<WalkEntry>, p: string) returns (i: nat)
    requires p in Selected(entries)
    ensures i < |entries| && entries[i] == FileEntry(p)
    ensures forall j :: 0 <= j < i ==> !entries[j].WalkFailure?
  {
    var idx := SelectedInWalkOrder(entries);
    var k :| 0 <= k < |Selected(entries)| && Selected(entries)[k] == p;
    i := idx[k];
  }

  /** One step of `Selected` and `WalkError` at position `i`. */
  lemma SelectedStep(entries: seq<WalkEntry>, i: nat)
    requires i < |entries|
    ensures entries[i].WalkFailure? ==> Selected(entries[i..]) == [] && WalkError(entries[i..]) == Some(entries[i].msg)
    ensures !entries[i].WalkFailure? ==>
      && WalkError(entries[i..]) == WalkError(entries[i + 1..])
      && Selected(entries[i..]) ==
         (if entries[i].FileEntry? && IsRelevantRuleTypeFile(entries[i].path) then [entries[i].path] else [])
         + Selected(entries[i + 1..])
  {
    assert entries[i..][0] == entries[i];
    assert entries[i..][1..] == entries[i + 1..];
  }

  /** The walk over the entries, collecting definitions (the `filepath.Walk` callback). */
  method DiscoverDefinitions(entries: seq<WalkEntry>) returns (defs: seq<string>, err: Option<string>)
    ensures defs == Selected(entries)
    ensures err == WalkError(entries)
  {
    defs, err := [], None;
    var i := 0;
    while i < |entries|
      invariant 0 <= i <= |entries|
      invariant Selected(entries) == defs + Selected(entries[i..])
      invariant WalkError(entries) == WalkError(entries[i..])
    {
      SelectedStep(entries, i);
      match entries[i] {
        case WalkFailure(msg) =>
          err := Some(msg);
          assert defs + [] == defs;
          return;
        case DirEntry(_) =>
          assert [] + Selected(entries[i + 1..]) == Selected(entries[i + 1..]);
        case FileEntry(p) =>
          if IsRelevantRuleTypeFile(p) {
            defs := defs + [p];
          } else {
            assert [] + Selected(entries[i + 1..]) == Selected(entries[i + 1..]);
          }
      }
      i := i + 1;
    }
    assert entries[i..] == [];
    assert defs + [] == defs;
  }

  /** Why a whole group stopped before any case ran (a `t.Error` at lines 210, 217 or 230). */
  datatype GroupFailure =
    | SuiteNotOpened(testPath: string)
    | SuiteUnparsable(msg: string)
    | EntityUndecodable(error: EntityError)
    | RuleTypeNotOpened(path: string)
    | RuleTypeUnparsable(msg: string)
    | RuleTypeInvalid(msg: string)

  datatype GroupOutcome =
    | GroupSkipped(reason: string)
    | GroupFailed(failure: GroupFailure)
    | GroupRan(cases: seq<(string, CaseOutcome)>)

  datatype GroupReport = GroupReport(name: string, outcome: GroupOutcome)

  function NoTestFileMessage(path: string): string
  {
    "No test file found for rule " + path
  }

  /** `openTestSuite` and `ParseRuleTypeTests`, with the entities decoded by `UnmarshalYAML`. */
  function LoadSuite(testPath: string, fs: FileSystem, h: Harness): (r: Result<RuleTestSuite, GroupFailure>)
    ensures r.Success? <==>
      && testPath in fs.files && h.parseSuite(fs.files[testPath]).Success?
      && DecodeSuite(h.parseSuite(fs.files[testPath]).value, h.conforms).Success?
    ensures r.Success? ==> Success(r.value) == DecodeSuite(h.parseSuite(fs.files[testPath]).value, h.conforms)
    ensures testPath !in fs.files ==> r == Failure(SuiteNotOpened(testPath))
    ensures testPath in fs.files && h.parseSuite(fs.files[testPath]).Failure? ==>
      r == Failure(SuiteUnparsable(h.parseSuite(fs.files[testPath]).error))
    ensures testPath in fs.files && h.parseSuite(fs.files[testPath]).Success? &&
            DecodeSuite(h.parseSuite(fs.files[testPath]).value, h.conforms).Failure? ==>
      r == Failure(EntityUndecodable(DecodeSuite(h.parseSuite(fs.files[testPath]).value, h.conforms).error))
  {
    if testPath !in fs.files then Failure(SuiteNotOpened(testPath))
    else match h.parseSuite(fs.files[testPath])
      case Failure(msg) => Failure(SuiteUnparsable(msg))
      case Success(raw) =>
        match DecodeSuite(raw, h.conforms)
        case Failure(e) => Failure(EntityUndecodable(e))
        case Success(suite) => Success(suite)
  }

  /** `openRuleType`. */
  function LoadRuleType(path: string, fs: FileSystem, h: Harness): (r: Result<RuleTypeDef, GroupFailure>)
    ensures r.Success? <==> path in fs.files && h.parseRuleType(fs.files[path]).Success?
    ensures r.Success? ==> h.parseRuleType(fs.files[path]) == Success(r.value)
    ensures path !in fs.files ==> r == Failure(RuleTypeNotOpened(path))
    ensures path in fs.files && h.parseRuleType(fs.files[path]).Failure? ==>
      r == Failure(RuleTypeUnparsable(h.parseRuleType(fs.files[path]).error))
  {
    if path !in fs.files then Failure(RuleTypeNotOpened(path))
    else match h.parseRuleType(fs.files[path])
      case Failure(msg) => Failure(RuleTypeUnparsable(msg))
      case Success(rt) => Success(rt)
  }

  /** Lines 208-232: the suite, the rule type with the test project set, and its validation. */
  function PrepareGroup(path: string, fs: FileSystem, h: Harness): (r: Result<(RuleTypeDef, RuleTestSuite), GroupFailure>)
    ensures r.Success? <==>
      && LoadSuite(TestSuitePath(path), fs, h).Success?
      && LoadRuleType(path, fs, h).Success?
      && h.validate(WithTestProject(LoadRuleType(path, fs, h).value)).None?
    ensures r.Success? ==> LoadSuite(TestSuitePath(path), fs, h) == Success(r.value.1)
    ensures r.Success? ==> r.value.0 == WithTestProject(LoadRuleType(path, fs, h).value)
    ensures LoadSuite(TestSuitePath(path), fs, h).Failure? ==> r == Failure(LoadSuite(TestSuitePath(path), fs, h).error)
    ensures LoadSuite(TestSuitePath(path), fs, h).Success? && LoadRuleType(path, fs, h).Failure? ==>
      r == Failure(LoadRuleType(path, fs, h).error)
    ensures LoadSuite(TestSuitePath(path), fs, h).Success? && LoadRuleType(path, fs, h).Success? &&
            h.validate(WithTestProject(LoadRuleType(path, fs, h).value)).Some? ==>
      r == Failure(RuleTypeInvalid(h.validate(WithTestProject(LoadRuleType(path, fs, h).value)).value))
  {
    match LoadSuite(TestSuitePath(path), fs, h)
    case Failure(e) => Failure(e)
    case Success(suite) =>
      match LoadRuleType(path, fs, h)
      case Failure(e) => Failure(e)
      case Success(def) =>
        var rt := WithTestProject(def);
        match h.validate(rt)
        case Some(msg) => Failure(RuleTypeInvalid(msg))
        case None => Success((rt, suite))
  }

  /** The outcomes of a suite's cases, one per case in declaration order. */
  function CaseReports(rt: RuleTypeDef, tests: seq<RuleTest>, rtDataPath: string, fs: FileSystem, h: Harness): seq<(string, CaseOutcome)>
  {
    seq(|tests|, i requires 0 <= i < |tests| => (tests[i].fields.name, RunCase(rt, tests[i], rtDataPath, fs, h)))
  }

  /**
   * The group of one definition file (the subtest at lines 196-243),
   * named as line 196 names it.  The walk only yields paths below the
   * folder, so the 11 characters line 250 drops are always there.
   */
  function GroupOf(path: string, fs: FileSystem, h: Harness): GroupReport
    requires |path| >= |RuleTypesDir| + 1
  {
    var name := NormalizeTestNameFromPath(path);
    if !Exists(fs, TestSuitePath(path)) then GroupReport(name, GroupSkipped(NoTestFileMessage(path)))
    else match PrepareGroup(path, fs, h)
      case Failure(e) => GroupReport(name, GroupFailed(e))
      case Success(p) => GroupReport(name, GroupRan(CaseReports(p.0, p.1.tests, TestDataPath(path), fs, h)))
  }

  /**
   * A group is skipped exactly when its suite file does not exist, fails
   * before any case when loading or validation fails (a suite that exists
   * but cannot be read included), and otherwise reports one outcome per
   * case in declaration order, each run against the rule type with the
   * test project set.
   */
  lemma GroupOutcomes(path: string, fs: FileSystem, h: Harness)
    requires |path| >= |RuleTypesDir| + 1
    ensures var g := GroupOf(path, fs, h);
      && g.name == NormalizeTestNameFromPath(path)
      && (g.outcome.GroupSkipped? <==> !Exists(fs, TestSuitePath(path)))
      && (g.outcome.GroupSkipped? ==> g.outcome.reason == NoTestFileMessage(path))
      && (g.outcome.GroupFailed? <==> Exists(fs, TestSuitePath(path)) && PrepareGroup(path, fs, h).Failure?)
      && (g.outcome.GroupFailed? ==> g.outcome.failure == PrepareGroup(path, fs, h).error)
      && (g.outcome.GroupRan? ==>
           && PrepareGroup(path, fs, h).Success?
           && var (rt, suite) := PrepareGroup(path, fs, h).value;
           && rt.context.Some? && rt.context.value.project == Some(TestProject)
           && |g.outcome.cases| == |suite.tests|
           && forall i :: 0 <= i < |suite.tests| ==>
                g.outcome.cases[i] == (suite.tests[i].fields.name, RunCase(rt, suite.tests[i], TestDataPath(path), fs, h)))
  {
  }

  /** A suite path that exists but is not a readable file fails the group instead of skipping it. */
  lemma UnreadableSuiteFailsGroup(path: string, fs: FileSystem, h: Harness)
    requires |path| >= |RuleTypesDir| + 1
    requires Exists(fs, TestSuitePath(path)) && TestSuitePath(path) !in fs.files
    ensures GroupOf(path, fs, h).outcome == GroupFailed(SuiteNotOpened(TestSuitePath(path)))
  {
  }

  /** A group whose rule type has an unsupported ingest kind skips every one of its cases. */
  lemma UnsupportedKindSkipsEveryCase(path: string, fs: FileSystem, h: Harness, i: nat)
    requires |path| >= |RuleTypesDir| + 1
    requires GroupOf(path, fs, h).outcome.GroupRan?
    requires var k := PrepareGroup(path, fs, h).value.0.ingestType; k != GitIngest && k != RestIngest
    requires i < |GroupOf(path, fs, h).outcome.cases|
    ensures GroupOf(path, fs, h).outcome.cases[i].1
      == Skipped(UnsupportedMessage(LoadRuleType(path, fs, h).value.ingestType))
  {
  }

  /**
   * The group step as the source runs it: the rule type becomes an object
   * whose project is overridden in place, then each case is run in order.
   */
  method RunGroup(path: string, fs: FileSystem, h: Harness) returns (g: GroupReport)
    requires |path| >= |RuleTypesDir| + 1
    ensures g == GroupOf(path, fs, h)
  {
    var name := NormalizeTestNameFromPath(path);
    var testPath := TestSuitePath(path);
    if !Exists(fs, testPath) {
      return GroupReport(name, GroupSkipped(NoTestFileMessage(path)));
    }
    var rtDataPath := TestDataPath(path);
    var suite := LoadSuite(testPath, fs, h);
    if suite.Failure? {
      return GroupReport(name, GroupFailed(suite.error));
    }
    var def := LoadRuleType(path, fs, h);
    if def.Failure? {
      return GroupReport(name, GroupFailed(def.error));
    }
    var context: Context? := null;
    if def.value.context.Some? {
      context := new Context();
      context.project, context.provider := def.value.context.value.project, def.value.context.value.provider;
    }
    var rtObject := new RuleType(def.value.ingestType, context, def.value.rest);
    assert rtObject.View() == def.value;
    OverrideProject(rtObject);
    var rt := rtObject.View();
    var invalid := h.validate(rt);
    if invalid.Some? {
      return GroupReport(name, GroupFailed(RuleTypeInvalid(invalid.value)));
    }
    var cases := RunCases(rt, suite.value.tests, rtDataPath, fs, h);
    g := GroupReport(name, GroupRan(cases));
  }

  /** The loop over a suite's cases (lines 234-242), in declaration order. */
  method RunCases(rt: RuleTypeDef, tests: seq<RuleTest>, rtDataPath: string, fs: FileSystem, h: Harness)
    returns (cases: seq<(string, CaseOutcome)>)
    ensures cases == CaseReports(rt, tests, rtDataPath, fs, h)
  {
    cases := [];
    for i := 0 to |tests|
      invariant |cases| == i
      invariant forall k :: 0 <= k < i ==> cases[k] == (tests[k].fields.name, RunCase(rt, tests[k], rtDataPath, fs, h))
    {
      cases := cases + [(tests[i].fields.name, RunCase(rt, tests[i], rtDataPath, fs, h))];
    }
  }

  /** The walk of a folder yields only the folder itself and paths below it. */
  predicate BelowRoot(root: string, entries: seq<WalkEntry>)
  {
    forall k :: 0 <= k < |entries| && entries[k].FileEntry? ==>
      entries[k].path == root || HasPrefix(entries[k].path, root + [Separator])
  }

  /** Neither folder walked is itself a definition file: both names end in `s`. */
  lemma RootsAreNotDefinitions()
    ensures !IsRelevantRuleTypeFile(RuleTypesDir) && !IsRelevantRuleTypeFile(SecurityBaselineDir)
  {
    NotEndingInLNotDefinition(RuleTypesDir);
    NotEndingInLNotDefinition(SecurityBaselineDir);
  }

  /**
   * Every visited definition lies below the folder walked, so it is long
   * enough for the fixed prefix line 250 drops.
   */
  lemma SelectedBelowRoot(root: string, entries: seq<WalkEntry>)
    requires root == RuleTypesDir || root == SecurityBaselineDir
    requires BelowRoot(root, entries)
    ensures forall p :: p in Selected(entries) ==> HasPrefix(p, root + [Separator])
    ensures forall k :: 0 <= k < |Selected(entries)| ==> |Selected(entries)[k]| >= |RuleTypesDir| + 1
  {
    SelectedAreDefinitions(entries);
    RootsAreNotDefinitions();
    forall p | p in Selected(entries) ensures HasPrefix(p, root + [Separator]) {
      var k :| 0 <= k < |entries| && entries[k] == FileEntry(p);
    }
    forall k | 0 <= k < |Selected(entries)| ensures |Selected(entries)[k]| >= |RuleTypesDir| + 1 {
      assert Selected(entries)[k] in Selected(entries);
    }
  }

  /** The groups of the visited definitions, run one after another in walk order. */
  method RunGroups(defs: seq<string>, fs: FileSystem, h: Harness) returns (reports: seq<GroupReport>)
    requires forall k :: 0 <= k < |defs| ==> |defs[k]| >= |RuleTypesDir| + 1
    ensures |reports| == |defs|
    ensures forall k :: 0 <= k < |defs| ==> reports[k] == GroupOf(defs[k], fs, h)
  {
    reports := [];
    for i := 0 to |defs|
      invariant |reports| == i
      invariant forall k :: 0 <= k < i ==> reports[k] == GroupOf(defs[k], fs, h)
    {
      var g := RunGroup(defs[i], fs, h);
      reports := reports + [g];
    }
  }

  /**
   * One folder of `TestRuleTypes` (line 137 walks `rule-types` and
   * `security-baseline/rule-types`): walk it, run every definition's
   * group, and report the walk's error.
   */
  method RunFolder(root: string, entries: seq<WalkEntry>, fs: FileSystem, h: Harness)
    returns (reports: seq<GroupReport>, err: Option<string>)
    requires root == RuleTypesDir || root == SecurityBaselineDir
    requires BelowRoot(root, entries)
    ensures err == WalkError(entries)
    ensures |reports| == |Selected(entries)|
    ensures forall i :: 0 <= i < |reports| ==>
      |Selected(entries)[i]| >= |RuleTypesDir| + 1 && reports[i] == GroupOf(Selected(entries)[i], fs, h)
  {
    var defs;
    defs, err := DiscoverDefinitions(entries);
    SelectedBelowRoot(root, entries);
    reports := RunGroups(defs, fs, h);
  }
}
