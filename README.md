# Rule-type test harness, modelled in Dafny

This project models the core of `rules_test.go` from the minder rules-and-profiles repository.
That file is the test harness that pairs every rule-type definition with its YAML test suite and its fixture data.
For each pair it builds a rule-type engine with a stubbed ingester (a git directory or a canned HTTP response).
It then runs every declared case and compares the engine's outcome with the case's `expect` value.

The model is split into modules that follow the parts of the file:

- `Strings` covers the two `strings` functions the harness uses, `HasSuffix` and `TrimSpace`. Which characters count as white space is a parameter.
- `Paths` covers Go's `filepath.Ext`, `removeExtension`, `isTestFile`, `isRelevantRuleTypeFile` and `normalizeTestNameFromPath`.
  It also covers the two companion paths of a definition: `<stem>.test.yaml` is the suite and `<stem>.testdata` is the fixture directory.
  `filepath.Join` is modelled without `Clean`.
- `Entities` covers the suite records, the `type` discriminator of `EntityVersionWrapper.UnmarshalYAML`, and the decoding of a suite's entities in declaration order.
- `Fixtures` covers `gitTestOpts`, `readFile` and `httpTestOpts`.
  `httpTestOpts` has two forms: a method that overwrites the fields of an `HttpFixture` object in place, as the source does, and the value functions that method is proved against.
- `RuleTypes` covers the project override, which gives every rule type a scope naming the project `rule-type-test`.
  It too has two forms: an in-place method on `RuleType`/`Context` objects and a value function.
- `Verdicts` covers the comparison between `expect`, `error_text` and the error `Eval` returned.
- `Driver` covers the ingest-kind dispatch, the run of one case, the walker's file selection, the run of one definition's group of cases, and the run of one folder.

The engine, the YAML and protobuf decoders, `rt.Validate()` and the file system are not modelled; they enter as values or parameters.
A `Harness` value carries the opaque collaborators: the suite parser, the payload decoder `conforms`, the rule-type parser, `validate`, the engine's per-case results and the white-space predicate.
A `FileSystem` value holds the set of existing directories, the contents of the readable files, and the other paths that exist but cannot be read.

Points where the code's behaviour is easy to misread, and which the model follows:

- Only `<stem>.test.yaml` is probed for a suite, even for a `.yml` definition (`Paths.YmlDefinitionExample`). A `.test.yml` file is only recognised as a test file, so that it is never taken as a definition.
- A missing `type` key is an error (`MissingType`). It does not select `EntityInstance`.
- A test without an `entity` key, or with `entity: null`, never reaches `UnmarshalYAML`. Its wrapper stays zero and the suite still loads (`Entities.SuiteWithoutEntitiesDecodes`).
- A group is skipped only when its suite path does not exist. A suite path that exists but cannot be read fails the group (`Driver.UnreadableSuiteFailsGroup`).
- Groups are named by `normalizeTestNameFromPath` exactly as written, in both folders walked (see "## Findings").
- The git stub checks only that the fixture directory `<stem>.testdata` exists. It does not check `<stem>.testdata/<repo_base>`.
- `expect` is a free string. Only `pass` is compared for; `fail`, `error`, `skip` and any unknown value all require an error.

## Model

| member | source | states |
|---|---|---|
| Strings.TrimSpace | rules_test.go:171 | Models `strings.TrimSpace` over a white-space predicate; its meaning is stated by `Strings.TrimSpaceIsCore` and `Strings.TrimSpaceOfPadded` |
| Strings.TrimSpaceIsCore | rules_test.go:171 | The trimmed text is a slice of the input between a white-space prefix and a white-space suffix, and has no white space at either of its own ends |
| Strings.TrimSpaceOfPadded | rules_test.go:171 | Conversely, surrounding a trimmed core with white space does not change what trimming returns |
| Strings.TrimSpaceIdempotent | rules_test.go:171 | Trimming twice gives the same result as trimming once |
| Paths.Ext | rules_test.go:254 | The extension is a suffix of the path; it is empty or a dot followed by no dot and no separator; and it is empty only when the last path element has no dot |
| Paths.ExtOfSuffix | rules_test.go:254 | Any well-formed extension at the end of a path is exactly that path's extension |
| Paths.RemoveExtension | rules_test.go:253-255 | The result is a prefix of the path, and the result followed by the extension is the whole path |
| Paths.IsTestFile | rules_test.go:261-263 | Models `isTestFile`: the `.test.yaml` or `.test.yml` suffix; related to definitions by `Paths.TestFilesAreNotDefinitions` |
| Paths.IsRelevantRuleTypeFile | rules_test.go:257-259 | Models `isRelevantRuleTypeFile`: extension `.yaml` or `.yml` and not a test file; related to test files by `Paths.TestFilesAreNotDefinitions` |
| Paths.NormalizeTestNameFromPath | rules_test.go:249-251 | Models `normalizeTestNameFromPath` for paths of at least 11 characters; its behaviour is stated by `Paths.NormalizeIgnoresPrefix`, `Paths.NormalizeUnderRuleTypes` and `Paths.NormalizeUnderSecondFolder` |
| Paths.TestSuitePath | rules_test.go:200 | Models the suite path `removeExtension(path) + ".test.yaml"`; its properties are stated by `Paths.CompanionPaths` and `Paths.CompanionsOfStem` |
| Paths.TestDataPath | rules_test.go:206 | Models the fixture path `removeExtension(path) + ".testdata"`; its properties are stated by `Paths.CompanionPaths` and `Paths.CompanionsOfStem` |
| Paths.TestFilesAreNotDefinitions | rules_test.go:257-263 | A test file has a `.yaml`/`.yml` extension but is never a relevant definition; a relevant definition has one of those extensions and is not a test file |
| Paths.DefinitionEndsInL | rules_test.go:257-259 | Every relevant definition file's name ends in the `l` of `.yaml` or `.yml` |
| Paths.NotEndingInLNotDefinition | rules_test.go:257-259 | A non-empty name ending in any other character is never a relevant definition |
| Paths.CompanionPaths | rules_test.go:199-206 | The suite path of any definition is a `.test.yaml` test file with extension `.yaml` and stem `<stem>.test`; the fixture path has extension `.testdata`, keeps the definition's stem and is neither a test file nor a definition |
| Paths.CompanionsOfStem | rules_test.go:199-206 | For any stem and well-formed extension, the suite path is the stem followed by `.test.yaml` and the fixture path the stem followed by `.testdata` |
| Paths.CompanionExamples | rules_test.go:199-206 | `d/foo.yaml` pairs with `d/foo.test.yaml` and `d/foo.testdata` |
| Paths.YmlDefinitionExample | rules_test.go:199-200 | `d/foo.yml` is also paired with `d/foo.test.yaml`, not with a `.test.yml` file |
| Paths.TestFileExtExample | rules_test.go:253-255 | `x.test.yaml` has extension `.yaml` and stem `x.test`: only the last extension is removed |
| Paths.NormalizeIgnoresPrefix | rules_test.go:249-251 | The test name depends only on what follows the first 11 characters, whatever those characters are |
| Paths.NormalizeUnderRuleTypes | rules_test.go:249-251 | Under `rule-types/` the test name is the relative path without its extension |
| Paths.NormalizeUnderSecondFolder | rules_test.go:249-251 | As written, `security-baseline/rule-types/foo.yaml` is named `seline/rule-types/foo` |
| Paths.GroupNameUnderSecondFolder | rules_test.go:249-251 | The corrected name of `security-baseline/rule-types/foo.yaml`, walked under `security-baseline/rule-types`, is `foo` |
| Paths.GroupName | rules_test.go:249-251 | The corrected group name: the path relative to the walked folder, without its extension (the whole path without its extension when the path lies outside the folder) |
| Paths.GroupNameAgreesUnderRuleTypes | rules_test.go:249-251 | Under `rule-types/` the corrected name equals the name the harness computes |
| Paths.GroupNameRelative | rules_test.go:249-251 | Under any folder, the corrected name followed by the relative path's extension is the relative path |
| Paths.Join | rules_test.go:305 | Empty elements are ignored; otherwise the two parts are joined by one separator |
| Entities.DecodeEntity | rules_test.go:57-86 | Exactly a node that is neither a mapping nor null is the not-a-mapping error. A null node or a missing `type` key gives the missing-type error, and a non-string `type` gives the not-a-string error, in both directions. With a string `type`, decoding succeeds exactly when the chosen kind accepts the `entity` payload, and otherwise fails with the decoder's message. On success the wrapper's type is the `type` string, the kind is Repository exactly for `repo`/`repository`, and the payload is the `entity` key (null when absent) |
| Entities.DecodeDependsOnlyOnTypeAndPayload | rules_test.go:63-85 | Two raw mappings that agree on `type` and `entity` decode identically; no other key matters |
| Entities.KindOf | rules_test.go:73-78 | The discriminator selects Repository exactly for `repo` and `repository` |
| Entities.DiscriminatorChoosesKind | rules_test.go:73-85 | When the kind chosen by `type: t` accepts the payload, decoding succeeds with type `t`, that kind and that payload; the kind is Repository exactly for `repo`/`repository` |
| Entities.DecodeTests | rules_test.go:119-127 | A suite decodes exactly when every present entity decodes; absent or null entities are not decoded. Then every test keeps its fields and order, and gets its own decoded entity or the zero wrapper. Otherwise the error is the error of one of the present entities |
| Entities.DecodeSuite | rules_test.go:119-128 | The suite keeps its version and decodes exactly when all its tests' present entities do |
| Entities.SuiteWithoutEntitiesDecodes | rules_test.go:119-127 | A suite whose tests have no entity, or a null one, always loads, every test keeping its fields with the zero wrapper |
| Entities.NullEntityIsAbsent | rules_test.go:119-127 | A test with `entity: null` loads with the zero wrapper, exactly as one without the key |
| Fixtures.ReadFile | rules_test.go:326-333 | Succeeds exactly when `Join(dir, file)` is readable, giving its contents; otherwise it fails naming the file |
| Fixtures.GitTestOpts | rules_test.go:302-306 | Succeeds exactly when the git config is set and the fixture directory exists; a missing config and a missing directory are distinct errors; the option is the git directory `Join(rtDataPath, RepoBase)` |
| Fixtures.GitDirUnderDataPath | rules_test.go:305 | The git directory lies inside the fixture directory: the fixture directory, then a separator and `RepoBase` when that is non-empty |
| Fixtures.DefaultedHttp | rules_test.go:311-322 | After the defaulting, status 0 has become 200 and any other status is unchanged; a nil header map has become empty and a non-nil one is unchanged; the body is the file's contents exactly when a body file is named and readable in an existing fixture directory, and is unchanged otherwise |
| Fixtures.HttpOption | rules_test.go:308-323 | It succeeds exactly when the HTTP config is present and either names no body file or names one that is readable in an existing fixture directory. A missing HTTP config, a missing fixture directory (only when a body file is named) and an unreadable body file are the matching errors. On success the response has status 200 for 0 and the given status otherwise, an empty header map for nil and the given one otherwise, and a body that is the literal body without a body file or the file's contents with one |
| Fixtures.HttpDefaultingIdempotent | rules_test.go:308-323 | Defaulting an already defaulted fixture changes nothing and yields the same response |
| Fixtures.HttpTestOpts | rules_test.go:308-323 | The in-place version: a nil fixture is an error and nothing changes; otherwise the object's fields become the defaulted fixture and the result is the response above |
| RuleTypes.WithTestProject | rules_test.go:221-227 | After the override the rule type has a scope whose project is `rule-type-test`; its ingest kind and the rest of the definition are unchanged; an existing scope keeps its other fields, and a new scope has none set |
| RuleTypes.WithTestProjectIdempotent | rules_test.go:221-227 | Overriding twice equals overriding once; a rule type already scoped to the test project is unchanged |
| RuleTypes.OverrideProject | rules_test.go:221-227 | The in-place version: an existing context object is kept, and a fresh one is allocated only when there was none; afterwards the rule type equals the value-level override of its old value |
| Verdicts.CheckResult | rules_test.go:166-173 | For `pass` the case passes exactly when there is no error. For any other value it passes exactly when there is an error and either `error_text` is empty or both texts are equal once trimmed. A non-empty `error_text` that differs from the error once both are trimmed is reported as `TextMismatch` of the two trimmed texts, and a `TextMismatch` always carries those texts |
| Verdicts.TrimEqualIffSameUpToPadding | rules_test.go:171 | Two texts are equal once trimmed exactly when they are one trimmed core with white space around it |
| Verdicts.ErrorTextMatchesUpToPadding | rules_test.go:168-172 | A case with a non-`pass` expectation and a non-empty `error_text` passes exactly when the error message is that text up to surrounding white space |
| Verdicts.NonPassExpectationsAgree | rules_test.go:166-170 | `fail`, `error`, `skip` and an unknown value such as `Pass` give the same verdict for every error and text, and each requires an error |
| Verdicts.BoomExamples | rules_test.go:168-172 | With `error_text` `boom`, the messages `boom` and `boom\n` pass and `boomz` fails, reporting both texts |
| Driver.IngestSetup | rules_test.go:140-147 | Any kind other than `git`/`rest` is unsupported and carries its kind. For `git` the setup is configured exactly when `gitTestOpts` succeeds, with its option, and otherwise fails with its error; for `rest` the same holds of `httpTestOpts`. A git option arises exactly for `git` with a git config and an existing fixture directory, and names `Join(rtDataPath, RepoBase)` |
| Driver.RunCase | rules_test.go:139-174 | A case is skipped exactly for an unsupported kind, with the `Unsupported ingest type` message. A stub error fails it. It passes only if the stub was built, the engine was created, both schema checks accepted the case, and the comparison passed. Once the stub is built, the first of the engine's errors fails the case with its own failure, and otherwise a failed comparison fails it with that comparison's mismatch |
| Driver.CaseFollowsComparison | rules_test.go:154-173 | Once the stub and engine are built and both schemas accept, the case passes exactly when the comparison passes; a schema violation fails the case whatever it expects |
| Driver.PassingCaseSawExpectedError | rules_test.go:165-169 | In a passing case, `Eval` returned no error exactly when the case expected `pass` |
| Driver.RestScenario | rules_test.go:143-144 | A `rest` case with body `{}` gets a 200 response with that body and no headers, and passes when it expects `pass` and the engine reports no error |
| Driver.Selected | rules_test.go:185-194 | Models which paths the walk callback visits: relevant definition files, in walk order, up to the first walk error; stated by `Driver.SelectedAreDefinitions`, `Driver.DefinitionsBeforeFailureSelected`, `Driver.SelectedInWalkOrder` and `Driver.SelectedOnlyBeforeFailure` |
| Driver.WalkError | rules_test.go:186-188 | Models the error `filepath.Walk` returns: the first failing entry's (`Driver.WalkErrorIsFirstFailure`); the loop of `Driver.DiscoverDefinitions` is proved to return it |
| Driver.WalkErrorIsFirstFailure | rules_test.go:186-188 | The walk fails exactly when some entry is a failure, and the message is that of the failure at the lowest index |
| Driver.SelectedAreDefinitions | rules_test.go:185-194 | Every visited path is a file entry of the walk and a relevant definition, never a test file |
| Driver.DefinitionsBeforeFailureSelected | rules_test.go:185-194 | Every relevant definition file that the walk meets before its first error is visited |
| Driver.SelectedInWalkOrder | rules_test.go:185-194 | The visited paths are placed in the walk by strictly increasing indices: the k-th visited path is the file entry at its index, and no walk error comes at or before it |
| Driver.SelectedOnlyBeforeFailure | rules_test.go:185-188 | Nothing after the first walk error is visited: each visited path is a file entry preceded by no walk error |
| Driver.DiscoverDefinitions | rules_test.go:185-194 | The walk loop collects exactly the selected definitions, in walk order, and returns the walk's first error |
| Driver.LoadSuite | rules_test.go:265-281 | A suite loads exactly when its file is readable, the parser accepts it and its entities decode, and is then the decoded suite. An unreadable file, a parser error and an entity error are each reported as their own failure |
| Driver.LoadRuleType | rules_test.go:283-300 | A rule type loads exactly when its file is readable and the parser accepts it, and is then the parsed value; an unreadable file and a parser error are each reported as their own failure |
| Driver.PrepareGroup | rules_test.go:207-232 | A group is prepared exactly when the suite loads, the rule type loads and its overridden form passes validation; it then holds the overridden rule type and the suite. Otherwise the failure is the first failing step's: the suite's, then the rule type's, then the validation message |
| Driver.GroupOf | rules_test.go:196-243 | Models the subtest of one definition, named by `normalizeTestNameFromPath`; its outcomes are stated by `Driver.GroupOutcomes`, and `Driver.RunGroup` is proved equal to it |
| Driver.GroupOutcomes | rules_test.go:196-243 | A group is named by `normalizeTestNameFromPath`. It is skipped exactly when its suite path does not exist, with the `No test file found` message. It fails before any case exactly when loading or validation fails, with that step's failure. Otherwise it has one outcome per case, in declaration order, each run against the overridden rule type and the `.testdata` directory |
| Driver.UnreadableSuiteFailsGroup | rules_test.go:201-212 | A suite path that exists but is not a readable file fails the group as unopened instead of skipping it |
| Driver.UnsupportedKindSkipsEveryCase | rules_test.go:145-146 | In a group whose rule type has an unsupported ingest kind, every case is skipped with a message naming that kind |
| Driver.RunCases | rules_test.go:234-242 | The loop over a suite's cases yields one report per case, in declaration order, each the case's name and its outcome |
| Driver.RunGroup | rules_test.go:196-243 | The imperative group step builds the rule type object, overrides its project in place and loops over the cases; its report, name included, equals `Driver.GroupOf` |
| Driver.RootsAreNotDefinitions | rules_test.go:137 | Neither folder walked is itself a definition file, so a walk entry for the folder is never visited |
| Driver.SelectedBelowRoot | rules_test.go:137-196 | When the walk yields only `rule-types` or `security-baseline/rule-types` itself and paths below it, every visited definition lies below that folder and is long enough for the 11 characters the test name drops |
| Driver.RunGroups | rules_test.go:185-243 | Running the visited definitions' groups one after another gives one report per definition, each equal to `Driver.GroupOf` of that definition |
| Driver.RunFolder | rules_test.go:137-194 | One of the two folders of the run: one report per selected definition, in walk order, each equal to `Driver.GroupOf` of that definition, together with the walk's error |

## Left out

- File-system access (`filepath.Walk`, `os.Stat`, `os.Open`, `os.ReadFile`, `DirExistsf`) is I/O. The walk is a given sequence of entries, and the file system is a set of directories, a map of readable files and a set of other existing paths. A path on which `os.Stat` fails for a reason other than "not found" belongs to that last set, so it is not skipped.
- Driver.LoadSuite: a directory standing at the suite path fails in the model as not opened. In the source `os.Open` succeeds on it and the parser fails to read it; the group fails either way.
- Error messages of foreign code (`os.Open`, the parsers) are not modelled; a failure carries the path or the parser's message.
- Strings are sequences of characters, not bytes. The 11 dropped by `normalizeTestNameFromPath` are bytes in Go, so the model agrees with it for ASCII paths only.
- YAML decoding, `json.Marshal`, `protojson.Unmarshal`, `minderv1.ParseResource` and `rt.Validate()` belong to foreign libraries and protobuf schemas. They are opaque parameters. A decoded entity is represented by its kind and raw payload. A parsed rule type keeps its ingest kind and scope; every other field it reads from the file is one opaque text, which the validator and the engine see and the override keeps.
- Entities.Value: mapping keys are strings. A nested mapping with a non-string key, such as `{1: a}`, which `yaml.v3` decodes to `map[interface{}]interface{}` and `json.Marshal` rejects, is represented like its string-keyed counterpart. Whether such a payload is accepted is left to the opaque `conforms`, which cannot tell the two apart.
- Entities.DecodeSuite: the model reports the first entity error in declaration order, and lets a parse error of the rest of the document take precedence. `yaml.v3` may instead collect several type errors into one message. Only success versus failure is modelled exactly.
- The receiver fields that `UnmarshalYAML` assigns before it fails are not modelled, because a failing entity fails the whole suite and the partial wrapper is never read.
- Engine construction, schema validation and `Eval`, together with the test kit's `ShouldOverrideIngest`/`WithCustomIngester`, form an external engine. Their results are given per case by `Harness.engine`.
- `t.Parallel`, the nested `t.Run` fan-out, `os.Setenv("REGO_ENABLE_PRINT")` and the zerolog level are concurrency and process-wide plumbing. Cases run in declaration order in the model, and each outcome depends only on its own case.
- The loop over the two folders in `TestRuleTypes` is not a member of its own. `RunFolder` models one folder and requires that it is one of the two.
- Paths.Join does not apply `filepath.Clean`. The separator is `/`.
- Strings.TrimSpace takes the white-space set as a parameter rather than Go's Unicode white-space table.
- Fixtures.HttpTestOpts models the `require` failures as returned errors. The source stops the test case with `FailNow` instead.

## Findings

| source | as written | input that shows it | evidently intended | confidence | as-written member | corrected member |
|---|---|---|---|---|---|---|
| rules_test.go:249-251 | The test name drops a fixed 11 characters, the length of `rule-types/`, for every folder walked, including `security-baseline/rule-types` | `security-baseline/rule-types/foo.yaml` is named `seline/rule-types/foo` | The path relative to the walked folder without its extension, `foo`, as it already is under `rule-types` | medium; not executed | Paths.NormalizeUnderSecondFolder | Paths.GroupName |

The driver names groups as the source does (`Driver.GroupOf` uses `Paths.NormalizeTestNameFromPath`), so its reports carry the as-written names.
`Paths.GroupName` is the corrected name. `Paths.GroupNameUnderSecondFolder` proves the intended `foo` for it, and `Paths.GroupNameAgreesUnderRuleTypes` proves that it agrees with the as-written name under `rule-types`, where the harness is correct.
