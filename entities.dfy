/**
 * The suite model of rules_test.go and the custom decoding of a test's
 * `entity` mapping (`EntityVersionWrapper.UnmarshalYAML`).
 *
 * YAML values are a small tree (`Value`).  The schema-aware decoding of
 * the payload into a protobuf message (`json.Marshal` then
 * `protojson.Unmarshal`) is the opaque function `conforms`: it returns the
 * decoder's error for a payload the chosen message kind rejects, or
 * `None`.  The decoded entity is represented by its kind and its payload.
 *
 * `yaml.v3` calls `UnmarshalYAML` only for an `entity` key that is present
 * and not null; otherwise the wrapper keeps its zero value.
 */
module Entities {
  import opened Wrappers

  /**
   * A decoded YAML value, as `yaml.v3` returns it for `any`; a float,
   * timestamp or binary scalar is `Other`, with its resolved tag and its
   * text, so that no two distinct scalars are merged.
   */
  datatype Value =
    | Null
    | Str(s: string)
    | Int(i: int)
    | Bool(b: bool)
    | Other(tag: string, text: string)
    | List(items: seq<Value>)
    | Mapping(entries: map<string, Value>)

  /** The concrete message chosen by the `type` discriminator. */
  datatype EntityKind = Repository | EntityInstance

  /** `EntityVersionWrapper` after a successful `UnmarshalYAML`. */
  datatype EntityVersionWrapper = EntityVersionWrapper(typ: string, kind: EntityKind, payload: Value)

  datatype EntityError =
    | NotAMapping                 // `value.Decode(&entity)` failed
    | MissingType                 // "missing type field from entity definition"
    | TypeNotString               // "entity type field must be a string"
    | PayloadRejected(msg: string) // the payload does not decode into the chosen message

  /** The discriminator values that select the Repository message. */
  predicate IsRepositoryType(typ: string)
  {
    typ == "repo" || typ == "repository"
  }

  /** The message kind a discriminator selects (lines 73-78). */
  function KindOf(typ: string): (k: EntityKind)
    ensures k == Repository <==> IsRepositoryType(typ)
  {
    if IsRepositoryType(typ) then Repository else EntityInstance
  }

  /** `value.Decode(&entity)` into `map[string]any`: a null node leaves the map nil, that is empty. */
  function AsMapping(node: Value): Result<map<string, Value>, EntityError>
  {
    match node
    case Mapping(m) => Success(m)
    case Null => Success(map[])
    case _ => Failure(NotAMapping)
  }

  /** `entity["entity"]`: a missing key reads as nil. */
  function Lookup(m: map<string, Value>, key: string): Value
  {
    if key in m then m[key] else Null
  }

  /**
   * The decision of `UnmarshalYAML`: the `type` key picks the message kind,
   * and the `entity` key is decoded into it.
   */
  function DecodeEntity(node: Value, conforms: (EntityKind, Value) -> Option<string>): (r: Result<EntityVersionWrapper, EntityError>)
    ensures r == Failure(NotAMapping) <==> !node.Mapping? && !node.Null?
    ensures (node.Null? || (node.Mapping? && "type" !in node.entries)) <==> r == Failure(MissingType)
    ensures (node.Mapping? && "type" in node.entries && !node.entries["type"].Str?) <==> r == Failure(TypeNotString)
    ensures r.Success? ==>
      && node.Mapping? && "type" in node.entries && node.entries["type"] == Str(r.value.typ)
      && (r.value.kind == Repository <==> IsRepositoryType(r.value.typ))
      && r.value.payload == Lookup(node.entries, "entity")
      && conforms(r.value.kind, r.value.payload).None?
    ensures r.Failure? && r.error.PayloadRejected? ==>
      node.Mapping? && "type" in node.entries && node.entries["type"].Str?
    ensures node.Mapping? && "type" in node.entries && node.entries["type"].Str? ==>
      var kind := KindOf(node.entries["type"].s);
      var verdict := conforms(kind, Lookup(node.entries, "entity"));
      && (r.Success? <==> verdict.None?)
      && (verdict.Some? ==> r == Failure(PayloadRejected(verdict.value)))
  {
    match AsMapping(node)
    case Failure(e) => Failure(e)
    case Success(m) =>
      if "type" !in m then Failure(MissingType)
      else if !m["type"].Str? then Failure(TypeNotString)
      else
        var typ := m["type"].s;
        var kind := KindOf(typ);
        var payload := Lookup(m, "entity");
        match conforms(kind, payload)
        case Some(msg) => Failure(PayloadRejected(msg))
        case None => Success(EntityVersionWrapper(typ, kind, payload))
  }

  /** Decoding looks at the `type` and `entity` keys only: other keys never matter. */
  lemma DecodeDependsOnlyOnTypeAndPayload(m: map<string, Value>, n: map<string, Value>,
                                          conforms: (EntityKind, Value) -> Option<string>)
    requires ("type" in m) == ("type" in n) && ("type" in m ==> m["type"] == n["type"])
    requires Lookup(m, "entity") == Lookup(n, "entity")
    ensures DecodeEntity(Mapping(m), conforms) == DecodeEntity(Mapping(n), conforms)
  {
  }

  /**
   * A payload that the message kind chosen by `typ` accepts decodes:
   * `repo` and `repository` give a Repository, every other string an
   * entity instance.
   */
  lemma DiscriminatorChoosesKind(typ: string, payload: Value, conforms: (EntityKind, Value) -> Option<string>)
    requires conforms(KindOf(typ), payload).None?
    ensures var r := DecodeEntity(Mapping(map["type" := Str(typ), "entity" := payload]), conforms);
      && r == Success(EntityVersionWrapper(typ, KindOf(typ), payload))
      && (r.value.kind == Repository <==> typ == "repo" || typ == "repository")
  {
  }

  /** The fields of a `RuleTest` other than its entity. */
  datatype Git = Git(repoBase: string)

  /** `HTTPTest`; `headers` is `None` for a nil map. */
  datatype Http = Http(status: int, body: string, bodyFile: string, headers: Option<map<string, string>>)

  datatype TestFields = TestFields(
    name: string,
    def: map<string, Value>,
    params: map<string, Value>,
    expected: string,
    errorText: string,
    git: Option<Git>,
    http: Option<Http>)

  /**
   * A test as the YAML decoder sees it before `UnmarshalYAML` runs; `entity`
   * is `None` when the key is absent and `Some(Null)` when it is null.
   */
  datatype RawTest = RawTest(fields: TestFields, entity: Option<Value>)

  /** The test has an `entity` that `UnmarshalYAML` is called on: present and not null. */
  predicate HasEntity(raw: RawTest)
  {
    raw.entity.Some? && !raw.entity.value.Null?
  }

  /** `RuleTestSuite` as the YAML decoder sees it before the entities are decoded. */
  datatype RawSuite = RawSuite(version: string, tests: seq<RawTest>)

  /** `RuleTest`; `entity` is `None` for the zero wrapper (empty type, nil message). */
  datatype RuleTest = RuleTest(fields: TestFields, entity: Option<EntityVersionWrapper>)

  /** `RuleTestSuite`. */
  datatype RuleTestSuite = RuleTestSuite(version: string, tests: seq<RuleTest>)

  /** A test's entity decodes: it is absent, or `UnmarshalYAML` accepts it. */
  predicate EntityDecodes(raw: RawTest, conforms: (EntityKind, Value) -> Option<string>)
  {
    !HasEntity(raw) || DecodeEntity(raw.entity.value, conforms).Success?
  }

  /** The test a raw test becomes when its entity decodes. */
  function Decoded(raw: RawTest, conforms: (EntityKind, Value) -> Option<string>): RuleTest
    requires EntityDecodes(raw, conforms)
  {
    RuleTest(raw.fields, if HasEntity(raw) then Some(DecodeEntity(raw.entity.value, conforms).value) else None)
  }

  /**
   * The entity step of decoding a suite: every present entity is decoded
   * in declaration order, an absent or null one stays the zero wrapper, and the
   * first failure fails the whole suite.
   */
  function DecodeTests(raws: seq<RawTest>, conforms: (EntityKind, Value) -> Option<string>): (r: Result<seq<RuleTest>, EntityError>)
    ensures r.Success? <==> forall i :: 0 <= i < |raws| ==> EntityDecodes(raws[i], conforms)
    ensures r.Success? ==> |r.value| == |raws| && forall i :: 0 <= i < |raws| ==>
      EntityDecodes(raws[i], conforms) && r.value[i] == Decoded(raws[i], conforms)
    ensures r.Failure? ==> exists i :: 0 <= i < |raws| && HasEntity(raws[i]) && DecodeEntity(raws[i].entity.value, conforms) == Failure(r.error)
    decreases |raws|
  {
    if raws == [] then Success([])
    else if HasEntity(raws[0]) && DecodeEntity(raws[0].entity.value, conforms).Failure? then
      Failure(DecodeEntity(raws[0].entity.value, conforms).error)
    else
      match DecodeTests(raws[1..], conforms)
      case Failure(e) => Failure(e)
      case Success(rest) => Success([Decoded(raws[0], conforms)] + rest)
  }

  /** The suite with every entity decoded, or the first entity error. */
  function DecodeSuite(raw: RawSuite, conforms: (EntityKind, Value) -> Option<string>): (r: Result<RuleTestSuite, EntityError>)
    ensures r.Success? <==> DecodeTests(raw.tests, conforms).Success?
    ensures r.Success? ==> r.value == RuleTestSuite(raw.version, DecodeTests(raw.tests, conforms).value)
    ensures r.Failure? ==> r.error == DecodeTests(raw.tests, conforms).error
  {
    match DecodeTests(raw.tests, conforms)
    case Failure(e) => Failure(e)
    case Success(tests) => Success(RuleTestSuite(raw.version, tests))
  }

  /** A suite whose tests have no `entity` key (or a null one) loads, with every wrapper left zero. */
  lemma SuiteWithoutEntitiesDecodes(raw: RawSuite, conforms: (EntityKind, Value) -> Option<string>)
    requires forall i :: 0 <= i < |raw.tests| ==> !HasEntity(raw.tests[i])
    ensures DecodeSuite(raw, conforms).Success?
    ensures var suite := DecodeSuite(raw, conforms).value;
      && suite.version == raw.version && |suite.tests| == |raw.tests|
      && forall i :: 0 <= i < |raw.tests| ==> suite.tests[i] == RuleTest(raw.tests[i].fields, None)
  {
  }

  /** A null `entity` is left alone like an absent one: the suite loads with the zero wrapper. */
  lemma NullEntityIsAbsent(version: string, fields: TestFields, conforms: (EntityKind, Value) -> Option<string>)
    ensures DecodeSuite(RawSuite(version, [RawTest(fields, Some(Null))]), conforms)
      == Success(RuleTestSuite(version, [RuleTest(fields, None)]))
  {
    SuiteWithoutEntitiesDecodes(RawSuite(version, [RawTest(fields, Some(Null))]), conforms);
    var suite := DecodeSuite(RawSuite(version, [RawTest(fields, Some(Null))]), conforms).value;
    assert suite.tests == [RuleTest(fields, None)];
  }
}
