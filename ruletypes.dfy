/**
 * A parsed rule type: the two parts the harness reads or writes, the
 * ingestion kind (`rt.Def.Ingest.Type`) and the scope (`rt.Context`),
 * beside the rest of the definition, which only the validator and the
 * engine look at.  Then the override that gives every rule type under test a project so
 * that an engine can be built for it.
 */
module RuleTypes {
  import opened Wrappers

  /** The placeholder project set on every rule type under test. */
  const TestProject: string := "rule-type-test"

  /** `minderv1.Context`: `project`, and the provider, which stands for the scope fields the override keeps. */
  datatype Scope = Scope(project: Option<string>, provider: Option<string>)

  /**
   * `minderv1.RuleType`; `context` is `None` for a nil pointer, and `rest`
   * stands for every other field the parser fills from the file (name,
   * schemas, evaluation, ...), opaque to the harness.
   */
  datatype RuleTypeDef = RuleTypeDef(ingestType: string, context: Option<Scope>, rest: string)

  /** The rule type after the project override: a scope exists and names the test project. */
  function WithTestProject(rt: RuleTypeDef): (r: RuleTypeDef)
    ensures r.context.Some? && r.context.value.project == Some(TestProject)
    ensures r.ingestType == rt.ingestType && r.rest == rt.rest
    ensures rt.context.Some? ==> r.context.value.provider == rt.context.value.provider
    ensures rt.context.None? ==> r.context.value.provider == None
  {
    var scope := if rt.context.None? then Scope(None, None) else rt.context.value;
    rt.(context := Some(scope.(project := Some(TestProject))))
  }

  /** Overriding twice is overriding once, and a rule type that already names the test project is left as it is. */
  lemma WithTestProjectIdempotent(rt: RuleTypeDef)
    ensures WithTestProject(WithTestProject(rt)) == WithTestProject(rt)
    ensures rt.context.Some? && rt.context.value.project == Some(TestProject) ==> WithTestProject(rt) == rt
  {
  }

  class Context {
    var project: Option<string>
    var provider: Option<string>

    constructor ()
      ensures project == None && provider == None
    {
      project, provider := None, None;
    }
  }

  class RuleType {
    var ingestType: string
    var context: Context?
    var rest: string

    function View(): RuleTypeDef
      reads this, context
    {
      RuleTypeDef(ingestType, if context == null then None else Some(Scope(context.project, context.provider)), rest)
    }

    constructor (ingestType: string, context: Context?, rest: string)
      ensures this.ingestType == ingestType && this.context == context && this.rest == rest
    {
      this.ingestType, this.context, this.rest := ingestType, context, rest;
    }
  }

  /**
   * Lines 222-227: allocate a context when there is none, then point its
   * project at the placeholder.  An existing context object is kept.
   */
  method OverrideProject(rt: RuleType)
    modifies rt, rt.context
    ensures rt.View() == WithTestProject(old(rt.View()))
    ensures old(rt.context) != null ==> rt.context == old(rt.context)
    ensures old(rt.context) == null ==> fresh(rt.context)
    ensures rt.ingestType == old(rt.ingestType) && rt.rest == old(rt.rest)
  {
    if rt.context == null {
      rt.context := new Context();
    }
    rt.context.project := Some(TestProject);
  }
}
