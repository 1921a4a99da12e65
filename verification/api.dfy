/** The request handlers of app/main.py: guard the input, call the engine, build the
    response; and the global handler that turns an escaped exception into an HTTP
    error. Framework plumbing (routing, static files, serialisation) is not modelled. */
module Api {
  import opened Outcomes
  import opened Text
  import opened Yaml
  import opened JsonValue
  import opened Fences
  import opened Structural
  import opened Engine

  /** The collaborators the handlers reach through the engine: the model API client,
      yaml.safe_load and json.loads. */
  datatype Services = Services(
    complete: ModelCall -> Reply,
    safeLoad: string -> Result<YamlValue, string>,
    loads: string -> Result<Json, string>)

  datatype GenerateRequest = GenerateRequest(
    description: string, context: Option<string>, severity: Option<string>, tags: Option<seq<string>>)

  /** The body of the explain, validate and optimize requests. */
  datatype RuleRequest = RuleRequest(ruleYaml: string)

  datatype ChatRequest = ChatRequest(message: string, history: Option<seq<ChatTurn>>)

  datatype RuleResponse = RuleResponse(
    success: bool,
    ruleYaml: Option<string>,
    explanation: Option<string>,
    errors: Option<seq<string>>,
    warnings: Option<seq<string>>,
    suggestions: Option<seq<string>>)

  datatype ChatResponse = ChatResponse(response: string)

  /** A handler's answer: a body, or an HTTP error with its `detail`. */
  datatype Http<T> = Ok(body: T) | HttpError(status: nat, detail: string)

  // ----- global_exception_handler -----

  const AuthDetail :=
    "ANTHROPIC_API_KEY is not set. Add it to your .env file or export it as an environment variable."

  /** The words that mark an exception as a credentials problem, in lower case. */
  const AuthWords: seq<string> := ["api_key", "authentication", "auth_token"]

  predicate IsAuthFailure(message: string) {
    exists k :: 0 <= k < |AuthWords| && Contains(Lower(message), AuthWords[k])
  }

  /** global_exception_handler (app/main.py:40-48). */
  function ExceptionResponse<T>(message: string): Http<T> {
    if IsAuthFailure(message) then HttpError(401, AuthDetail)
    else HttpError(500, "Internal error: " + message)
  }

  /** The handler answers 401 with the fixed hint exactly when the message mentions one
      of the words in any letter case (`API_KEY`, `Authentication`, ...); otherwise 500
      with the message kept for diagnosis. */
  lemma ExceptionClassification<T>(message: string, word: string)
    ensures Contains(message, word) && Lower(word) in AuthWords ==>
      ExceptionResponse<T>(message) == HttpError(401, AuthDetail)
    ensures !IsAuthFailure(message) ==>
      ExceptionResponse<T>(message) == HttpError(500, "Internal error: " + message)
    ensures ExceptionResponse<T>(message).HttpError?
    ensures ExceptionResponse<T>(message).status in {401, 500}
  {
    if Contains(message, word) && Lower(word) in AuthWords {
      LowerKeepsContains(message, word);
      var k :| 0 <= k < |AuthWords| && AuthWords[k] == Lower(word);
      assert Contains(Lower(message), AuthWords[k]);
    }
  }

  // ----- the input guards -----

  /** Python's `not s.strip()`. */
  predicate Blank(s: string) {
    Strip(s) == ""
  }

  // ----- /api/generate, /api/explain, /api/optimize -----

  /** Python's `x or default` on an optional string: None and "" give the default. */
  function StringOr(x: Option<string>, default: string): string {
    if x.None? || x.value == "" then default else x.value
  }

  /** The arguments api_generate_rule passes on (app/main.py:77-82). */
  function GenerateArgsOf(req: GenerateRequest): GenerateArgs {
    GenerateArgs(
      req.description,
      StringOr(req.context, "Kubernetes environment"),
      StringOr(req.severity, "WARNING"),
      if req.tags.None? || req.tags.value == [] then [] else req.tags.value)
  }

  /** The first line of the ValidationError pydantic raises when a RuleResponse field
      has the wrong type. */
  function ResponseValidationError(count: nat): string {
    DecimalString(count) + " validation error" + (if count == 1 then "" else "s") + " for RuleResponse"
  }

  /** The response of generate, explain and optimize once the engine has returned:
      `rule_yaml` for generate, `explanation` for the other two. The failure branch is
      kept as written, although the engine never takes it. */
  function TextResponse(r: TextResult, asRuleYaml: bool): Http<RuleResponse> {
    if !r.success then
      match r.error
      case Some(e) => Ok(RuleResponse(false, None, None, Some([e]), None, None))
      case None => ExceptionResponse(ResponseValidationError(1))
    else if asRuleYaml then Ok(RuleResponse(true, r.text, None, None, None, None))
    else Ok(RuleResponse(true, None, r.text, None, None, None))
  }

  function TextOutcome(run: Run<TextResult>, asRuleYaml: bool): Http<RuleResponse> {
    match run.outcome
    case Raise(e) => ExceptionResponse(e)
    case Return(r) => TextResponse(r, asRuleYaml)
  }

  /** api_generate_rule (app/main.py:68-87). */
  function ApiGenerate(req: GenerateRequest, services: Services): Http<RuleResponse> {
    if Blank(req.description) then HttpError(400, "Description cannot be empty")
    else TextOutcome(GenerateRule(GenerateArgsOf(req), services.complete), true)
  }

  /** api_explain_rule (app/main.py:90-104). */
  function ApiExplain(req: RuleRequest, services: Services): Http<RuleResponse> {
    if Blank(req.ruleYaml) then HttpError(400, "Rule YAML cannot be empty")
    else TextOutcome(ExplainRule(req.ruleYaml, services.complete), false)
  }

  /** api_optimize_rule (app/main.py:129-143). */
  function ApiOptimize(req: RuleRequest, services: Services): Http<RuleResponse> {
    if Blank(req.ruleYaml) then HttpError(400, "Rule YAML cannot be empty")
    else TextOutcome(OptimizeRule(req.ruleYaml, services.complete), false)
  }

  // ----- /api/validate -----

  const ServiceErrorText := "Validation service error"

  /** A `bool` field of the response: only a JSON boolean is accepted. */
  function AsBool(j: Json): Option<bool> {
    if j.JBool? then Some(j.b) else None
  }

  /** An `Optional[List[str]]` field: null, or an array of strings. */
  function AsStringList(j: Json): Option<Option<seq<string>>> {
    if j.JNull? then Some(None)
    else match StringsOf(j)
      case Some(ss) => Some(Some(ss))
      case None => None
  }

  /** How many of the items are not strings: pydantic (version 2) reports one error for
      each of them. */
  function NonStrings(items: seq<Json>): (n: nat)
    ensures n <= |items|
    ensures n == 0 <==> forall i :: 0 <= i < |items| ==> items[i].JStr?
  {
    if items == [] then 0
    else
      var init := items[..|items| - 1];
      var n := NonStrings(init);
      assert forall i :: 0 <= i < |init| ==> init[i] == items[i];
      n + (if items[|items| - 1].JStr? then 0 else 1)
  }

  /** How many errors pydantic reports for an `Optional[List[str]]` field: none for null,
      one per item that is not a string for an array, one for any other value. The field
      is accepted exactly when there are none. */
  function ListFieldErrors(j: Json): (n: nat)
    ensures n == 0 <==> AsStringList(j).Some?
    ensures j.JArr? ==> n <= |j.items|
  {
    if j.JNull? then 0 else if j.JArr? then NonStrings(j.items) else 1
  }

  /** `result.get(key, default)`. */
  function FieldOr(fields: map<string, Json>, key: string, default: Json): Json {
    if key in fields then fields[key] else default
  }

  /** The response api_validate_rule builds from what validate_rule returned
      (app/main.py:118-126). */
  function ValidationResponse(v: Validation): Http<RuleResponse> {
    if !v.success then Ok(RuleResponse(false, None, None, Some([ServiceErrorText]), None, None))
    else if !v.result.JObj? then ExceptionResponse(NoGetError(v.result))
    else
      var f := v.result.fields;
      var valid := AsBool(FieldOr(f, "valid", JBool(false)));
      var errors := AsStringList(FieldOr(f, "errors", JArr([])));
      var warnings := AsStringList(FieldOr(f, "warnings", JArr([])));
      var suggestions := AsStringList(FieldOr(f, "suggestions", JArr([])));
      var bad := (if valid.None? then 1 else 0) + ListFieldErrors(FieldOr(f, "errors", JArr([])))
        + ListFieldErrors(FieldOr(f, "warnings", JArr([])))
        + ListFieldErrors(FieldOr(f, "suggestions", JArr([])));
      if bad > 0 then ExceptionResponse(ResponseValidationError(bad))
      else Ok(RuleResponse(valid.value, None, None, errors.value, warnings.value, suggestions.value))
  }

  /** api_validate_rule (app/main.py:107-126). */
  function ApiValidate(req: RuleRequest, services: Services): Http<RuleResponse> {
    if Blank(req.ruleYaml) then HttpError(400, "Rule YAML cannot be empty")
    else
      match ValidateOutcome(req.ruleYaml, services.safeLoad, services.complete, services.loads).outcome
      case Raise(e) => ExceptionResponse(e)
      case Return(v) => ValidationResponse(v)
  }

  // ----- /api/chat -----

  /** `request.history or []`, each entry reduced to role and content (app/main.py:155). */
  function HistoryOf(req: ChatRequest): seq<ChatTurn> {
    var h := if req.history.None? then [] else req.history.value;
    seq(|h|, i requires 0 <= i < |h| => ChatTurn(h[i].role, h[i].content))
  }

  /** api_chat (app/main.py:146-158). */
  function ApiChat(req: ChatRequest, services: Services): Http<ChatResponse> {
    if Blank(req.message) then HttpError(400, "Message cannot be empty")
    else
      match ChatWithExpert(req.message, HistoryOf(req), services.complete).outcome
      case Raise(e) => ExceptionResponse(e)
      case Return(text) => Ok(ChatResponse(text))
  }

  // ----- properties of the handlers -----

  /** Whitespace-only input (by Python's definition of whitespace) is refused with 400
      before anything else: the answer does not depend on the services at all. */
  lemma BlankInputRejected(req: GenerateRequest, rule: RuleRequest, chat: ChatRequest, services: Services)
    ensures AllSpace(req.description) ==>
      ApiGenerate(req, services) == HttpError(400, "Description cannot be empty")
    ensures AllSpace(rule.ruleYaml) ==>
      && ApiExplain(rule, services) == HttpError(400, "Rule YAML cannot be empty")
      && ApiValidate(rule, services) == HttpError(400, "Rule YAML cannot be empty")
      && ApiOptimize(rule, services) == HttpError(400, "Rule YAML cannot be empty")
    ensures AllSpace(chat.message) ==> ApiChat(chat, services) == HttpError(400, "Message cannot be empty")
  {
  }

  /** Generate fills what the request leaves out or empty: the context, the severity
      and the tags, which the prompt then shows as "none specified". Filled values pass
      through as given. */
  lemma GenerateDefaults(req: GenerateRequest)
    ensures var args := GenerateArgsOf(req);
      && args.description == req.description
      && (req.context.None? || req.context == Some("") ==> args.context == "Kubernetes environment")
      && (req.context.Some? && req.context.value != "" ==> args.context == req.context.value)
      && (req.severity.None? || req.severity == Some("") ==> args.severity == "WARNING")
      && (req.severity.Some? && req.severity.value != "" ==> args.severity == req.severity.value)
      && (req.tags.None? || req.tags == Some([]) ==> GenerateCall(args).messages[0].content.prompt.tags == "none specified")
      && (req.tags.Some? ==> args.tags == req.tags.value)
    ensures var args := GenerateArgsOf(req);
      GenerateArgsOf(GenerateRequest(args.description, Some(args.context), Some(args.severity), Some(args.tags))) == args
  {
  }

  /** Generate, explain and optimize answer success with the engine's text in the slot
      the route names whenever the engine returns; an exception from the model client
      goes to the global handler. */
  lemma TextEndpointsSucceed(req: GenerateRequest, rule: RuleRequest, services: Services)
    requires !Blank(req.description) && !Blank(rule.ruleYaml)
    ensures var run := GenerateRule(GenerateArgsOf(req), services.complete);
      ApiGenerate(req, services) ==
        if run.outcome.Return? then Ok(RuleResponse(true, run.outcome.value.text, None, None, None, None))
        else ExceptionResponse(run.outcome.error)
    ensures var run := ExplainRule(rule.ruleYaml, services.complete);
      ApiExplain(rule, services) ==
        if run.outcome.Return? then Ok(RuleResponse(true, None, run.outcome.value.text, None, None, None))
        else ExceptionResponse(run.outcome.error)
    ensures var run := OptimizeRule(rule.ruleYaml, services.complete);
      ApiOptimize(rule, services) ==
        if run.outcome.Return? then Ok(RuleResponse(true, None, run.outcome.value.text, None, None, None))
        else ExceptionResponse(run.outcome.error)
  {
    TextOperationsSucceed(GenerateArgsOf(req), rule.ruleYaml, services.complete);
    assert ApiGenerate(req, services) == TextOutcome(GenerateRule(GenerateArgsOf(req), services.complete), true);
    assert ApiExplain(rule, services) == TextOutcome(ExplainRule(rule.ruleYaml, services.complete), false);
    assert ApiOptimize(rule, services) == TextOutcome(OptimizeRule(rule.ruleYaml, services.complete), false);
  }

  /** What the route makes of a text operation's run: text in the named slot, or the
      global handler's answer. */
  lemma TextOutcomeSucceeds(run: Run<TextResult>, asRuleYaml: bool)
    requires run.outcome.Return? ==> run.outcome.value.success && run.outcome.value.text.Some?
    ensures var r := TextOutcome(run, asRuleYaml);
      && (r.Ok? ==> r.body.success && (if asRuleYaml then r.body.ruleYaml else r.body.explanation).Some?)
      && (r.HttpError? ==> r.status in {401, 500})
  {
    if run.outcome.Raise? {
      ExceptionClassification<RuleResponse>(run.outcome.error, "");
    }
  }

  /** Generate, explain and optimize never answer `success=False`: whatever the input
      and whatever the model does, the answer is a 400, a response carrying text, or the
      global handler's 401/500. */
  lemma TextEndpointsNeverFail(req: GenerateRequest, rule: RuleRequest, services: Services)
    ensures ApiGenerate(req, services).Ok? ==>
      ApiGenerate(req, services).body.success && ApiGenerate(req, services).body.ruleYaml.Some?
    ensures ApiExplain(rule, services).Ok? ==>
      ApiExplain(rule, services).body.success && ApiExplain(rule, services).body.explanation.Some?
    ensures ApiOptimize(rule, services).Ok? ==>
      ApiOptimize(rule, services).body.success && ApiOptimize(rule, services).body.explanation.Some?
    ensures ApiGenerate(req, services).HttpError? ==> ApiGenerate(req, services).status in {400, 401, 500}
    ensures ApiExplain(rule, services).HttpError? ==> ApiExplain(rule, services).status in {400, 401, 500}
    ensures ApiOptimize(rule, services).HttpError? ==> ApiOptimize(rule, services).status in {400, 401, 500}
  {
    TextOperationsSucceed(GenerateArgsOf(req), rule.ruleYaml, services.complete);
    TextOutcomeSucceeds(GenerateRule(GenerateArgsOf(req), services.complete), true);
    TextOutcomeSucceeds(ExplainRule(rule.ruleYaml, services.complete), false);
    TextOutcomeSucceeds(OptimizeRule(rule.ruleYaml, services.complete), false);
  }

  /** When the rule file does not load, the client sees only "Validation service
      error": the parser's message is dropped, and the model is never asked. */
  lemma ParseErrorHidden(rule: RuleRequest, services: Services)
    requires !Blank(rule.ruleYaml)
    requires services.safeLoad(rule.ruleYaml).Failure?
    ensures ApiValidate(rule, services) == Ok(RuleResponse(false, None, None, Some([ServiceErrorText]), None, None))
    ensures ValidateOutcome(rule.ruleYaml, services.safeLoad, services.complete, services.loads).calls == []
  {
  }

  /** A verdict with well-typed fields is forwarded: `success` is `valid` (false when
      absent), the three lists default to empty, and nothing else (the score) is. */
  lemma VerdictForwarded(fields: map<string, Json>)
    requires "valid" in fields ==> fields["valid"].JBool?
    requires forall key :: key in {"errors", "warnings", "suggestions"} && key in fields ==>
      StringsOf(fields[key]).Some?
    ensures var r := ValidationResponse(Validation(true, JObj(fields)));
      && r.Ok?
      && r.body.success == ("valid" in fields && fields["valid"].b)
      && r.body.ruleYaml.None? && r.body.explanation.None?
      && r.body.errors == Some(if "errors" in fields then StringsOf(fields["errors"]).value else [])
      && r.body.warnings == Some(if "warnings" in fields then StringsOf(fields["warnings"]).value else [])
      && r.body.suggestions == Some(if "suggestions" in fields then StringsOf(fields["suggestions"]).value else [])
  {
    assert StringsOf(JArr([])) == Some([]);
  }

  /** A verdict whose `errors` holds non-strings is refused by the response model with
      one error per offending item. */
  lemma ResponseErrorsCountedPerItem(fields: map<string, Json>, items: seq<Json>)
    requires "valid" in fields && fields["valid"].JBool?
    requires "errors" in fields && fields["errors"] == JArr(items) && NonStrings(items) > 0
    requires "warnings" !in fields && "suggestions" !in fields
    ensures ValidationResponse(Validation(true, JObj(fields)))
      == ExceptionResponse(ResponseValidationError(NonStrings(items)))
  {
    assert FieldOr(fields, "valid", JBool(false)) == fields["valid"];
    assert FieldOr(fields, "errors", JArr([])) == JArr(items);
    assert FieldOr(fields, "warnings", JArr([])) == JArr([]);
    assert FieldOr(fields, "suggestions", JArr([])) == JArr([]);
    assert AsBool(fields["valid"]).Some?;
    assert ListFieldErrors(JArr([])) == 0;
    assert ListFieldErrors(JArr(items)) == NonStrings(items);
  }

  /** Two objects in `errors` give two validation errors, whatever the objects hold. */
  lemma TwoBadErrorItems(a: map<string, Json>, b: map<string, Json>)
    ensures ValidationResponse(Validation(true, JObj(map["valid" := JBool(false), "errors" := JArr([JObj(a), JObj(b)])])))
      == ExceptionResponse(ResponseValidationError(2))
  {
    var pair := [JObj(a), JObj(b)];
    var fields := map["valid" := JBool(false), "errors" := JArr(pair)];
    assert NonStrings([JObj(a)]) == 1 by {
      assert [JObj(a)][..0] == [];
    }
    assert NonStrings(pair) == 2 by {
      assert pair[..1] == [JObj(a)];
    }
    assert "warnings" !in fields && "suggestions" !in fields;
    ResponseErrorsCountedPerItem(fields, pair);
  }

  /** The response built from a verdict the pre-check errors were merged into. */
  lemma MergedVerdictResponse(pre: seq<string>, verdict: Json)
    requires pre != [] && verdict.JObj?
    requires forall key :: key in {"errors", "warnings", "suggestions"} && key in verdict.fields ==>
      StringsOf(verdict.fields[key]).Some?
    ensures Merge(pre, verdict).Return?
    ensures var modelErrors := if "errors" in verdict.fields then StringsOf(verdict.fields["errors"]).value else [];
      var r := ValidationResponse(Validation(true, Merge(pre, verdict).value));
      && r.Ok? && !r.body.success
      && r.body.errors == Some(pre + modelErrors)
  {
    var prior := PriorErrors(verdict.fields);
    StringsRoundTrip([]);
    var modelErrors := StringsOf(prior).value;
    assert prior == Strings(modelErrors);
    MergeSpec(pre, verdict);
    var merged := Merge(pre, verdict).value;
    StringsConcat(pre, modelErrors);
    StringsRoundTrip(pre + modelErrors);
    assert merged.fields["errors"] == Strings(pre + modelErrors);
    forall key | key in {"warnings", "suggestions"} && key in merged.fields
      ensures StringsOf(merged.fields[key]).Some?
    {
      assert merged.fields[key] == verdict.fields[key];
    }
  }

  /** End to end: local pre-check errors reach the client first, before the model's,
      and make the answer unsuccessful whatever the model said. */
  lemma PreCheckErrorsReachClient(rule: RuleRequest, services: Services)
    requires !Blank(rule.ruleYaml)
    requires services.safeLoad(rule.ruleYaml).Success?
    requires StructuralErrors(services.safeLoad(rule.ruleYaml).value).Errors?
    requires StructuralErrors(services.safeLoad(rule.ruleYaml).value).errors != []
    requires services.complete(ValidateCall(rule.ruleYaml)).Completion?
    requires services.loads(CleanJsonReply(services.complete(ValidateCall(rule.ruleYaml)).text)).Success?
    requires var verdict := services.loads(CleanJsonReply(services.complete(ValidateCall(rule.ruleYaml)).text)).value;
      && verdict.JObj?
      && (forall key :: key in {"errors", "warnings", "suggestions"} && key in verdict.fields ==>
            StringsOf(verdict.fields[key]).Some?)
    ensures var pre := StructuralErrors(services.safeLoad(rule.ruleYaml).value).errors;
      var verdict := services.loads(CleanJsonReply(services.complete(ValidateCall(rule.ruleYaml)).text)).value;
      var modelErrors := if "errors" in verdict.fields then StringsOf(verdict.fields["errors"]).value else [];
      var r := ApiValidate(rule, services);
      && r.Ok? && !r.body.success
      && r.body.errors == Some(pre + modelErrors)
  {
    var pre := StructuralErrors(services.safeLoad(rule.ruleYaml).value).errors;
    var call := ValidateCall(rule.ruleYaml);
    var decoded := services.loads(CleanJsonReply(services.complete(call).text));
    var run := ValidateOutcome(rule.ruleYaml, services.safeLoad, services.complete, services.loads);
    assert run == AskAndMerge(rule.ruleYaml, StructuralErrors(services.safeLoad(rule.ruleYaml).value),
                              services.complete, services.loads);
    assert run.outcome == Verdict(pre, decoded);
    MergedVerdictResponse(pre, decoded.value);
    assert run.outcome == Return(Validation(true, Merge(pre, decoded.value).value));
  }

  /** A rule whose priority is a truthy non-string (a number, say) makes validate_rule
      raise AttributeError, which its `except yaml.YAMLError` does not catch: the global
      handler answers instead of the "Validation service error" response. */
  lemma NonStringPriorityEscapes(rule: RuleRequest, services: Services,
                                 a: seq<YamlValue>, item: YamlValue, b: seq<YamlValue>)
    requires !Blank(rule.ruleYaml)
    requires services.safeLoad(rule.ruleYaml) == Success(YList(a + [item] + b))
    requires ItemsCheck(a).Errors?
    requires IsRuleItem(item)
    requires Truthy(Get(item, "priority", YStr(""))) && !Get(item, "priority", YStr("")).YStr?
    ensures ApiValidate(rule, services) == ExceptionResponse(NoUpperError(Get(item, "priority", YStr(""))))
    ensures ValidateOutcome(rule.ruleYaml, services.safeLoad, services.complete, services.loads).calls == []
  {
    var parsed := YList(a + [item] + b);
    var e := NoUpperError(Get(item, "priority", YStr("")));
    NonStringPriorityRaises(a, item, b);
    assert StructuralErrors(parsed) == Raised(e);
    var run := ValidateOutcome(rule.ruleYaml, services.safeLoad, services.complete, services.loads);
    assert run == AskAndMerge(rule.ruleYaml, StructuralErrors(parsed), services.complete, services.loads);
    assert run == Run([], Raise(e));
  }

  /** The chat sends the whole history, in order and reduced to role and content, then
      the new message as a user turn, in one call. */
  lemma ChatForwardsHistory(req: ChatRequest, services: Services)
    requires !Blank(req.message)
    ensures var h := if req.history.None? then [] else req.history.value;
      var run := ChatWithExpert(req.message, HistoryOf(req), services.complete);
      && |run.calls| == 1
      && var msgs := run.calls[0].messages;
      && |msgs| == |h| + 1
      && (forall i :: 0 <= i < |h| ==> msgs[i] == Turn(h[i].role, Plain(h[i].content)))
      && msgs[|h|] == Turn("user", Plain(req.message))
  {
    HistoryTurnsExact(HistoryOf(req));
  }
}
