/** The orchestration in app/rule_engine.py: each operation sends one request to the
    language-model API and post-processes its reply; validation first runs the local
    pre-check and merges its findings into the model's verdict. The API client is a
    parameter (`complete`), and so are the YAML loader and the JSON decoder. */
module Engine {
  import opened Outcomes
  import opened Text
  import opened Yaml
  import opened JsonValue
  import opened Fences
  import opened Structural

  /** A prompt template filled in with its arguments (the template text itself is not
      part of this model). */
  datatype Prompt =
    | GeneratePrompt(description: string, context: string, severity: string, tags: string)
    | ExplainPrompt(ruleYaml: string)
    | ValidatePrompt(ruleYaml: string)
    | OptimizePrompt(ruleYaml: string)

  datatype Content = Plain(text: string) | Filled(prompt: Prompt)

  /** One message of a request: {"role": ..., "content": ...}. */
  datatype Turn = Turn(role: string, content: Content)

  /** The system instruction: the rule-expert prompt, or that prompt followed by the
      paragraph that makes it a chat assistant. */
  datatype SystemPrompt = RuleExpert | ChatAssistant

  /** The arguments of one client.messages.create call (the model name is one constant). */
  datatype ModelCall = ModelCall(maxTokens: nat, system: SystemPrompt, messages: seq<Turn>)

  /** What the API client gives back: the text of the first content block, or the text
      of the exception it raised (authentication, rate limit, network). */
  datatype Reply = Completion(text: string) | Fault(error: string)

  /** An operation's outcome together with the model calls it made, in order. */
  datatype Run<T> = Run(calls: seq<ModelCall>, outcome: Outcome<T>)

  /** The (success, text, error) triple generate, explain and optimize return. */
  datatype TextResult = TextResult(success: bool, text: Option<string>, error: Option<string>)

  /** One prior turn of a conversation as the route layer passes it. */
  datatype ChatTurn = ChatTurn(role: string, content: string)

  function Ask(call: ModelCall, complete: ModelCall -> Reply): Outcome<string> {
    match complete(call)
    case Completion(t) => Return(t)
    case Fault(e) => Raise(e)
  }

  function UserTurn(p: Prompt): Turn {
    Turn("user", Filled(p))
  }

  // ----- generate_rule, explain_rule, optimize_rule -----

  /** The tags as the generate prompt shows them (app/rule_engine.py:144). */
  function TagsString(tags: seq<string>): string {
    if tags != [] then Join(", ", tags) else "none specified"
  }

  datatype GenerateArgs = GenerateArgs(description: string, context: string, severity: string, tags: seq<string>)

  function GenerateCall(args: GenerateArgs): ModelCall {
    ModelCall(2048, RuleExpert,
      [UserTurn(GeneratePrompt(args.description, args.context, args.severity, TagsString(args.tags)))])
  }

  /** generate_rule (app/rule_engine.py:134-166): the reply, stripped of a `yaml` fence. */
  function GenerateRule(args: GenerateArgs, complete: ModelCall -> Reply): Run<TextResult> {
    var call := GenerateCall(args);
    match Ask(call, complete)
    case Raise(e) => Run([call], Raise(e))
    case Return(t) => Run([call], Return(TextResult(true, Some(CleanYamlReply(t)), None)))
  }

  /** explain_rule (app/rule_engine.py:169-183): the reply, stripped of whitespace. */
  function ExplainRule(ruleYaml: string, complete: ModelCall -> Reply): Run<TextResult> {
    var call := ModelCall(2048, RuleExpert, [UserTurn(ExplainPrompt(ruleYaml))]);
    match Ask(call, complete)
    case Raise(e) => Run([call], Raise(e))
    case Return(t) => Run([call], Return(TextResult(true, Some(Strip(t)), None)))
  }

  /** optimize_rule (app/rule_engine.py:248-262): the reply, stripped of whitespace. */
  function OptimizeRule(ruleYaml: string, complete: ModelCall -> Reply): Run<TextResult> {
    var call := ModelCall(2048, RuleExpert, [UserTurn(OptimizePrompt(ruleYaml))]);
    match Ask(call, complete)
    case Raise(e) => Run([call], Raise(e))
    case Return(t) => Run([call], Return(TextResult(true, Some(Strip(t)), None)))
  }

  /** Every text operation makes exactly one model call and, unless the client raises,
      reports success with the cleaned reply; a fenced YAML reply yields its body. */
  lemma TextOperationsSucceed(args: GenerateArgs, ruleYaml: string, complete: ModelCall -> Reply)
    ensures |GenerateRule(args, complete).calls| == 1
    ensures |ExplainRule(ruleYaml, complete).calls| == 1
    ensures |OptimizeRule(ruleYaml, complete).calls| == 1
    ensures GenerateRule(args, complete).outcome.Return? ==>
      GenerateRule(args, complete).outcome.value.success && GenerateRule(args, complete).outcome.value.text.Some?
    ensures ExplainRule(ruleYaml, complete).outcome.Return? ==>
      ExplainRule(ruleYaml, complete).outcome.value.success && ExplainRule(ruleYaml, complete).outcome.value.text.Some?
    ensures OptimizeRule(ruleYaml, complete).outcome.Return? ==>
      OptimizeRule(ruleYaml, complete).outcome.value.success && OptimizeRule(ruleYaml, complete).outcome.value.text.Some?
    ensures forall body :: complete(GenerateCall(args)) == Completion(Fenced("yaml", body)) ==>
      GenerateRule(args, complete).outcome == Return(TextResult(true, Some(Strip(body)), None))
  {
    forall body | complete(GenerateCall(args)) == Completion(Fenced("yaml", body))
      ensures GenerateRule(args, complete).outcome == Return(TextResult(true, Some(Strip(body)), None))
    {
      YamlFenceRoundTrip(body);
    }
  }

  /** The tags are listed one after another, separated by ", ". */
  lemma TagsStringJoins(tags: seq<string>, tag: string)
    ensures TagsString([tag]) == tag
    ensures tags != [] ==> TagsString(tags + [tag]) == TagsString(tags) + ", " + tag
    ensures TagsString([]) == "none specified"
  {
    if tags != [] {
      JoinSnoc(", ", tags, tag);
    }
  }

  // ----- chat_with_falco_expert -----

  /** The history turns reduced to role and content, in order. */
  function HistoryTurns(history: seq<ChatTurn>): seq<Turn> {
    if history == [] then []
    else
      var last := history[|history| - 1];
      HistoryTurns(history[..|history| - 1]) + [Turn(last.role, Plain(last.content))]
  }

  /** The messages the chat sends: the history, then the new user message. */
  function ChatMessages(history: seq<ChatTurn>, message: string): seq<Turn> {
    HistoryTurns(history) + [Turn("user", Plain(message))]
  }

  lemma {:induction false} HistoryTurnsExact(history: seq<ChatTurn>)
    ensures |HistoryTurns(history)| == |history|
    ensures forall i :: 0 <= i < |history| ==>
      HistoryTurns(history)[i] == Turn(history[i].role, Plain(history[i].content))
  {
    if history != [] {
      HistoryTurnsExact(history[..|history| - 1]);
    }
  }

  /** The message list of chat_with_falco_expert (app/rule_engine.py:269-272), built by
      appending in a loop. */
  method BuildChatMessages(message: string, history: seq<ChatTurn>) returns (messages: seq<Turn>)
    ensures messages == ChatMessages(history, message)
    ensures |messages| == |history| + 1
    ensures forall i :: 0 <= i < |history| ==>
      messages[i] == Turn(history[i].role, Plain(history[i].content))
    ensures messages[|history|] == Turn("user", Plain(message))
  {
    messages := [];
    var i := 0;
    while i < |history|
      invariant 0 <= i <= |history|
      invariant messages == HistoryTurns(history[..i])
    {
      assert history[..i + 1][..i] == history[..i];
      messages := messages + [Turn(history[i].role, Plain(history[i].content))];
      i := i + 1;
    }
    assert history[..i] == history;
    HistoryTurnsExact(history);
    messages := messages + [Turn("user", Plain(message))];
  }

  function ChatCall(message: string, history: seq<ChatTurn>): ModelCall {
    ModelCall(2048, ChatAssistant, ChatMessages(history, message))
  }

  /** chat_with_falco_expert (app/rule_engine.py:265-282): one call carrying the whole
      conversation; the reply stripped of whitespace. */
  function ChatWithExpert(message: string, history: seq<ChatTurn>, complete: ModelCall -> Reply): Run<string> {
    var call := ChatCall(message, history);
    match Ask(call, complete)
    case Raise(e) => Run([call], Raise(e))
    case Return(t) => Run([call], Return(Strip(t)))
  }

  // ----- validate_rule -----

  /** The (success, result) pair validate_rule returns. */
  datatype Validation = Validation(success: bool, result: Json)

  const ParseErrorPrefix := "YAML parse error: "

  /** The record returned when the rule file cannot be loaded (app/rule_engine.py:215-221). */
  function ParseFailureRecord(message: string): Json {
    JObj(map[
      "valid" := JBool(false),
      "errors" := JArr([JStr(ParseErrorPrefix + message)]),
      "warnings" := JArr([]),
      "suggestions" := JArr([]),
      "score" := JNum(0)])
  }

  function ValidateCall(ruleYaml: string): ModelCall {
    ModelCall(1024, RuleExpert, [UserTurn(ValidatePrompt(ruleYaml))])
  }

  /** The text of the AttributeError `result.get` raises when the decoded reply is not a dict. */
  function NoGetError(result: Json): string {
    "'" + JsonValue.TypeName(result) + "' object has no attribute 'get'"
  }

  /** The text of the TypeError `pre_errors + x` raises when x is not a list. */
  function ConcatError(x: Json): string {
    "can only concatenate list (not \"" + JsonValue.TypeName(x) + "\") to list"
  }

  /** The model's errors, `result.get("errors", [])`. */
  function PriorErrors(fields: map<string, Json>): Json {
    if "errors" in fields then fields["errors"] else JArr([])
  }

  /** The merge of app/rule_engine.py:241-243 (see MergeSpec). */
  function Merge(preErrors: seq<string>, result: Json): Outcome<Json> {
    if preErrors == [] then Return(result)
    else if !result.JObj? then Raise(NoGetError(result))
    else
      var prior := PriorErrors(result.fields);
      if !prior.JArr? then Raise(ConcatError(prior))
      else
        Return(JObj(result.fields["errors" := JArr(Strings(preErrors).items + prior.items)]["valid" := JBool(false)]))
  }

  /** When the pre-check found errors, they go first in `errors`, the model's after
      them, and `valid` is forced to false; every other key is left alone. A decoded
      reply that is not a dict, or whose `errors` is not a list, makes the merge raise.
      Without pre-check errors the record is untouched. */
  lemma MergeSpec(preErrors: seq<string>, result: Json)
    ensures preErrors == [] ==> Merge(preErrors, result) == Return(result)
    ensures preErrors != [] && !result.JObj? ==> Merge(preErrors, result) == Raise(NoGetError(result))
    ensures preErrors != [] && result.JObj? && !PriorErrors(result.fields).JArr? ==>
      Merge(preErrors, result) == Raise(ConcatError(PriorErrors(result.fields)))
    ensures preErrors != [] && result.JObj? && PriorErrors(result.fields).JArr? ==>
      var r := Merge(preErrors, result);
      && r.Return? && r.value.JObj?
      && r.value.fields.Keys == result.fields.Keys + {"errors", "valid"}
      && r.value.fields["errors"] == JArr(Strings(preErrors).items + PriorErrors(result.fields).items)
      && r.value.fields["valid"] == JBool(false)
      && (forall k :: k in result.fields && k != "errors" && k != "valid" ==>
            r.value.fields[k] == result.fields[k])
  {
  }

  /** validate_rule (app/rule_engine.py:186-245) as a function of its collaborators:
      `safeLoad` is yaml.safe_load, `loads` is json.loads, `complete` is the API. */
  function ValidateOutcome(ruleYaml: string, safeLoad: string -> Result<YamlValue, string>,
                           complete: ModelCall -> Reply, loads: string -> Result<Json, string>): Run<Validation>
  {
    match safeLoad(ruleYaml)
    case Failure(message) => Run([], Return(Validation(false, ParseFailureRecord(message))))
    case Success(parsed) => AskAndMerge(ruleYaml, StructuralErrors(parsed), complete, loads)
  }

  /** validate_rule after the file has loaded: a raising pre-check propagates before the
      model is asked; otherwise the model is asked once and its verdict merged. */
  function AskAndMerge(ruleYaml: string, pre: Check, complete: ModelCall -> Reply,
                       loads: string -> Result<Json, string>): Run<Validation>
  {
    match pre
    case Raised(e) => Run([], Raise(e))
    case Errors(preErrors) =>
      var call := ValidateCall(ruleYaml);
      match Ask(call, complete)
      case Raise(e) => Run([call], Raise(e))
      case Return(t) => Run([call], Verdict(preErrors, loads(CleanJsonReply(t))))
  }

  /** What validate_rule returns once the reply is decoded: the merged record, or the
      decoder's or the merge's exception. */
  function Verdict(preErrors: seq<string>, decoded: Result<Json, string>): Outcome<Validation> {
    match decoded
    case Failure(e) => Raise(e)
    case Success(result) =>
      match Merge(preErrors, result)
      case Raise(e) => Raise(e)
      case Return(merged) => Return(Validation(true, merged))
  }

  /** validate_rule step by step: load, pre-check, ask, clean, decode, then update the
      decoded record in place when the pre-check found errors. */
  method ValidateRule(ruleYaml: string, safeLoad: string -> Result<YamlValue, string>,
                      complete: ModelCall -> Reply, loads: string -> Result<Json, string>)
    returns (run: Run<Validation>)
    ensures run == ValidateOutcome(ruleYaml, safeLoad, complete, loads)
  {
    var parsed := safeLoad(ruleYaml);
    if parsed.Failure? {
      return Run([], Return(Validation(false, ParseFailureRecord(parsed.error))));
    }
    var pre := StructuralCheck(parsed.value);
    assert ValidateOutcome(ruleYaml, safeLoad, complete, loads) == AskAndMerge(ruleYaml, pre, complete, loads);
    if pre.Raised? {
      return Run([], Raise(pre.error));
    }
    var call := ValidateCall(ruleYaml);
    var reply := complete(call);
    if reply.Fault? {
      return Run([call], Raise(reply.error));
    }
    var decoded := loads(CleanJsonReply(reply.text));
    if decoded.Failure? {
      return Run([call], Raise(decoded.error));
    }
    var result := decoded.value;
    if pre.errors != [] {
      if !result.JObj? {
        return Run([call], Raise(NoGetError(result)));
      }
      var prior := PriorErrors(result.fields);
      if !prior.JArr? {
        return Run([call], Raise(ConcatError(prior)));
      }
      var fields := result.fields;
      fields := fields["errors" := JArr(Strings(pre.errors).items + prior.items)];
      fields := fields["valid" := JBool(false)];
      result := JObj(fields);
    }
    assert Merge(pre.errors, decoded.value) == Return(result);
    assert Verdict(pre.errors, decoded) == Return(Validation(true, result));
    return Run([call], Return(Validation(true, result)));
  }

  // ----- properties of validation -----

  /** A rule file that does not load is reported at once, with one "YAML parse error"
      message and nothing else, and the model is never asked. */
  lemma ParseFailureShortCircuits(ruleYaml: string, safeLoad: string -> Result<YamlValue, string>,
                                  complete: ModelCall -> Reply, loads: string -> Result<Json, string>)
    requires safeLoad(ruleYaml).Failure?
    ensures var run := ValidateOutcome(ruleYaml, safeLoad, complete, loads);
      && run.calls == []
      && run.outcome.Return? && !run.outcome.value.success
      && var record := run.outcome.value.result;
      && record.JObj?
      && record.fields.Keys == {"valid", "errors", "warnings", "suggestions", "score"}
      && record.fields["valid"] == JBool(false)
      && record.fields["errors"] == JArr([JStr(ParseErrorPrefix + safeLoad(ruleYaml).error)])
      && record.fields["warnings"] == JArr([]) && record.fields["suggestions"] == JArr([])
      && record.fields["score"] == JNum(0)
  {
  }

  /** Once the file loads and the pre-check does not raise, the model is asked exactly
      once, whatever the pre-check found, and its reply is decoded after the fence is
      cleaned off: a reply fenced as JSON is decoded from its body alone. */
  lemma LoadedFileAsksOnce(ruleYaml: string, safeLoad: string -> Result<YamlValue, string>,
                           complete: ModelCall -> Reply, loads: string -> Result<Json, string>,
                           body: string)
    requires safeLoad(ruleYaml).Success?
    requires StructuralErrors(safeLoad(ruleYaml).value).Errors?
    ensures ValidateOutcome(ruleYaml, safeLoad, complete, loads).calls == [ValidateCall(ruleYaml)]
    ensures complete(ValidateCall(ruleYaml)) == Completion(Fenced("json", body)) ==>
      ValidateOutcome(ruleYaml, safeLoad, complete, loads).outcome
        == Verdict(StructuralErrors(safeLoad(ruleYaml).value).errors, loads(body))
  {
    var call := ValidateCall(ruleYaml);
    if complete(call) == Completion(Fenced("json", body)) {
      JsonFenceRoundTrip(body);
      assert Ask(call, complete) == Return(Fenced("json", body));
      assert CleanJsonReply(Fenced("json", body)) == body;
    }
  }

  /** Once the file loads, the pre-check does not raise and the model answers, the
      outcome is the verdict on the decoded reply. */
  lemma OutcomeIsVerdict(ruleYaml: string, safeLoad: string -> Result<YamlValue, string>,
                         complete: ModelCall -> Reply, loads: string -> Result<Json, string>)
    requires safeLoad(ruleYaml).Success?
    requires StructuralErrors(safeLoad(ruleYaml).value).Errors?
    requires complete(ValidateCall(ruleYaml)).Completion?
    ensures ValidateOutcome(ruleYaml, safeLoad, complete, loads).outcome
      == Verdict(StructuralErrors(safeLoad(ruleYaml).value).errors,
                 loads(CleanJsonReply(complete(ValidateCall(ruleYaml)).text)))
  {
    var call := ValidateCall(ruleYaml);
    var run := ValidateOutcome(ruleYaml, safeLoad, complete, loads);
    assert run == AskAndMerge(ruleYaml, StructuralErrors(safeLoad(ruleYaml).value), complete, loads);
    assert Ask(call, complete) == Return(complete(call).text);
  }

  /** Local findings dominate: with pre-check errors and a well-formed verdict from the
      model, the result is invalid and lists the local errors first, the model's after;
      warnings, suggestions and score are the model's. Without local errors the decoded
      verdict is returned as it is. */
  lemma StructuralErrorsDominate(ruleYaml: string, safeLoad: string -> Result<YamlValue, string>,
                                 complete: ModelCall -> Reply, loads: string -> Result<Json, string>)
    requires safeLoad(ruleYaml).Success?
    requires StructuralErrors(safeLoad(ruleYaml).value).Errors?
    requires complete(ValidateCall(ruleYaml)).Completion?
    requires loads(CleanJsonReply(complete(ValidateCall(ruleYaml)).text)).Success?
    ensures var pre := StructuralErrors(safeLoad(ruleYaml).value).errors;
      var verdict := loads(CleanJsonReply(complete(ValidateCall(ruleYaml)).text)).value;
      var out := ValidateOutcome(ruleYaml, safeLoad, complete, loads).outcome;
      && (pre == [] ==> out == Return(Validation(true, verdict)))
      && (pre != [] && verdict.JObj? && PriorErrors(verdict.fields).JArr? ==>
            && out.Return? && out.value.success
            && out.value.result.fields["valid"] == JBool(false)
            && out.value.result.fields["errors"] == JArr(Strings(pre).items + PriorErrors(verdict.fields).items)
            && (forall k :: k in {"warnings", "suggestions", "score"} && k in verdict.fields ==>
                  out.value.result.fields[k] == verdict.fields[k]))
  {
    var pre := StructuralErrors(safeLoad(ruleYaml).value).errors;
    var decoded := loads(CleanJsonReply(complete(ValidateCall(ruleYaml)).text));
    var out := ValidateOutcome(ruleYaml, safeLoad, complete, loads).outcome;
    OutcomeIsVerdict(ruleYaml, safeLoad, complete, loads);
    assert out == Verdict(pre, decoded);
    MergeSpec(pre, decoded.value);
    if pre == [] {
      assert out == Return(Validation(true, decoded.value));
    } else if decoded.value.JObj? && PriorErrors(decoded.value.fields).JArr? {
      var merged := Merge(pre, decoded.value).value;
      assert out == Return(Validation(true, merged));
      forall k | k in {"warnings", "suggestions", "score"} && k in decoded.value.fields
        ensures merged.fields[k] == decoded.value.fields[k]
      {
        assert k != "errors" && k != "valid";
      }
    }
  }

}
