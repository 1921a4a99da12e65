# Falco Rule Studio — the deterministic core, in Dafny

Falco Rule Studio is a small web service that asks a language model to generate,
explain, validate and optimize Falco security rules, and to chat about them. Almost all
of its work is delegated to the model; what the service decides by itself is modelled
here:

- the structural pre-check `validate_rule` runs over a loaded rule file before asking the
  model: the file must be a list, every rule item must have `desc`, `condition`, `output`
  and `priority`, and the priority must be one of eight levels, in any letter case;
- the early return with a fixed record when the file does not load, and the merge of the
  local errors into the model's verdict;
- the removal of Markdown code fences from the model's replies (tag `yaml` with a final
  strip on the generate path, tag `json` without one on the validate path);
- the tags string of the generate prompt and the message list of the chat;
- the request handlers of `app/main.py`: the whitespace guards (400), the defaults of the
  generate request, the mapping of the validation result to the response, the chat
  history, and the global exception handler that answers 401 or 500.

The modules follow the program: `Text` (the Python string operations used:
`str.strip`, `upper`, `lower`, `join`, `in`), `Yaml` and `JsonValue` (the values the two
library loaders return, and how Python prints them), `Fences`, `Structural` (the
pre-check), `Engine` (`app/rule_engine.py`) and `Api` (`app/main.py`); `Outcomes` holds
`Option`, `Result` and `Outcome`, where `Raise(msg)` is a Python exception whose `str` is
`msg`.

The model API client, `yaml.safe_load` and `json.loads` are parameters: `complete:
ModelCall -> Reply`, `safeLoad: string -> Result<YamlValue, string>` and `loads: string ->
Result<Json, string>`. The engine's operations return a `Run`, the list of model calls
made plus the outcome, so that "the model is not asked" is the statement `calls == []`.
The pre-check loop and the chat message loop are methods with loop invariants, proved
equal to the functions that specify them; the route handlers, which only guard, call
and build a value, are functions.

Where the code departs from the behaviour described for the service, the model follows
the code: the required field is `desc` (not `description`); the non-list error reads
"Rule file must be a YAML list (starting with '-')"; the `'unknown'` name fallback can
never fire; only the literal tags `yaml` and `json` are removed from a fence, and any other
tag stays in the text; the validate path does not strip after removing the fence, so a
fenced JSON body comes back exactly, while a fenced YAML body comes back stripped; and
the decoded verdict is never checked for required keys: `.get` defaults stand in for
absent keys, and a reply of the wrong shape makes the merge or the response model raise.

## Model

| member | source | states |
|---|---|---|
| Text.Strip | app/rule_engine.py:159 | `str.strip()`: the result is the input with whitespace only before and after it removed (Python's full `isspace` set), has no whitespace at either end, and is empty exactly when the input is all whitespace |
| Text.StripIdempotent | app/rule_engine.py:164 | stripping twice is stripping once |
| Text.LowerKeepsContains | app/main.py:43 | if a word occurs in a message, its lower case occurs in the message's lower case, which makes the credentials test case-insensitive |
| Yaml.Lookup | app/rule_engine.py:199 | `key in item` / `item[key]`: a value is found exactly when some entry has the key, and the found pair is an entry of the mapping |
| JsonValue.StringsOf | app/main.py:123-125 | a JSON value is a list of strings exactly when it is an array all of whose items are strings, and the strings rebuild the array |
| JsonValue.StringsRoundTrip | app/main.py:123-125 | a list of strings survives the trip into a JSON array and back |
| Fences.StripOpeningFence | app/rule_engine.py:162 | `^```(?:tag)?\n?` without MULTILINE: only a prefix is removed, and only when the text starts with a fence; both optional parts are greedy: fence, tag and newline go when all three follow (the text from `|tag| + 4` on remains), fence and tag when no newline follows the tag, and without the tag the fence with the newline that follows it, if any |
| Fences.StripClosingFence | app/rule_engine.py:163 | `\n?```$`, leftmost match: a final fence is removed together with the newline before it whenever there is one; a fence followed by one final newline is removed with the newline before it, and the final newline stays (`$` matches before a final newline); any other text is unchanged |
| Fences.OpeningFenceRemovedOnce | app/rule_engine.py:162 | the opening fence with its tag and newline is removed whatever follows it, a second fence included: the substitution fires once |
| Fences.ClosingFenceRemovedOnce | app/rule_engine.py:163 | the closing fence on its own line is removed whatever precedes it, another fence included: the substitution fires once |
| Fences.YamlFenceRoundTrip | app/rule_engine.py:159-164 | a reply fenced as `yaml` comes back from generate's cleanup as its body, stripped |
| Fences.JsonFenceRoundTrip | app/rule_engine.py:233-236 | a reply fenced as `json` comes back from validate's cleanup as exactly its body |
| Fences.ForeignTagKept | app/rule_engine.py:162 | a fence with any other tag (`yml`, `json`, ...) loses only the backticks on the YAML path: the tag remains the first line of the cleaned text |
| Fences.FenceFreeUnchanged | app/rule_engine.py:159-164 | text with no fence and no surrounding whitespace is unchanged by both cleanups, so cleaning it again changes nothing |
| Fences.CleanYamlReply | app/rule_engine.py:159-164 | generate's cleanup: strip, opening fence tagged `yaml`, closing fence, strip; its properties are Fences.YamlFenceRoundTrip, Fences.ForeignTagKept and Fences.FenceFreeUnchanged |
| Fences.CleanJsonReply | app/rule_engine.py:233-236 | validate's cleanup: strip, opening fence tagged `json`, closing fence, no final strip; its properties are Fences.JsonFenceRoundTrip and Fences.FenceFreeUnchanged |
| Structural.CheckItem | app/rule_engine.py:199-213 | one list item, checked field by field in a loop: the errors of the item specification, or the exception a non-string priority raises |
| Structural.StructuralCheck | app/rule_engine.py:191-213 | the pre-check loop over the document computes exactly the pre-check specification; a document that is not a list yields exactly the one "must be a YAML list" error and no item is checked |
| Structural.ItemCheck | app/rule_engine.py:199-213 | the specification of one item: nothing for a non-rule item, else the missing-field errors and then the priority test; CheckItem is proved to compute it, NonRuleItemIgnored and RulePriorityErrors state its cases |
| Structural.StructuralErrors | app/rule_engine.py:194-213 | the specification of the whole pre-check: one error for a non-list document, else the items checked in order; StructuralCheck computes it, ItemsCheckAppend and NonStringPriorityRaises state its behaviour |
| Structural.ItemsCheckAppend | app/rule_engine.py:198 | checking a document split in two is checking the halves in order: errors are reported in document order, and an exception stops the rest |
| Structural.NonRuleItemIgnored | app/rule_engine.py:199 | an item that is not a mapping with a `rule` key (a macro, a list, a scalar) can be removed from anywhere without changing the result |
| Structural.MissingFieldErrorsAppend | app/rule_engine.py:200-204 | missing-field errors follow the order of the field list |
| Structural.MissingFieldErrorsExact | app/rule_engine.py:200-204 | every absent field gets its error naming the rule, every error names an absent field, there are no more errors than fields, and none when all are present |
| Structural.MissingFieldErrorInjective | app/rule_engine.py:202-204 | two messages for the same rule are equal only when they name the same field |
| Structural.MissingFieldErrorsDistinct | app/rule_engine.py:200-204 | when the fields checked are distinct, no message is reported twice: one message per absent field |
| Structural.RequiredFieldsReportedOnce | app/rule_engine.py:200-204 | a rule item gets at most four missing-field messages, all different |
| Structural.UnknownNameUnreachable | app/rule_engine.py:203 | the rule name printed is always the item's own `rule` value: the `'unknown'` fallback cannot be used |
| Structural.PriorityListing | app/rule_engine.py:206-212 | the bad-priority message lists EMERGENCY, ALERT, CRITICAL, ERROR, WARNING, NOTICE, INFORMATIONAL, DEBUG, in that order, joined by ", " |
| Structural.LowerCaseLevelAccepted | app/rule_engine.py:210 | each level written in lower case passes the case-insensitive test |
| Structural.RulePriorityErrors | app/rule_engine.py:205-213 | a missing or empty priority adds only the missing-field errors; a level in any case adds nothing; any other string adds exactly one bad-priority error, after the item's missing-field errors |
| Structural.NonStringPriorityRaises | app/rule_engine.py:210 | a truthy priority that is not a string makes the pre-check raise `'<type>' object has no attribute 'upper'` once the items before it have passed, and later items are not looked at |
| Engine.TextOperationsSucceed | app/rule_engine.py:152-166 | generate, explain (lines 176-183) and optimize (lines 255-262) each make exactly one model call and, unless the client raises, succeed with text; a fenced YAML reply yields its stripped body |
| Engine.GenerateRule | app/rule_engine.py:134-166 | one model call with the generate prompt, then the reply cleaned as YAML; the client's exception propagates; its properties are Engine.TextOperationsSucceed and Fences.YamlFenceRoundTrip |
| Engine.ExplainRule | app/rule_engine.py:169-183 | one model call with the explain prompt, the reply stripped; the client's exception propagates; Engine.TextOperationsSucceed states it |
| Engine.OptimizeRule | app/rule_engine.py:248-262 | one model call with the optimize prompt, the reply stripped; the client's exception propagates; Engine.TextOperationsSucceed states it |
| Engine.TagsStringJoins | app/rule_engine.py:144 | the tags are listed in order separated by ", " (appending a tag appends ", " and the tag), and no tags read "none specified" |
| Engine.TagsString | app/rule_engine.py:144 | the tags joined with ", ", or "none specified" when there are none; Engine.TagsStringJoins states it |
| Engine.HistoryTurnsExact | app/rule_engine.py:270-271 | the history turns are the history entries, one for one, in order, reduced to role and content |
| Engine.BuildChatMessages | app/rule_engine.py:269-272 | the loop builds the history turns in order followed by the one user turn; the length is the history's plus one |
| Engine.ChatWithExpert | app/rule_engine.py:265-282 | one model call carrying the chat messages, the reply stripped; Engine.HistoryTurnsExact, Engine.BuildChatMessages and Api.ChatForwardsHistory state it |
| Engine.MergeSpec | app/rule_engine.py:241-245 | with local errors, `errors` becomes the local errors followed by the model's (absent counts as empty), `valid` becomes false and every other key is kept; a verdict that is not a dict, or whose `errors` is not a list, makes the merge raise; with no local errors the verdict is returned unchanged |
| Engine.Merge | app/rule_engine.py:241-245 | the merge of the local errors into the decoded verdict; Engine.MergeSpec states it |
| Engine.ValidateOutcome | app/rule_engine.py:186-245 | validate_rule as a function of its collaborators; Engine.ValidateRule computes it, and ParseFailureShortCircuits, LoadedFileAsksOnce and StructuralErrorsDominate state its cases |
| Engine.ValidateRule | app/rule_engine.py:186-245 | validate_rule step by step (load, pre-check, ask, clean, decode, update in place) computes exactly the specified run |
| Engine.ParseFailureShortCircuits | app/rule_engine.py:214-221 | a file that does not load yields failure with exactly `{valid: false, errors: ["YAML parse error: " + message], warnings: [], suggestions: [], score: 0}` and no model call |
| Engine.LoadedFileAsksOnce | app/rule_engine.py:223-238 | once the file loads and the pre-check does not raise, the model is asked exactly once, and a reply fenced as JSON is decoded from its body alone |
| Engine.StructuralErrorsDominate | app/rule_engine.py:241-245 | end to end through validate_rule: local errors come first, `valid` is false, and warnings, suggestions and score are the model's; without local errors the decoded verdict is returned as it is |
| Api.ExceptionClassification | app/main.py:42-48 | a message containing `api_key`, `authentication` or `auth_token` in any letter case gets 401 with the fixed hint; any other message gets 500 with "Internal error: " and the message |
| Api.ExceptionResponse | app/main.py:40-48 | the global exception handler; Api.ExceptionClassification states its two answers |
| Api.BlankInputRejected | app/main.py:74-75 | a whitespace-only description, rule text (also lines 96-97, 113-114, 135-136) or chat message (lines 152-153) gets 400 with its detail, whatever the collaborators would do |
| Api.GenerateDefaults | app/main.py:77-82 | an absent or empty context becomes "Kubernetes environment", severity "WARNING", tags the empty list (shown as "none specified"); given values pass unchanged; filling defaults twice changes nothing |
| Api.GenerateArgsOf | app/main.py:77-82 | the arguments generate_rule gets from the request; Api.GenerateDefaults states them |
| Api.ApiGenerate | app/main.py:68-87 | api_generate_rule; Api.BlankInputRejected, Api.TextEndpointsSucceed and Api.TextEndpointsNeverFail state it |
| Api.ApiExplain | app/main.py:90-104 | api_explain_rule; Api.BlankInputRejected, Api.TextEndpointsSucceed and Api.TextEndpointsNeverFail state it |
| Api.ApiOptimize | app/main.py:129-143 | api_optimize_rule; Api.BlankInputRejected, Api.TextEndpointsSucceed and Api.TextEndpointsNeverFail state it |
| Api.ApiValidate | app/main.py:107-126 | api_validate_rule; Api.ParseErrorHidden, Api.PreCheckErrorsReachClient and Api.NonStringPriorityEscapes state it |
| Api.ApiChat | app/main.py:146-158 | api_chat; Api.BlankInputRejected and Api.ChatForwardsHistory state it |
| Api.HistoryOf | app/main.py:155 | `request.history or []`, each entry reduced to role and content; Api.ChatForwardsHistory states it |
| Api.TextOutcomeSucceeds | app/main.py:84-87 | a run that returns gives a successful response with text in the route's slot; a run that raises gives 401 or 500 |
| Api.TextEndpointsSucceed | app/main.py:84-87 | generate answers with the engine's text as `rule_yaml`, explain (lines 101-104) and optimize (lines 140-143) as `explanation`, or the global handler's answer when the client raises |
| Api.TextEndpointsNeverFail | app/main.py:84-87 | for every input, generate, explain (lines 101-104) and optimize (lines 140-143) never answer `success=False`: each answer is a 400, a successful response carrying text, or a 401/500 |
| Api.ParseErrorHidden | app/main.py:118-119 | when the rule file does not load the client sees exactly `success=False, errors=["Validation service error"]`: the parser's message is dropped, and no model call is made |
| Api.VerdictForwarded | app/main.py:121-126 | a well-typed verdict is forwarded: `success` is `valid` (false when absent), the three lists default to empty, and score is not forwarded |
| Api.ValidationResponse | app/main.py:118-126 | the response built from validate_rule's result; Api.VerdictForwarded, Api.MergedVerdictResponse and Api.ResponseErrorsCountedPerItem state it |
| Api.ListFieldErrors | app/main.py:123-125 | pydantic's error count for an `Optional[List[str]]` field is zero exactly when the field is accepted (null, or an array of strings), and for an array at most one per item |
| Api.NonStrings | app/main.py:123-125 | the count of non-string items is at most the number of items, and zero exactly when every item is a string |
| Api.ResponseErrorsCountedPerItem | app/main.py:121-126 | a verdict whose `errors` array holds non-strings makes the response model raise, counting one validation error per offending item |
| Api.TwoBadErrorItems | app/main.py:121-126 | two objects in `errors` give the exception for "2 validation errors" |
| Api.MergedVerdictResponse | app/main.py:121-126 | a verdict the local errors were merged into gives an unsuccessful response whose errors are the local ones followed by the model's |
| Api.PreCheckErrorsReachClient | app/main.py:116-126 | end to end: with local pre-check errors and a well-typed verdict, the client gets `success=False` and the local errors before the model's |
| Api.NonStringPriorityEscapes | app/rule_engine.py:214 | a truthy non-string priority, in any rule item after items that passed, is not caught as a YAML error: the answer is the global handler's, not "Validation service error", and the model is not asked |
| Api.ChatForwardsHistory | app/main.py:155-156 | the chat makes one model call carrying the history in order, reduced to role and content, and then the new message as a user turn |

## Left out

- The model API client (`client.messages.create`, the model name, the network): it is
  the parameter `complete`, and its reply or its exception is an input.
- The prompt templates and the system prompt text: a call records which prompt it fills
  and with which arguments, not the formatted text.
- The internals of `yaml.safe_load` and `json.loads`: they are the parameters `safeLoad`
  and `loads`. Loaded values are None, booleans, integers, strings, lists and mappings;
  YAML floats, timestamps and binary values, and JSON floats, are not modelled.
- The FastAPI application: routing, request-body validation (422 answers for bodies of
  the wrong type; requests are assumed well-typed), the static files, the root page, the
  examples and health routes, `.env` loading, and the async execution of the handlers.
- `static/app.js` (browser UI) and `app/examples.py` (constant data).
- Api.ValidationResponse: the error count follows pydantic version 2, which refuses a
  number where a string is expected (version 1 would convert it). Pydantic's lax
  coercion of booleans (`"true"`, `1`) is not modelled: `success` must be a JSON boolean
  and each list null or an array of strings, and any other value gives the
  response-validation exception.
- Api.ResponseValidationError: only the first line of pydantic's ValidationError message
  is modelled; the following lines, which name the fields and their inputs, are not.
- Api.NonStringPriorityEscapes: it states that the global handler answers, not that the
  answer is 500; proving the message free of the credentials words would need the lower
  case of a concrete text unfolded character by character.
- Text.Upper: every character whose upper case is made of ASCII letters only is mapped
  (a-z, dotless ı, long ſ, sharp ß to "SS", the ligatures U+FB00-U+FB06); every other
  character is kept, so the result can differ from Python's, but not in whether it
  equals an ASCII word, which is all the priority test asks.
- Text.Lower: only the mappings whose result holds an ASCII letter (A-Z, the Kelvin sign
  to `k`, dotted İ to `i` and a combining dot) are modelled; other characters are kept, which does not change whether the text
  contains an ASCII word, which is all the credentials test asks.
- Yaml.Repr: the `\xNN` escapes of `repr` (control characters, DEL, the C1 range, U+00A0
  and U+00AD) are modelled; characters above U+00FF that Python escapes as `\uNNNN` or
  `\UNNNNNNNN` are kept as they are.
