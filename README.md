# Agent output trust boundary: a Dafny model

The extension sends a page's markup to a language-model agent (Anthropic or
Letta). It receives free text back, digs a JSON array out of it and validates
that array against the `AgentAction` schema. Only then are the actions used to
annotate the page. This project models that boundary and proves what it
guarantees:

- a message is built from the mission or prompt and the page;
- the reply text is assembled (the Anthropic stream) or selected (the first
  Letta assistant message);
- the JSON array is extracted: the fenced-code-block pattern, then the
  fallbacks;
- the parsed value is validated by the standalone validator or by the abstract
  base class's lenient copy;
- a result record is built, and exceptions are thrown where the original
  throws.

Modules, one per concern:

- `Results` (`results.dfy`): `Option` and `Result`.
- `Json` (`json.dfy`): the values `JSON.parse` can return, and JavaScript's
  whitespace set with `trim()`.
- `Schema` (`schema.dfy`): the required-field order and the `type` enumeration.
- `Actions` (`actions.dfy`): `ActionType` and `AgentAction`, with their JSON form.
- `Validation` (`validation.dfy`): `validateAgentActions`, as one engine
  parameterised by how `sources` is checked.
- `BaseAgent` (`agent.dfy`): the base class's lenient validator and its prompt
  template.
- `Extraction` and `ExtractionFacts` (`extraction.dfy`): the regular expression
  `` ```(?:json)?\s*(\[[\s\S]*?\])\s*``` ``, `indexOf('[')`, and each agent's
  extraction order.
- `Prompts` (`prompts.dfy`): the opening line both agents' messages share.
- `AgentResults` (`agent_result.dfy`): `AgentResult` and how a reply becomes one.
- `AnthropicAgents` (`anthropic_agent.dfy`) and `LettaAgents`
  (`letta_agent.dfy`): the two agent classes.
- `Samples` (`examples.dfy`): the sample answer from the system prompt,
  boundary cases and class life cycles.

How JavaScript behaviour is rendered:

- Which values pass is modelled exactly. `field in action` throws a
  `TypeError` on a primitive or `null`, so those elements give `NotAnObject`.
  On an array element it is false, so the error is `MissingField("type")`.
- `includes` is strict equality against the three type names.
- `typeof x === 'number'` with `0 <= x <= 1` is checked on a real number.
- `for...of` in the lenient copy iterates an array's items or a string's code
  points. Any other value throws, which gives `SourcesNotIterable`.
- Each thrown error is a constructor of `ValidationError` or `AgentError`.
  A rejected element gives `AtElement(index, reason)`; the reason
  (`ElementError`) carries the field or value the original message reports.
- `Validate` returns the error of the lowest-index failing element, as raised
  by that element's first failing check in source order.

The validator keeps `sources` as the raw JSON value, because the original
copies `action.sources` through unchanged. The strict validator proves it is
a non-empty array of URL strings. The lenient one lets an empty array, or a
string made only of characters that each parse as a URL, through.

Two import questions are settled as follows:

- `lettaAgent.ts` imports `validateAgentActions` from `../types/agent`, which
  does not export one. The model uses the standalone strict validator of
  `validation.ts`, the only free function of that name.
- `agent.ts` imports `agentActionSchema` from `@/utils/constants`, which is not
  part of this model. It is taken to be the schema of `schema.ts`.

`LettaAgent.isReady()` is the predicate `IsReady`. The contract of
`GetActions` states that the agent is ready exactly when a call does not
throw; `SetAgentId` and `Initialize` state how readiness changes.

Where the schema and the code differ, the model follows the code. The schema
says `additionalProperties: false`, but the validator ignores extra keys, and
so does the model (`ExtraKeysIgnored`).

## Model

| member | source | states |
|---|---|---|
| Actions.ParseActionType | src/entrypoints/background/types/agent.ts:12-16 | a string names an action type exactly when it is one of the schema's three enumeration values |
| Actions.NameRoundTrip | src/entrypoints/background/agents/schema.ts:26-28 | the enumeration value of a type parses back to that type, and a value that parses to a type is that type's name |
| Actions.ToJsonInjective | src/entrypoints/background/agents/validation.ts:67-75 | the seven-field record determines the action: two actions with the same JSON form are equal |
| Json.TrimStart | src/entrypoints/background/agents/validation.ts:36 | the result is a suffix of the input, everything removed is whitespace, and it does not start with whitespace |
| Json.TrimEnd | src/entrypoints/background/agents/validation.ts:36 | the result is a prefix of the input, everything removed is whitespace, and it does not end with whitespace |
| Json.Trim | src/entrypoints/background/agents/validation.ts:36 | `trim()` as whitespace removed from both ends; `TrimStart`, `TrimEnd` and `TrimEmptyIffBlank` state what it keeps and removes |
| Json.TrimEmptyIffBlank | src/entrypoints/background/agents/validation.ts:36 | `trim()` is empty exactly when the string is whitespace only |
| Validation.FirstFailing | src/entrypoints/background/agents/validation.ts:22-26 | the index found fails the test and every earlier one passes; no index means all pass |
| Validation.CheckPresence | src/entrypoints/background/agents/validation.ts:18-26 | no error exactly when all seven schema fields are present; otherwise `MissingField` names the first absent field in schema order |
| Validation.CheckType | src/entrypoints/background/agents/validation.ts:29-31 | no error exactly when `type` is a string in the enumeration; otherwise `InvalidType` with the offending value |
| Validation.CheckStrings | src/entrypoints/background/agents/validation.ts:34-39 | the error is for the first of targetElement, content, explanation that is not a string with non-whitespace content, or none |
| Validation.CheckNumbers | src/entrypoints/background/agents/validation.ts:42-48 | the error is for the first of confidence, severity that is not a number in [0, 1], or none |
| Validation.SourceEntries | src/entrypoints/background/agents/validation.ts:51-53 | strictly, the entries exist exactly when `sources` is a non-empty array, else `InvalidSources`; leniently, whenever `for...of` can iterate it, else `SourcesNotIterable` |
| Validation.Iterated | src/entrypoints/background/agents/agent.ts:79 | `for...of` visits an array's items in order and a string's code points as one-character strings; every other value cannot be iterated |
| Validation.CheckSources | src/entrypoints/background/agents/validation.ts:50-65 | no error exactly when `sources` is acceptable under the policy; when the gate fails, its error (`InvalidSources` or `SourcesNotIterable`); otherwise the error of the first entry that is not a URL: `InvalidSource` for an entry that is not a non-blank string, `InvalidSourceUrl` naming a non-blank string the URL parser refuses |
| Validation.CheckFields | src/entrypoints/background/agents/validation.ts:16-48 | the shared stages succeed exactly when the element is an object with all fields valid, passing its properties on; a primitive or `null` gives `NotAnObject`, an array `MissingField("type")`, and an object the error of its properties' first failing stage, never a sources error |
| Validation.Normalize | src/entrypoints/background/agents/validation.ts:67-75 | the action built from a valid element has exactly the element's seven field values |
| Validation.CheckMembers | src/entrypoints/background/agents/validation.ts:18-48 | no error exactly when the properties hold all seven fields with valid values; a missing field is reported exactly when one is missing, as the presence stage reports it, before any value is looked at; with all seven present the error is that of the value stages |
| Validation.CheckValues | src/entrypoints/background/agents/validation.ts:29-48 | on an object with all seven fields, no error exactly when type, strings and numbers are valid; a bad `type` is reported first and an `InvalidType` error is always the type check's own, a string field's error only once `type` is valid, a number field's error only once `type` and the strings are, each as its own stage reports it |
| Validation.CarriesUnique | src/entrypoints/background/agents/validation.ts:67-75 | the seven field values determine the action built from them |
| Validation.CheckAction | src/entrypoints/background/agents/validation.ts:16-76 | one element is accepted exactly when it is acceptable, and the action is its seven fields; a failure of the shared stages is the element's error, and only after they pass is the error that of the sources stage |
| Validation.MapChecked | src/entrypoints/background/agents/validation.ts:16 | `map` with a throwing callback: all succeed and the results line up with the elements, or the error is the first failing element's reason together with that element's index, and every earlier element passes |
| Validation.Validate | src/entrypoints/background/agents/validation.ts:11-77 | a non-array gives `NotAnArray`; an array succeeds exactly when every element is acceptable, giving one action per element; otherwise the error is `AtElement` with the lowest failing index and that element's own reason |
| Validation.CheckedSources | src/entrypoints/background/agents/validation.ts:74 | an accepted action's sources is the element's own sources value, and that value passed the sources checks |
| Validation.StrictSources | src/entrypoints/background/agents/validation.ts:51-65 | under the strict policy every returned action's sources is a non-empty array of accepted URLs |
| Validation.ValidateAgentActions | src/entrypoints/background/agents/validation.ts:11-77 | every returned action has a non-empty array of sources, each a non-blank string the URL parser accepts |
| Validation.CheckStringsReadsFields | src/entrypoints/background/agents/validation.ts:34-39 | the string stage depends only on the three string fields |
| Validation.CheckNumbersReadsFields | src/entrypoints/background/agents/validation.ts:42-48 | the number stage depends only on the two number fields |
| Validation.SameFieldsSameCheck | src/entrypoints/background/agents/validation.ts:16-76 | two objects that agree on the seven fields get the same outcome, error or action |
| Validation.ExtraKeysIgnored | src/entrypoints/background/agents/validation.ts:16-76 | for any object, with or without all seven fields, keys beyond the seven never change the outcome |
| Validation.PresenceReadsFields | src/entrypoints/background/agents/validation.ts:21-26 | the required-field stage depends only on which of the seven fields are present |
| Validation.RecheckAction | src/entrypoints/background/agents/validation.ts:67-75 | an accepted element's action, encoded again, is accepted again as the same action |
| Validation.RevalidationIsIdentity | src/entrypoints/background/agents/validation.ts:11-77 | validating the returned actions again succeeds with the same actions |
| Validation.EncodedActionAccepted | src/entrypoints/background/agents/validation.ts:16-76 | an action's JSON form is accepted exactly when the action is well formed, and then it comes back unchanged |
| Validation.EncodedActionsAccepted | src/entrypoints/background/agents/validation.ts:11-77 | a list of actions, encoded, passes exactly when every action is well formed, and then it comes back unchanged |
| BaseAgent.ValidateAgentActions | src/entrypoints/background/agents/agent.ts:34-100 | every returned action's sources is an iterable whose entries are all accepted URLs, possibly none |
| BaseAgent.StrictIsLenientWithNonEmptySources | src/entrypoints/background/agents/agent.ts:73-76 | per element, the strict check succeeds exactly when the lenient one does and sources is a non-empty array; both then give the same action |
| BaseAgent.SameChecksBeforeSources | src/entrypoints/background/agents/agent.ts:39-71 | both copies raise the same error for any failure before the sources stage |
| BaseAgent.StrictImpliesLenient | src/entrypoints/background/agents/agent.ts:34-100 | whatever the standalone validator accepts, the base class's copy accepts with the same result |
| BaseAgent.EmptySourcesAcceptedHere | src/entrypoints/background/agents/agent.ts:73-88 | an element valid except for empty sources passes the lenient copy and fails the strict one with `InvalidSources` |
| BaseAgent.Framed | src/entrypoints/background/agents/agent.ts:102-127 | the message starts with the introduction, then holds the mission, the environment text, the fence's opening line, the page markup, the closing line and the rest, each verbatim, in that order and with nothing in between |
| BaseAgent.GetMessage | src/entrypoints/background/agents/agent.ts:102-127 | the template itself: `Framed` with the template's introduction, environment text, `html` fence lines and output contract, so the mission and the page markup appear verbatim as `Framed` places them |
| Extraction.SkipSpace | src/entrypoints/background/agents/anthropicAgent.ts:65 | greedy `\s*`: every skipped code point is whitespace and the next one is not |
| Extraction.OpenAt | src/entrypoints/background/agents/anthropicAgent.ts:65 | an opening match at a position starts with three backticks and ends at a `[` |
| Extraction.FirstClose | src/entrypoints/background/agents/anthropicAgent.ts:65 | lazy `[\s\S]*?\]`: the first `]` followed by optional whitespace and a fence; none means no `]` closes |
| Extraction.FindFence | src/entrypoints/background/agents/anthropicAgent.ts:65 | a match found starts with an opening fence at or after the search position, and its group ends at the first closing `]` after the `[` |
| Extraction.FindFenceLeftmost | src/entrypoints/background/agents/anthropicAgent.ts:65 | the match found is the leftmost position where the pattern matches, with the lazy group closed at its first possible `]`; none means no position matches |
| Extraction.FencedArray | src/entrypoints/background/agents/anthropicAgent.ts:65-67 | a capture starts with `[` and ends with `]` |
| Extraction.FencedArrayMatches | src/entrypoints/background/agents/anthropicAgent.ts:65-67 | there is no capture exactly when the pattern matches nowhere in the reply |
| Extraction.IndexOf | src/entrypoints/background/agents/anthropicAgent.ts:69 | the position of the first occurrence of a character, or none when it does not occur |
| Extraction.AnthropicCandidate | src/entrypoints/background/agents/anthropicAgent.ts:63-76 | the capture if the pattern matches; else the suffix from the first `[`; else the whole reply |
| Extraction.LettaCandidate | src/entrypoints/background/agents/lettaAgent.ts:106-115 | the capture if the pattern matches, else the whole reply |
| ExtractionFacts.FencedArrayCapture | src/entrypoints/background/agents/anthropicAgent.ts:65-67 | for backtick-free prose, a fence with optional `json` tag, whitespace, a bracketed body without backticks, whitespace and a fence, the capture is exactly the body |
| ExtractionFacts.JsonBlockCapture | src/entrypoints/background/agents/lettaAgent.ts:109-111 | a reply that is one `json` code block around an array yields that array |
| AgentResults.Interpret | src/entrypoints/background/agents/anthropicAgent.ts:59-98 | an empty reply gives `NoResponse`; a parse failure is final; success exactly when the candidate parses and validates, with the validator's actions; every result is well shaped |
| AgentResults.SucceededActionsRevalidate | src/entrypoints/background/agents/anthropicAgent.ts:85-90 | the actions of a successful result validate again to themselves |
| AnthropicAgents.StreamTextAppend | src/entrypoints/background/agents/anthropicAgent.ts:50-55 | the text of a concatenated stream is the concatenation of the texts |
| AnthropicAgents.NonTextEventsIgnored | src/entrypoints/background/agents/anthropicAgent.ts:52 | an event that is not a text delta adds nothing to the reply |
| AnthropicAgents.StreamText | src/entrypoints/background/agents/anthropicAgent.ts:50-55 | the reference definition of the reply text: the texts of the text deltas, in stream order; `StreamTextAppend` and `NonTextEventsIgnored` state its properties and `AccumulateText` is proved against it |
| AnthropicAgents.AccumulateText | src/entrypoints/background/agents/anthropicAgent.ts:50-55 | the loop's result is the stream's text: the text deltas in order |
| AnthropicAgents.Message | src/entrypoints/background/agents/anthropicAgent.ts:101-103 | the message is the purpose prefix, the mission, the DOM prefix and the page, each verbatim, in that order |
| AnthropicAgents.ReplyOutcome | src/entrypoints/background/agents/anthropicAgent.ts:57-98 | a result is well shaped; an empty reply is `NoResponse`; it succeeds exactly when the candidate parses and passes the lenient validator, with that validator's actions |
| AnthropicAgents.RequestOutcome | src/entrypoints/background/agents/anthropicAgent.ts:39-98 | a failed request or stream ends in `RequestFailed` with its reason; a delivered stream is judged on its text alone |
| AnthropicAgents.AnthropicAgent.Ready | src/entrypoints/background/agents/anthropicAgent.ts:36 | the guard of `getActions`: the flag is set and a client is present |
| AnthropicAgents.AnthropicAgent.constructor | src/entrypoints/background/agents/agent.ts:10-13 | a new agent holds its mission, is not initialized and has no client |
| AnthropicAgents.AnthropicAgent.Initialize | src/entrypoints/background/agents/anthropicAgent.ts:16-30 | an empty key fails with `MissingApiKey` and changes nothing; otherwise the client gets the key and the agent is ready |
| AnthropicAgents.AnthropicAgent.GetActions | src/entrypoints/background/agents/anthropicAgent.ts:35-99 | throws `NotInitialized` unless initialized with a client; otherwise returns the outcome of the request on this agent's message |
| AnthropicAgents.OutcomeCharacterized | src/entrypoints/background/agents/anthropicAgent.ts:39-98 | a result is well shaped, and succeeds exactly when the stream arrives, has text, and its candidate parses and passes the lenient validator, whose actions it returns |
| AnthropicAgents.NoTextMeansNoResponse | src/entrypoints/background/agents/anthropicAgent.ts:59-61 | a stream without text deltas has empty text and ends in `NoResponse` |
| AnthropicAgents.FenceParseFailureIsFinal | src/entrypoints/background/agents/anthropicAgent.ts:64-83 | when the pattern matches but its capture does not parse, the call fails; the fallbacks are not tried |
| AnthropicAgents.ProseReplyFails | src/entrypoints/background/agents/anthropicAgent.ts:69-75 | a reply without fence or `[` is parsed whole, and unparsable prose is `ParseFailed` |
| AnthropicAgents.FencedReplyRoundTrip | src/entrypoints/background/agents/anthropicAgent.ts:63-90 | lenient-validated actions rendered as a `json` block and parsed back come out of the agent unchanged |
| LettaAgents.SelectAssistantContent | src/entrypoints/background/agents/lettaAgent.ts:84-97 | the loop returns the text of the first assistant message with truthy content, or "" |
| LettaAgents.AssistantText | src/entrypoints/background/agents/lettaAgent.ts:84-97 | the reference definition of the selected reply: the text of the first assistant message with truthy content, or ""; `FirstSelectableWins`, `ReplyHasSource` and `NoSelectableMeansEmpty` state its properties and `SelectAssistantContent` is proved against it |
| LettaAgents.FirstSelectableWins | src/entrypoints/background/agents/lettaAgent.ts:85-96 | the first assistant message with truthy content decides the reply; later messages are not read |
| LettaAgents.ReplyHasSource | src/entrypoints/background/agents/lettaAgent.ts:84-97 | a non-empty reply is the text of the first selectable message, which exists |
| LettaAgents.NoSelectableMeansEmpty | src/entrypoints/background/agents/lettaAgent.ts:84-97 | with no assistant message that has content, the reply is empty |
| LettaAgents.MessageContentFor | src/entrypoints/background/agents/lettaAgent.ts:65 | the purpose prefix, the prompt, the format reminder and the page, each verbatim, in that order |
| LettaAgents.Stamped | src/entrypoints/background/agents/lettaAgent.ts:75 | the sent text is the timestamp in brackets, a space, then the content unchanged |
| LettaAgents.ReplyOutcome | src/entrypoints/background/agents/lettaAgent.ts:84-136 | a result is well shaped; without an assistant reply it is `NoResponse`; it succeeds exactly when the reply's candidate parses and passes the strict validator, with that validator's actions |
| LettaAgents.RequestOutcome | src/entrypoints/background/agents/lettaAgent.ts:63-136 | a failed request ends in `RequestFailed` with its reason; a reply is judged on its messages alone |
| LettaAgents.LettaAgent.constructor | src/entrypoints/background/agents/lettaAgent.ts:18-25 | a client for https://app.letta.com with an empty token, the given agent id, not initialized |
| LettaAgents.LettaAgent.IsReady | src/entrypoints/background/agents/lettaAgent.ts:157-159 | the agent is ready when it is initialized and has a non-empty agent id |
| LettaAgents.LettaAgent.Initialize | src/entrypoints/background/agents/lettaAgent.ts:30-49 | the client always gets the key; without an agent id the call fails with `AgentIdNotSet` and the flag keeps its value; otherwise the agent is ready |
| LettaAgents.LettaAgent.SetAgentId | src/entrypoints/background/agents/lettaAgent.ts:143-145 | the id is replaced and nothing else changes; readiness then depends on the new id |
| LettaAgents.LettaAgent.GetAgentId | src/entrypoints/background/agents/lettaAgent.ts:150-152 | returns the current agent id |
| LettaAgents.LettaAgent.GetActions | src/entrypoints/background/agents/lettaAgent.ts:54-138 | throws exactly when the agent is not ready: `NotInitialized` first, then `NoAgentId`; otherwise returns the outcome of the request on the stamped message |
| LettaAgents.OutcomeCharacterized | src/entrypoints/background/agents/lettaAgent.ts:63-136 | a result is well shaped, and succeeds exactly when the request returns, an assistant reply is found, and its candidate parses and passes the strict validator |
| LettaAgents.SucceededActionsAreSourced | src/entrypoints/background/agents/lettaAgent.ts:121-126 | every action of a successful result cites at least one source, each an accepted URL |
| LettaAgents.NoAssistantReply | src/entrypoints/background/agents/lettaAgent.ts:99-101 | without an assistant message that has content the call fails with `NoResponse` |
| LettaAgents.UnfencedReplyParsedWhole | src/entrypoints/background/agents/lettaAgent.ts:112-115 | without a fence the whole reply is parsed; there is no retry from the first `[` |
| LettaAgents.FencedReplyRoundTrip | src/entrypoints/background/agents/lettaAgent.ts:106-126 | strictly validated actions rendered as a `json` block in the first assistant message come out unchanged |
| Samples.SampleActionWellFormed | src/entrypoints/background/agents/system-prompt.ts:91-158 | each of the six sample actions passes the checks of both validators once its cited URL is accepted |
| Samples.SampleOutputAccepted | src/entrypoints/background/agents/system-prompt.ts:91-158 | the system prompt's six-action sample passes both validators and comes back unchanged |
| Samples.SampleShape | src/entrypoints/background/agents/system-prompt.ts:91-158 | the sample holds six actions with the types and target selectors of the prompt's example |
| Samples.UnitIntervalEndsAccepted | src/entrypoints/background/agents/validation.ts:42-48 | in a well-formed action, a confidence or severity of exactly 0 or 1 is accepted |
| Samples.ConfidenceOutsideRejected | src/entrypoints/background/agents/validation.ts:42-48 | a confidence above 1 or below 0 is rejected, whatever the other fields hold |
| Samples.SeverityOutsideRejected | src/entrypoints/background/agents/validation.ts:42-48 | a severity above 1 or below 0 is rejected, whatever the other fields hold |
| Samples.BlankSelectorRejected | src/entrypoints/background/agents/validation.ts:34-39 | a whitespace-only selector, empty or not, is rejected |
| Samples.EmptySourcesPassLenient | src/entrypoints/background/agents/agent.ts:73-76 | an action that is valid except that its sources array is empty passes the base class's copy unchanged |
| Samples.SingleElementFailure | src/entrypoints/background/agents/validation.ts:11-16 | a one-element answer fails with index 0 and the element's own reason |
| Samples.EmptySourcesFailStrict | src/entrypoints/background/agents/validation.ts:51-53 | the same action fails the standalone validator with `InvalidSources` at element 0 |
| Samples.ObjectIsNotAnArray | src/entrypoints/background/agents/validation.ts:12-14 | a single action object, not wrapped in an array, is rejected by both validators with `NotAnArray` |
| Samples.RefusalIsParseFailure | src/entrypoints/background/agents/anthropicAgent.ts:74-82 | the reply "I cannot help with that." ends in a parse failure |
| Samples.StreamOfMixedEvents | src/entrypoints/background/agents/anthropicAgent.ts:51-55 | only text deltas reach the reply |
| Samples.LettaJoinsFirstAssistantMessage | src/entrypoints/background/agents/lettaAgent.ts:85-96 | a reasoning message and an assistant message without content are skipped, parts are joined, and a later assistant message is ignored |
| Samples.LettaEmptyPartsHideLaterReply | src/entrypoints/background/agents/lettaAgent.ts:86-101 | an empty parts array is truthy, is selected, yields "", and the call fails with `NoResponse` |
| Samples.EmptyAnswerSucceeds | src/entrypoints/background/agents/anthropicAgent.ts:85-90 | an empty JSON array is a successful answer with no actions, for both agents |
| Samples.LettaLifecycle | src/entrypoints/background/agents/lettaAgent.ts:30-49 | initializing without an id fails; after setting one, initializing succeeds and the agent is ready with that id |
| Samples.AnthropicLifecycle | src/entrypoints/background/agents/anthropicAgent.ts:16-38 | a call before initialization throws, an empty key is refused, a key makes the agent ready |

## Left out

- Network clients: both APIs are function parameters, fixed for the whole call.
  The model covers the message sent, the reply received or the reason the
  request failed, not the HTTP traffic, retries or the model name and token
  limit.
- A stream that fails part-way is folded into `RequestFailed`. Text received
  before the failure is not modelled, since the original discards it too.
- `JSON.parse` and `new URL(...)` are parameters (`parse`, `urlOk`). Every
  lemma holds for all of them; the JSON and URL grammars are not modelled.
- IEEE numbers: JSON numbers are reals. `JSON.parse` never yields NaN, but it
  does yield infinities (`1e400`) and negative zero (`-0`). Neither changes an
  outcome: an infinity fails the range test as any real outside [0, 1] does,
  and `-0` passes `>= 0` exactly as 0 does.
- Error messages: errors are structured values carrying the index, field or
  reason that the original's message text reports. Message wording and the
  "Failed to initialize …" wrapping are not modelled.
- Logging (`console.log`, `console.error`) and the `uuid` identity of the base
  class have no effect on results and are left out.
- The Letta timestamp comes from the clock; it is the `now` parameter.
- The abstract `Agent` class is folded into `AnthropicAgent`, its only
  subclass: a class with the mission, the flag and the client. Its
  `getMessage` template is `BaseAgent.GetMessage`. `AnthropicAgent` overrides
  that template, so nothing in the model calls it.
- `AnthropicAgent.Initialize` assumes the SDK constructor does not throw. The
  source's catch that rethrows such an error is not modelled.
- `LettaAgent.Initialize` likewise assumes `new LettaClient(...)` does not
  throw: the model always installs the client, and the catch that rewraps a
  constructor error is not modelled.
- `LettaAgent.agentId` is a string: the constructor and `setAgentId` always
  assign one, so the optional field is never `undefined`. An empty id behaves
  as absent, as `!agentId` does.
- Letta content parts that are `null`, or objects whose `text` is not a
  string, are not modelled: the original would throw or coerce them. An
  object item is read through its `text`, or "" when that is absent or empty.
- Exactly when a regular expression with the same engine semantics matches is
  modelled. Unpaired surrogates and JavaScript's UTF-16 indexing are not:
  strings are sequences of code points.
- `createLettaAgent` is a constructor call.
- The UI, the content script, the background entry point, the system-prompt
  prose and the type-only files are not part of this model.
- The test scripts under `agents/tests/` and `lettaAgentTest.ts` are not part
  of this model: they drive the network client.
