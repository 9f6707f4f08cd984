/**
 * Concrete cases: the sample answer embedded in the system prompt, the
 * boundaries of the numeric checks, the `sources` difference between the two
 * validators, a refusal in prose, and the life cycle of both agent classes.
 */
module Samples {
  import opened Results
  import opened Json
  import opened Actions
  import opened Validation
  import BaseAgent
  import opened Extraction
  import opened AgentResults
  import AnthropicAgents
  import LettaAgents

  /** An action citing one source. */
  function Cited(kind: ActionType, target: string, content: string, confidence: real, severity: real,
                 explanation: string, url: string): Action {
    Action(kind, target, content, confidence, severity, explanation, JArray([JString(url)]))
  }

  // The six actions of the sample answer, with the sample's strings; the fifth
  // explanation keeps the sample's mis-decoded approximation sign. Each string
  // written as `"head " + "rest"` is the prompt's single literal, split in two.

  const Sample0: Action :=
    Cited(Highlight, "#p1", "Mars " + "is the largest planet in our solar system.", 0.96, 0.75,
          "Jupiter, " + "not Mars, is the largest planet in the solar system.",
          "https://" + "solarsystem.nasa.gov/planets/overview/")

  const Sample1: Action :=
    Cited(Underline, "#p2", "The Moon " + "is made entirely of cheese", 0.99, 0.60,
          "The Moon " + "is composed mainly of silicate rock and metal.",
          "https://" + "moon.nasa.gov/moon-facts/")

  const Sample2: Action :=
    Cited(Underline, "#p2", "is younger than Earth", 0.85, 0.45,
          "The Moon " + "and Earth formed about 4.5 billion years ago, so they are roughly the same age.",
          "https://" + "www.esa.int/Science_Exploration/Space_Science/The_Moon")

  const Sample3: Action :=
    Cited(AddNote, "#p3", "Neil Armstrong " + "landed on Mars in 1969.", 0.98, 0.80,
          "Neil Armstrong " + "landed on the *Moon* (Apollo 11) in 1969; humans have never landed on Mars.",
          "https://" + "history.nasa.gov/ap11-35ann/apollo11_log/log.htm")

  const Sample4: Action :=
    Cited(Highlight, "#p4", "Light travels " + "at 300,000 kilometers per hour.", 0.97, 0.70,
          "Light travels " + "at ~300,000 kilometers per *second* (\U{E2}\U{2030}\U{2C6}1 billion km/h).",
          "https://" + "physics.nist.gov/cuu/Constants/")

  const Sample5: Action :=
    Cited(Highlight, "#p5", "Pluto " + "is still classified as a planet.", 0.93, 0.65,
          "In 2006 " + "the International Astronomical Union re-classified Pluto as a dwarf planet.",
          "https://" + "www.iau.org/public/themes/pluto/")

  /** The six actions of the sample answer, in order. */
  const SampleActions: seq<Action> := [Sample0, Sample1, Sample2, Sample3, Sample4, Sample5]

  /** The URL a cited action names. */
  function CitedUrl(a: Action): string {
    if a.sources.JArray? && |a.sources.items| > 0 && a.sources.items[0].JString? then a.sources.items[0].s else ""
  }

  /** The sample answer as the parser returns it. */
  const SampleOutput: Json := JArray(ToJsonAll(SampleActions))

  /** A string that starts with a non-whitespace code point is not blank. */
  lemma StartsNonBlank(s: string)
    requires s != [] && !IsJsSpace(s[0])
    ensures Trim(s) != []
  {
    TrimEmptyIffBlank(s);
  }

  /** A cited action with non-blank strings, numbers in the unit interval and an accepted URL passes both validators' checks. */
  lemma CitedWellFormed(urlOk: string -> bool, kind: ActionType, target: string, content: string,
                        confidence: real, severity: real, explanation: string, url: string)
    requires target != [] && !IsJsSpace(target[0]) && content != [] && !IsJsSpace(content[0])
    requires explanation != [] && !IsJsSpace(explanation[0]) && url != [] && !IsJsSpace(url[0])
    requires 0.0 <= confidence <= 1.0 && 0.0 <= severity <= 1.0 && urlOk(url)
    ensures WellFormed(NonEmptyArray, urlOk, Cited(kind, target, content, confidence, severity, explanation, url))
    ensures WellFormed(AnyIterable, urlOk, Cited(kind, target, content, confidence, severity, explanation, url))
  {
    StartsNonBlank(target);
    StartsNonBlank(content);
    StartsNonBlank(explanation);
    StartsNonBlank(url);
    assert IsSourceUrl(urlOk, JArray([JString(url)]).items[0]);
  }

  /** Each sample action passes the checks of both validators once its URL is accepted. */
  lemma SampleActionWellFormed(urlOk: string -> bool, i: nat)
    requires i < |SampleActions| && urlOk(CitedUrl(SampleActions[i]))
    ensures WellFormed(NonEmptyArray, urlOk, SampleActions[i]) && WellFormed(AnyIterable, urlOk, SampleActions[i])
  {
    var a := SampleActions[i];
    CitedWellFormed(urlOk, a.kind, a.targetElement, a.content, a.confidence, a.severity, a.explanation, CitedUrl(a));
  }

  /** Well-formed actions, encoded, pass both validators unchanged. */
  lemma AcceptedByBoth(urlOk: string -> bool, acts: seq<Action>)
    requires forall i :: 0 <= i < |acts| ==> WellFormed(NonEmptyArray, urlOk, acts[i]) && WellFormed(AnyIterable, urlOk, acts[i])
    ensures Validation.ValidateAgentActions(urlOk, JArray(ToJsonAll(acts))) == Success(acts)
    ensures BaseAgent.ValidateAgentActions(urlOk, JArray(ToJsonAll(acts))) == Success(acts)
  {
    EncodedActionsAccepted(NonEmptyArray, urlOk, acts);
    EncodedActionsAccepted(AnyIterable, urlOk, acts);
  }

  /**
   * The sample answer is accepted by both validators, which return the six
   * actions unchanged.
   */
  lemma SampleOutputAccepted(urlOk: string -> bool)
    requires forall i :: 0 <= i < |SampleActions| ==> urlOk(CitedUrl(SampleActions[i]))
    ensures Validation.ValidateAgentActions(urlOk, SampleOutput) == Success(SampleActions)
    ensures BaseAgent.ValidateAgentActions(urlOk, SampleOutput) == Success(SampleActions)
  {
    forall i | 0 <= i < |SampleActions|
      ensures WellFormed(NonEmptyArray, urlOk, SampleActions[i]) && WellFormed(AnyIterable, urlOk, SampleActions[i])
    {
      SampleActionWellFormed(urlOk, i);
    }
    AcceptedByBoth(urlOk, SampleActions);
  }

  /** The sample's types and targets: highlight, underline, underline, add_note, highlight, highlight on #p1, #p2, #p2, #p3, #p4, #p5. */
  lemma SampleShape()
    ensures |SampleActions| == 6
    ensures forall i :: 0 <= i < 6 ==> SampleActions[i].kind == [Highlight, Underline, Underline, AddNote, Highlight, Highlight][i]
    ensures forall i :: 0 <= i < 6 ==> SampleActions[i].targetElement == ["#p1", "#p2", "#p2", "#p3", "#p4", "#p5"][i]
  {
  }

  /** Both ends of the unit interval are accepted, in either number field of a well-formed action. */
  lemma UnitIntervalEndsAccepted(policy: SourcesPolicy, urlOk: string -> bool, a: Action)
    requires WellFormed(policy, urlOk, a)
    ensures CheckAction(policy, urlOk, ToJson(a.(confidence := 1.0))) == Success(a.(confidence := 1.0))
    ensures CheckAction(policy, urlOk, ToJson(a.(confidence := 0.0))) == Success(a.(confidence := 0.0))
    ensures CheckAction(policy, urlOk, ToJson(a.(severity := 1.0))) == Success(a.(severity := 1.0))
    ensures CheckAction(policy, urlOk, ToJson(a.(severity := 0.0))) == Success(a.(severity := 0.0))
  {
    assert WellFormed(policy, urlOk, a.(confidence := 1.0));
    EncodedActionAccepted(policy, urlOk, a.(confidence := 1.0));
    assert WellFormed(policy, urlOk, a.(confidence := 0.0));
    EncodedActionAccepted(policy, urlOk, a.(confidence := 0.0));
    assert WellFormed(policy, urlOk, a.(severity := 1.0));
    EncodedActionAccepted(policy, urlOk, a.(severity := 1.0));
    assert WellFormed(policy, urlOk, a.(severity := 0.0));
    EncodedActionAccepted(policy, urlOk, a.(severity := 0.0));
  }

  /** A confidence above one or below zero is rejected, whatever the other fields hold. */
  lemma ConfidenceOutsideRejected(policy: SourcesPolicy, urlOk: string -> bool, a: Action)
    requires a.confidence > 1.0 || a.confidence < 0.0
    ensures CheckAction(policy, urlOk, ToJson(a)).Failure?
  {
    EncodedActionAccepted(policy, urlOk, a);
  }

  /** A severity above one or below zero is rejected, whatever the other fields hold. */
  lemma SeverityOutsideRejected(policy: SourcesPolicy, urlOk: string -> bool, a: Action)
    requires a.severity > 1.0 || a.severity < 0.0
    ensures CheckAction(policy, urlOk, ToJson(a)).Failure?
  {
    EncodedActionAccepted(policy, urlOk, a);
  }

  /** A selector made of whitespace only is rejected, empty or not: the strings are trimmed before the emptiness test. */
  lemma BlankSelectorRejected(policy: SourcesPolicy, urlOk: string -> bool, a: Action)
    requires IsBlank(a.targetElement)
    ensures CheckAction(policy, urlOk, ToJson(a)).Failure?
  {
    TrimEmptyIffBlank(a.targetElement);
    EncodedActionAccepted(policy, urlOk, a);
  }

  /** Without sources, an otherwise well-formed action passes the base class's validator unchanged. */
  lemma EmptySourcesPassLenient(urlOk: string -> bool, a: Action)
    requires FieldsWellFormed(a) && a.sources == JArray([])
    ensures BaseAgent.ValidateAgentActions(urlOk, JArray(ToJsonAll([a]))) == Success([a])
  {
    assert WellFormed(AnyIterable, urlOk, a);
    EncodedActionsAccepted(AnyIterable, urlOk, [a]);
  }

  /** A one-element answer fails exactly as its element does. */
  lemma SingleElementFailure(policy: SourcesPolicy, urlOk: string -> bool, v: Json)
    requires CheckAction(policy, urlOk, v).Failure?
    ensures Validate(policy, urlOk, JArray([v])) == Failure(AtElement(0, CheckAction(policy, urlOk, v).error))
  {
  }

  /** Such an action's JSON form stops at the strict `sources` gate. */
  lemma UnsourcedElementRejected(urlOk: string -> bool, a: Action)
    requires FieldsWellFormed(a) && a.sources == JArray([])
    ensures CheckAction(NonEmptyArray, urlOk, ToJson(a)) == Failure(InvalidSources)
  {
    EncodedFields(a);
    AcceptableFields(NonEmptyArray, urlOk, ToJson(a), a);
    BaseAgent.EmptySourcesAcceptedHere(urlOk, ToJson(a));
  }

  /** The same action fails the standalone validator at the `sources` gate of element 0. */
  lemma EmptySourcesFailStrict(urlOk: string -> bool, a: Action)
    requires FieldsWellFormed(a) && a.sources == JArray([])
    ensures Validation.ValidateAgentActions(urlOk, JArray(ToJsonAll([a]))) == Failure(AtElement(0, InvalidSources))
  {
    UnsourcedAnswerRejected(urlOk, a);
  }

  /** The one-element answer of such an action fails the strict check at element 0. */
  lemma UnsourcedAnswerRejected(urlOk: string -> bool, a: Action)
    requires FieldsWellFormed(a) && a.sources == JArray([])
    ensures Validate(NonEmptyArray, urlOk, JArray(ToJsonAll([a]))) == Failure(AtElement(0, InvalidSources))
  {
    var v := ToJson(a);
    UnsourcedElementRejected(urlOk, a);
    SingleElementFailure(NonEmptyArray, urlOk, v);
    SingleEncoding(a);
  }

  /** A one-action list is encoded as the one-element list of its JSON form. */
  lemma SingleEncoding(a: Action)
    ensures ToJsonAll([a]) == [ToJson(a)]
  {
  }

  /** A single object is not an answer: both validators reject it before looking inside. */
  lemma ObjectIsNotAnArray(urlOk: string -> bool)
    ensures Validation.ValidateAgentActions(urlOk, ToJson(SampleActions[0])) == Failure(NotAnArray)
    ensures BaseAgent.ValidateAgentActions(urlOk, ToJson(SampleActions[0])) == Failure(NotAnArray)
  {
  }

  const Refusal: string := "I cannot help with that."

  /** A refusal in prose has no fence and no `[`, so it is parsed whole, and a parse failure is the result. */
  lemma RefusalIsParseFailure(parse: string -> Option<Json>, urlOk: string -> bool)
    requires parse(Refusal).None?
    ensures AnthropicAgents.ReplyOutcome(parse, urlOk, Refusal) == Failed(ParseFailed(Refusal))
  {
    AnthropicAgents.ProseReplyFails(Refusal, parse, urlOk);
  }

  /** Only text deltas reach the reply. */
  lemma StreamOfMixedEvents()
    ensures AnthropicAgents.StreamText([
      AnthropicAgents.OtherEvent("message_start"),
      AnthropicAgents.ContentBlockDelta(AnthropicAgents.TextDelta("[")),
      AnthropicAgents.ContentBlockDelta(AnthropicAgents.OtherDelta("input_json_delta")),
      AnthropicAgents.ContentBlockDelta(AnthropicAgents.TextDelta("]")),
      AnthropicAgents.OtherEvent("message_stop")]) == "[]"
  {
    var start, stop := AnthropicAgents.OtherEvent("message_start"), AnthropicAgents.OtherEvent("message_stop");
    var open := AnthropicAgents.ContentBlockDelta(AnthropicAgents.TextDelta("["));
    var json := AnthropicAgents.ContentBlockDelta(AnthropicAgents.OtherDelta("input_json_delta"));
    var close := AnthropicAgents.ContentBlockDelta(AnthropicAgents.TextDelta("]"));
    var events := [start, open, json, close, stop];
    assert events[..4] == [start, open, json, close];
    assert events[..4][..3] == [start, open, json];
    assert events[..4][..3][..2] == [start, open];
    assert events[..4][..3][..2][..1] == [start];
    assert AnthropicAgents.StreamText([start]) == "";
    assert AnthropicAgents.StreamText([start, open]) == "[";
    assert AnthropicAgents.StreamText([start, open, json]) == "[";
    assert AnthropicAgents.StreamText([start, open, json, close]) == "[]";
  }

  /**
   * The Letta reply is the first assistant message with content: a reasoning
   * message is skipped, the parts are joined (a part without text counts as
   * ""), and a later assistant message is not read.
   */
  lemma LettaJoinsFirstAssistantMessage()
    ensures LettaAgents.AssistantText([
      LettaAgents.LettaMessage("reasoning_message", LettaAgents.Text("thinking")),
      LettaAgents.LettaMessage("assistant_message", LettaAgents.Absent),
      LettaAgents.LettaMessage("assistant_message",
        LettaAgents.Parts([LettaAgents.PlainPart("[1,"), LettaAgents.TextPart(None), LettaAgents.TextPart(Some("2]"))])),
      LettaAgents.LettaMessage("assistant_message", LettaAgents.Text("ignored"))]) == "[1,2]"
  {
  }

  /** An empty array of parts is truthy, so it is selected, yields "", and the call fails with "no response". */
  lemma LettaEmptyPartsHideLaterReply(parse: string -> Option<Json>, urlOk: string -> bool)
    ensures LettaAgents.RequestOutcome(Success([
      LettaAgents.LettaMessage("assistant_message", LettaAgents.Parts([])),
      LettaAgents.LettaMessage("assistant_message", LettaAgents.Text("[]"))]), parse, urlOk) == Failed(NoResponse)
  {
  }

  /** An empty array is a valid answer: both agents report success with no actions. */
  lemma EmptyAnswerSucceeds(parse: string -> Option<Json>, urlOk: string -> bool)
    requires parse("[]") == Some(JArray([]))
    ensures AnthropicAgents.ReplyOutcome(parse, urlOk, "[]") == Succeeded([])
    ensures LettaAgents.RequestOutcome(Success([LettaAgents.LettaMessage("assistant_message", LettaAgents.Text("[]"))]),
                                       parse, urlOk) == Succeeded([])
  {
    assert FencedArray("[]").None?;
    assert JArray([]) == JArray(ToJsonAll([]));
    EncodedActionsAccepted(AnyIterable, urlOk, []);
    EncodedActionsAccepted(NonEmptyArray, urlOk, []);
  }

  /** The Letta agent's life cycle: no id, then an id, then ready and reporting that id. */
  method LettaLifecycle() returns (first: Option<AgentError>, second: Option<AgentError>, ready: bool, id: string)
    ensures first == Some(AgentIdNotSet) && second.None? && ready && id == "agent-1"
  {
    var agent := new LettaAgents.LettaAgent("");
    first := agent.Initialize("key");
    agent.SetAgentId("agent-1");
    second := agent.Initialize("key");
    ready := agent.IsReady();
    id := agent.GetAgentId();
  }

  /** The Anthropic agent's life cycle: a call before initialization throws, an empty key is refused, a key makes it ready. */
  method AnthropicLifecycle(send: string -> Result<seq<AnthropicAgents.StreamEvent>, string>,
                            parse: string -> Option<Json>, urlOk: string -> bool)
    returns (early: Completion, refused: Option<AgentError>, accepted: Option<AgentError>, ready: bool)
    ensures early == Threw(NotInitialized) && refused == Some(MissingApiKey) && accepted.None? && ready
  {
    var agent := new AnthropicAgents.AnthropicAgent("Check facts");
    early := agent.GetActions("<p/>", send, parse, urlOk);
    refused := agent.Initialize("");
    accepted := agent.Initialize("sk-key");
    ready := agent.Ready();
  }
}
