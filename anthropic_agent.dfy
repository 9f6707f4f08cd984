/**
 * The Anthropic-backed agent: a class holding the mission, the readiness flag
 * and the API client, whose `GetActions` sends the page to the model, joins
 * the streamed text, extracts the JSON array and validates it with the base
 * class's lenient validator.
 */
module AnthropicAgents {
  import opened Results
  import opened Json
  import opened Actions
  import opened Validation
  import BaseAgent
  import opened Extraction
  import ExtractionFacts
  import opened AgentResults
  import opened Prompts

  /**
   * The payload of a `content_block_delta` event: a `text_delta` with its
   * text, or a delta of any other type (`OtherDelta` never carries the tag
   * `text_delta`; such a delta is a `TextDelta`).
   */
  datatype Delta = TextDelta(text: string) | OtherDelta(deltaType: string)

  /**
   * One event of the response stream: a `content_block_delta`, or an event
   * of any other type (`OtherEvent` never carries the tag
   * `content_block_delta`; such an event is a `ContentBlockDelta`).
   */
  datatype StreamEvent = ContentBlockDelta(delta: Delta) | OtherEvent(eventType: string)

  /** What an event adds to the reply: the text of a text delta, nothing otherwise. */
  function EventText(e: StreamEvent): string {
    if e.ContentBlockDelta? && e.delta.TextDelta? then e.delta.text else ""
  }

  /** The reply assembled from a stream: the text deltas, in order. */
  function StreamText(events: seq<StreamEvent>): string {
    if events == [] then "" else StreamText(events[..|events| - 1]) + EventText(events[|events| - 1])
  }

  /** The text of two consecutive parts of a stream is the text of the first followed by that of the second. */
  lemma {:induction false} StreamTextAppend(xs: seq<StreamEvent>, ys: seq<StreamEvent>)
    ensures StreamText(xs + ys) == StreamText(xs) + StreamText(ys)
    decreases |ys|
  {
    if ys == [] {
      assert xs + ys == xs;
    } else {
      var init, last := ys[..|ys| - 1], ys[|ys| - 1];
      assert (xs + ys)[..|xs + ys| - 1] == xs + init;
      assert (xs + ys)[|xs + ys| - 1] == last;
      StreamTextAppend(xs, init);
      var a, b, c := StreamText(xs), StreamText(init), EventText(last);
      assert StreamText(xs + ys) == a + b + c;
      assert StreamText(ys) == b + c;
      assert a + b + c == a + (b + c);
    }
  }

  /** Events that carry no text delta contribute nothing to the reply. */
  lemma {:induction false} NonTextEventsIgnored(xs: seq<StreamEvent>, e: StreamEvent, ys: seq<StreamEvent>)
    requires !(e.ContentBlockDelta? && e.delta.TextDelta?)
    ensures StreamText(xs + [e] + ys) == StreamText(xs + ys)
  {
    assert [e][..0] == [];
    calc {
      StreamText(xs + [e] + ys);
    == { StreamTextAppend(xs + [e], ys); }
      StreamText(xs + [e]) + StreamText(ys);
    == { StreamTextAppend(xs, [e]); }
      StreamText(xs) + StreamText([e]) + StreamText(ys);
    == { assert StreamText([e]) == ""; }
      StreamText(xs) + StreamText(ys);
    == { StreamTextAppend(xs, ys); }
      StreamText(xs + ys);
    }
  }

  /** The streaming loop: appends the text of every text delta to the reply. */
  method AccumulateText(events: seq<StreamEvent>) returns (full: string)
    ensures full == StreamText(events)
  {
    full := "";
    var i := 0;
    while i < |events|
      invariant 0 <= i <= |events|
      invariant full == StreamText(events[..i])
    {
      var event := events[i];
      if event.ContentBlockDelta? && event.delta.TextDelta? {
        full := full + event.delta.text;
      }
      assert events[..i + 1][..i] == events[..i];
      i := i + 1;
    }
    assert events[..i] == events;
  }

  const DomIntro: string := "\n\nAnyways, here is the DOM: "

  /** The user message this agent sends: its own short template, not the base class's. */
  function Message(mission: string, dom: string): (m: string)
    ensures |m| == |PurposeIntro| + |mission| + |DomIntro| + |dom|
    ensures m[..|PurposeIntro|] == PurposeIntro
    ensures m[|PurposeIntro|..|PurposeIntro| + |mission|] == mission
    ensures m[|PurposeIntro| + |mission|..|m| - |dom|] == DomIntro
    ensures m[|m| - |dom|..] == dom
  {
    PurposeIntro + mission + DomIntro + dom
  }

  /** What happens to a complete reply: empty check, three-step extraction, lenient validation. */
  function ReplyOutcome(parse: string -> Option<Json>, urlOk: string -> bool, full: string): (r: AgentResult)
    ensures WellShaped(r)
    ensures full == "" ==> r == Failed(NoResponse)
    ensures r.success <==>
      && full != ""
      && parse(AnthropicCandidate(full)).Some?
      && BaseAgent.ValidateAgentActions(urlOk, parse(AnthropicCandidate(full)).value).Success?
    ensures r.success ==> r.actions == BaseAgent.ValidateAgentActions(urlOk, parse(AnthropicCandidate(full)).value).value
  {
    Interpret(AnyIterable, urlOk, parse, full, AnthropicCandidate(full))
  }

  /** The outcome of one request, given the reply of the API (the stream, or the reason it failed). */
  function RequestOutcome(reply: Result<seq<StreamEvent>, string>, parse: string -> Option<Json>,
                          urlOk: string -> bool): (r: AgentResult)
    ensures reply.Failure? ==> r == Failed(RequestFailed(reply.error))
    ensures reply.Success? ==> r == ReplyOutcome(parse, urlOk, StreamText(reply.value))
  {
    match reply
    case Failure(reason) => Failed(RequestFailed(reason))
    case Success(events) => ReplyOutcome(parse, urlOk, StreamText(events))
  }

  /** The configured API client; only the key it was built with matters here. */
  datatype AnthropicClient = AnthropicClient(apiKey: string)

  class AnthropicAgent {
    var isInitialized: bool
    var mission: string
    var client: Option<AnthropicClient>

    /** A new agent for a mission: not initialized and without a client. */
    constructor(mission: string)
      ensures this.mission == mission && !isInitialized && client.None?
    {
      this.mission := mission;
      isInitialized := false;
      client := None;
    }

    /** Requests are allowed once initialization has set the flag and the client. */
    predicate Ready()
      reads this
    {
      isInitialized && client.Some?
    }

    /**
     * Builds the client for `apiKey` and marks the agent ready; an empty key
     * is refused (the method returns the exception it would throw) and then
     * nothing changes.
     */
    method Initialize(apiKey: string) returns (err: Option<AgentError>)
      modifies this
      ensures apiKey == "" ==> err == Some(MissingApiKey) && unchanged(this)
      ensures apiKey != "" ==> err.None? && client == Some(AnthropicClient(apiKey)) && isInitialized
      ensures mission == old(mission)
      ensures apiKey != "" ==> Ready()
    {
      if apiKey == "" {
        return Some(MissingApiKey);
      }
      client := Some(AnthropicClient(apiKey));
      isInitialized := true;
      err := None;
    }

    /**
     * One analysis of a page. `send` stands for the streaming API call on
     * the user message (its value is the stream, or why the request or the
     * stream failed); `parse` is `JSON.parse`, `urlOk` the URL constructor's
     * acceptance test. The agent's state does not change.
     */
    method GetActions(dom: string, send: string -> Result<seq<StreamEvent>, string>,
                      parse: string -> Option<Json>, urlOk: string -> bool) returns (c: Completion)
      ensures !Ready() ==> c == Threw(NotInitialized)
      ensures Ready() ==> c == Returned(RequestOutcome(send(Message(mission, dom)), parse, urlOk))
    {
      if !isInitialized || client.None? {
        return Threw(NotInitialized);
      }
      var content := Message(mission, dom);
      match send(content)
      case Failure(reason) =>
        c := Returned(Failed(RequestFailed(reason)));
      case Success(events) =>
        var full := AccumulateText(events);
        c := Returned(ReplyOutcome(parse, urlOk, full));
    }
  }

  /** Every result is well shaped, and it succeeds exactly when the stream, the parse and the lenient validator all do. */
  lemma OutcomeCharacterized(reply: Result<seq<StreamEvent>, string>, parse: string -> Option<Json>, urlOk: string -> bool)
    ensures WellShaped(RequestOutcome(reply, parse, urlOk))
    ensures RequestOutcome(reply, parse, urlOk).success <==>
      && reply.Success?
      && StreamText(reply.value) != ""
      && parse(AnthropicCandidate(StreamText(reply.value))).Some?
      && BaseAgent.ValidateAgentActions(urlOk, parse(AnthropicCandidate(StreamText(reply.value))).value).Success?
    ensures RequestOutcome(reply, parse, urlOk).success ==>
      RequestOutcome(reply, parse, urlOk).actions
      == BaseAgent.ValidateAgentActions(urlOk, parse(AnthropicCandidate(StreamText(reply.value))).value).value
  {
  }

  /** A stream without a single text delta ends in the "no response" failure. */
  lemma {:induction false} NoTextMeansNoResponse(events: seq<StreamEvent>, parse: string -> Option<Json>, urlOk: string -> bool)
    requires forall i :: 0 <= i < |events| ==> EventText(events[i]) == ""
    ensures StreamText(events) == ""
    ensures RequestOutcome(Success(events), parse, urlOk) == Failed(NoResponse)
    decreases |events|
  {
    if events != [] {
      NoTextMeansNoResponse(events[..|events| - 1], parse, urlOk);
    }
  }

  /**
   * When the fenced pattern matches, only its capture is parsed: if that does
   * not parse, the call fails even when the whole reply, or its suffix from
   * the first `[`, would parse.
   */
  lemma FenceParseFailureIsFinal(full: string, parse: string -> Option<Json>, urlOk: string -> bool)
    requires full != "" && FencedArray(full).Some? && parse(FencedArray(full).value).None?
    ensures ReplyOutcome(parse, urlOk, full) == Failed(ParseFailed(FencedArray(full).value))
  {
  }

  /** A reply with no fence and no `[` is parsed whole; prose that does not parse is a parse failure. */
  lemma ProseReplyFails(full: string, parse: string -> Option<Json>, urlOk: string -> bool)
    requires full != "" && '[' !in full && parse(full).None?
    ensures ReplyOutcome(parse, urlOk, full) == Failed(ParseFailed(full))
  {
    assert FencedArray(full).None?;
  }

  /**
   * Round trip: actions the lenient validator produced, rendered by the model
   * as a `json` code block and parsed back, come out of the agent unchanged.
   */
  lemma {:induction false} FencedReplyRoundTrip(data: Json, text: string, parse: string -> Option<Json>, urlOk: string -> bool)
    requires BaseAgent.ValidateAgentActions(urlOk, data).Success?
    requires parse(text) == Some(JArray(ToJsonAll(BaseAgent.ValidateAgentActions(urlOk, data).value)))
    requires '`' !in text && |text| >= 2 && text[0] == '[' && text[|text| - 1] == ']'
    ensures ReplyOutcome(parse, urlOk, Fence + JsonTag + "\n" + text + "\n" + Fence)
            == Succeeded(BaseAgent.ValidateAgentActions(urlOk, data).value)
  {
    ExtractionFacts.JsonBlockCapture(text);
    RevalidationIsIdentity(AnyIterable, urlOk, data);
  }
}
