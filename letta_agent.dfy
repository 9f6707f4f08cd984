/**
 * The Letta-backed fact-checking agent: a class holding the service client,
 * the remote agent's id and a readiness flag, whose `GetActions` sends the
 * page to the remote agent, takes the first assistant message of the reply,
 * extracts the JSON array and validates it with the strict validator.
 */
module LettaAgents {
  import opened Results
  import opened Json
  import opened Actions
  import opened Validation
  import opened Extraction
  import ExtractionFacts
  import opened AgentResults
  import opened Prompts

  /** One item of an array-valued message content: a bare string, or an object whose `text` may be absent. */
  datatype ContentPart = PlainPart(s: string) | TextPart(text: Option<string>)

  /**
   * The `content` of a reply message: absent (undefined or null), a string,
   * an array of parts, or some other truthy value.
   */
  datatype MessageContent = Absent | Text(s: string) | Parts(items: seq<ContentPart>) | OtherValue

  /** One message of the reply, with its `messageType`. */
  datatype LettaMessage = LettaMessage(messageType: string, content: MessageContent)

  const AssistantMessageType: string := "assistant_message"

  /** JavaScript truthiness of a content value: only the absent value and the empty string are falsy. */
  predicate Truthy(c: MessageContent) {
    match c
    case Absent => false
    case Text(s) => s != ""
    case Parts(_) => true
    case OtherValue => true
  }

  /** A part's text: the string itself, or the object's `text` with an absent or empty one giving "". */
  function PartText(p: ContentPart): string {
    match p
    case PlainPart(s) => s
    case TextPart(t) => if t.Some? then t.value else ""
  }

  /** The parts' texts joined with no separator. */
  function JoinParts(items: seq<ContentPart>): (r: string)
    ensures items == [] ==> r == ""
  {
    if items == [] then "" else PartText(items[0]) + JoinParts(items[1..])
  }

  /** The text taken from a selected content: joined parts, the string as is, and "" for any other value. */
  function ContentText(c: MessageContent): string {
    match c
    case Parts(items) => JoinParts(items)
    case Text(s) => s
    case _ => ""
  }

  /** The messages the selection loop stops at: assistant messages with truthy content. */
  predicate Selectable(m: LettaMessage) {
    m.messageType == AssistantMessageType && Truthy(m.content)
  }

  /** The assistant's reply: the text of the first selectable message, or "" when there is none. */
  function AssistantText(messages: seq<LettaMessage>): string {
    if messages == [] then ""
    else if Selectable(messages[0]) then ContentText(messages[0].content)
    else AssistantText(messages[1..])
  }

  /** The selection loop of `getActions`: it stops at the first selectable message. */
  method SelectAssistantContent(messages: seq<LettaMessage>) returns (content: string)
    ensures content == AssistantText(messages)
  {
    content := "";
    var i := 0;
    while i < |messages|
      invariant 0 <= i <= |messages|
      invariant AssistantText(messages[i..]) == AssistantText(messages)
      invariant content == ""
    {
      var message := messages[i];
      if message.messageType == AssistantMessageType && Truthy(message.content) {
        match message.content {
          case Parts(items) =>
            content := JoinParts(items);
          case Text(s) =>
            content := s;
          case _ =>
        }
        break;
      }
      assert messages[i..][1..] == messages[i + 1..];
      i := i + 1;
    }
  }

  /** The first selectable message decides the reply; later messages are never read. */
  lemma {:induction false} FirstSelectableWins(messages: seq<LettaMessage>, k: nat)
    requires k < |messages| && Selectable(messages[k])
    requires forall j :: 0 <= j < k ==> !Selectable(messages[j])
    ensures AssistantText(messages) == ContentText(messages[k].content)
    decreases k
  {
    if k > 0 {
      assert !Selectable(messages[0]);
      FirstSelectableWins(messages[1..], k - 1);
    }
  }

  /** A non-empty reply comes from the first selectable message, which therefore exists. */
  lemma {:induction false} ReplyHasSource(messages: seq<LettaMessage>)
    requires AssistantText(messages) != ""
    ensures exists k :: 0 <= k < |messages| && Selectable(messages[k])
              && (forall j :: 0 <= j < k ==> !Selectable(messages[j]))
              && AssistantText(messages) == ContentText(messages[k].content)
  {
    if Selectable(messages[0]) {
      assert 0 < |messages| && Selectable(messages[0]);
    } else {
      ReplyHasSource(messages[1..]);
      var k :| 0 <= k < |messages[1..]| && Selectable(messages[1..][k])
              && (forall j :: 0 <= j < k ==> !Selectable(messages[1..][j]))
              && AssistantText(messages[1..]) == ContentText(messages[1..][k].content);
      assert forall j :: 0 <= j < k + 1 ==> !Selectable(messages[j]) by {
        forall j | 0 <= j < k + 1 ensures !Selectable(messages[j]) {
          if j > 0 {
            assert messages[j] == messages[1..][j - 1];
          }
        }
      }
      assert Selectable(messages[k + 1]);
    }
  }

  /** With no selectable message the reply is empty. */
  lemma {:induction false} NoSelectableMeansEmpty(messages: seq<LettaMessage>)
    requires forall j :: 0 <= j < |messages| ==> !Selectable(messages[j])
    ensures AssistantText(messages) == ""
    decreases |messages|
  {
    if messages != [] {
      assert !Selectable(messages[0]);
      NoSelectableMeansEmpty(messages[1..]);
    }
  }

  const BaseUrl: string := "https://app.letta.com"

  const DomIntro: string := " Remember to use the output format exactly as specified in the JSON schema. Anyways, here is the DOM:\n\n"

  /** The prompt, the reminder about the output format, then the page markup. */
  function MessageContentFor(prompt: string, dom: string): (m: string)
    ensures |m| == |PurposeIntro| + |prompt| + |DomIntro| + |dom|
    ensures m[..|PurposeIntro|] == PurposeIntro
    ensures m[|PurposeIntro|..|PurposeIntro| + |prompt|] == prompt
    ensures m[|PurposeIntro| + |prompt|..|m| - |dom|] == DomIntro
    ensures m[|m| - |dom|..] == dom
  {
    PurposeIntro + prompt + DomIntro + dom
  }

  /** The message actually sent: the content behind a bracketed timestamp, which keeps consecutive requests distinct. */
  function Stamped(now: string, content: string): (m: string)
    ensures |m| == |now| + 3 + |content|
    ensures m[0] == '[' && m[1..|now| + 1] == now && m[|now| + 1..|now| + 3] == "] "
    ensures m[|now| + 3..] == content
  {
    "[" + now + "] " + content
  }

  /** What happens to the reply messages: selection, empty check, two-step extraction, strict validation. */
  function ReplyOutcome(parse: string -> Option<Json>, urlOk: string -> bool, messages: seq<LettaMessage>): (r: AgentResult)
    ensures WellShaped(r)
    ensures AssistantText(messages) == "" ==> r == Failed(NoResponse)
    ensures r.success <==>
      && AssistantText(messages) != ""
      && parse(LettaCandidate(AssistantText(messages))).Some?
      && Validation.ValidateAgentActions(urlOk, parse(LettaCandidate(AssistantText(messages))).value).Success?
    ensures r.success ==>
      r.actions == Validation.ValidateAgentActions(urlOk, parse(LettaCandidate(AssistantText(messages))).value).value
  {
    var text := AssistantText(messages);
    Interpret(NonEmptyArray, urlOk, parse, text, LettaCandidate(text))
  }

  /** The outcome of one request, given the service's reply (the messages, or why the request failed). */
  function RequestOutcome(reply: Result<seq<LettaMessage>, string>, parse: string -> Option<Json>,
                          urlOk: string -> bool): (r: AgentResult)
    ensures reply.Failure? ==> r == Failed(RequestFailed(reply.error))
    ensures reply.Success? ==> r == ReplyOutcome(parse, urlOk, reply.value)
  {
    match reply
    case Failure(reason) => Failed(RequestFailed(reason))
    case Success(messages) => ReplyOutcome(parse, urlOk, messages)
  }

  /** The service client; only its address and token matter here. */
  datatype LettaClient = LettaClient(baseUrl: string, token: string)

  class LettaAgent {
    var client: LettaClient
    var agentId: string
    var isInitialized: bool

    /** A new agent for a remote agent id: a client for the default address with an empty token, not initialized. */
    constructor(agentId: string)
      ensures client == LettaClient(BaseUrl, "") && this.agentId == agentId && !isInitialized
    {
      client := LettaClient(BaseUrl, "");
      this.agentId := agentId;
      isInitialized := false;
    }

    /** Both initialized and holding a non-empty agent id. */
    predicate IsReady()
      reads this
    {
      isInitialized && agentId != ""
    }

    /**
     * Replaces the client with one for `apiKey` (that happens first, whatever
     * follows) and marks the agent initialized, unless no agent id is set:
     * then the method returns the exception it would throw and the flag keeps
     * its old value.
     */
    method Initialize(apiKey: string) returns (err: Option<AgentError>)
      modifies this
      ensures client == LettaClient(BaseUrl, apiKey) && agentId == old(agentId)
      ensures old(agentId) == "" ==> err == Some(AgentIdNotSet) && isInitialized == old(isInitialized)
      ensures old(agentId) != "" ==> err.None? && isInitialized && IsReady()
    {
      client := LettaClient(BaseUrl, apiKey);
      if agentId == "" {
        return Some(AgentIdNotSet);
      }
      isInitialized := true;
      err := None;
    }

    /** Points the agent at another remote agent; nothing else changes (an empty id makes it not ready). */
    method SetAgentId(id: string)
      modifies this
      ensures agentId == id && client == old(client) && isInitialized == old(isInitialized)
      ensures IsReady() <==> old(isInitialized) && id != ""
    {
      agentId := id;
    }

    /** The current remote agent id. */
    method GetAgentId() returns (id: string)
      ensures id == agentId
    {
      id := agentId;
    }

    /**
     * One analysis of a page. `now` is the ISO timestamp of the call; `send`
     * stands for the service call on the agent id and the stamped message;
     * `parse` is `JSON.parse` and `urlOk` the URL constructor's acceptance
     * test. It throws exactly when the agent is not ready, and the agent's
     * state does not change.
     */
    method GetActions(dom: string, prompt: string, now: string,
                      send: (string, string) -> Result<seq<LettaMessage>, string>,
                      parse: string -> Option<Json>, urlOk: string -> bool) returns (c: Completion)
      ensures c.Threw? <==> !IsReady()
      ensures !isInitialized ==> c == Threw(NotInitialized)
      ensures isInitialized && agentId == "" ==> c == Threw(NoAgentId)
      ensures IsReady() ==>
        c == Returned(RequestOutcome(send(agentId, Stamped(now, MessageContentFor(prompt, dom))), parse, urlOk))
    {
      if !isInitialized {
        return Threw(NotInitialized);
      }
      if agentId == "" {
        return Threw(NoAgentId);
      }
      var content := MessageContentFor(prompt, dom);
      match send(agentId, Stamped(now, content))
      case Failure(reason) =>
        c := Returned(Failed(RequestFailed(reason)));
      case Success(messages) =>
        var text := SelectAssistantContent(messages);
        c := Returned(Interpret(NonEmptyArray, urlOk, parse, text, LettaCandidate(text)));
    }
  }

  /**
   * Every result is well shaped; it succeeds exactly when the request
   * succeeds, an assistant reply is found, it parses and the strict validator
   * accepts it; and then every action has a non-empty array of valid URLs as
   * its sources.
   */
  lemma OutcomeCharacterized(reply: Result<seq<LettaMessage>, string>, parse: string -> Option<Json>, urlOk: string -> bool)
    ensures WellShaped(RequestOutcome(reply, parse, urlOk))
    ensures RequestOutcome(reply, parse, urlOk).success <==>
      && reply.Success?
      && AssistantText(reply.value) != ""
      && parse(LettaCandidate(AssistantText(reply.value))).Some?
      && Validation.ValidateAgentActions(urlOk, parse(LettaCandidate(AssistantText(reply.value))).value).Success?
    ensures RequestOutcome(reply, parse, urlOk).success ==>
      RequestOutcome(reply, parse, urlOk).actions
      == Validation.ValidateAgentActions(urlOk, parse(LettaCandidate(AssistantText(reply.value))).value).value
  {
  }

  /** Every action of a successful result cites at least one source, each a valid URL. */
  lemma SucceededActionsAreSourced(reply: Result<seq<LettaMessage>, string>, parse: string -> Option<Json>,
                                   urlOk: string -> bool)
    requires RequestOutcome(reply, parse, urlOk).success
    ensures forall i :: 0 <= i < |RequestOutcome(reply, parse, urlOk).actions| ==>
      var src := RequestOutcome(reply, parse, urlOk).actions[i].sources;
      src.JArray? && |src.items| > 0 &&
      forall j :: 0 <= j < |src.items| ==> IsSourceUrl(urlOk, src.items[j])
  {
    var data := parse(LettaCandidate(AssistantText(reply.value))).value;
    var strict := Validation.ValidateAgentActions(urlOk, data);
    assert RequestOutcome(reply, parse, urlOk).actions == strict.value;
  }

  /** A reply without an assistant message that has content fails with "no response", whatever its other messages hold. */
  lemma NoAssistantReply(messages: seq<LettaMessage>, parse: string -> Option<Json>, urlOk: string -> bool)
    requires forall j :: 0 <= j < |messages| ==> !Selectable(messages[j])
    ensures RequestOutcome(Success(messages), parse, urlOk) == Failed(NoResponse)
  {
    NoSelectableMeansEmpty(messages);
  }

  /**
   * Without a fence the whole reply is parsed: unlike the Anthropic agent
   * there is no retry from the first `[`, so an array after some prose is a
   * parse failure unless the parser accepts the prose.
   */
  lemma UnfencedReplyParsedWhole(messages: seq<LettaMessage>, parse: string -> Option<Json>, urlOk: string -> bool)
    requires AssistantText(messages) != "" && FencedArray(AssistantText(messages)).None?
    requires parse(AssistantText(messages)).None?
    ensures RequestOutcome(Success(messages), parse, urlOk) == Failed(ParseFailed(AssistantText(messages)))
  {
  }

  /**
   * Round trip: actions the strict validator produced, rendered by the agent
   * as a `json` code block in its first assistant message and parsed back,
   * come out unchanged.
   */
  lemma {:induction false} FencedReplyRoundTrip(data: Json, text: string, messages: seq<LettaMessage>,
                                                parse: string -> Option<Json>, urlOk: string -> bool)
    requires Validation.ValidateAgentActions(urlOk, data).Success?
    requires parse(text) == Some(JArray(ToJsonAll(Validation.ValidateAgentActions(urlOk, data).value)))
    requires '`' !in text && |text| >= 2 && text[0] == '[' && text[|text| - 1] == ']'
    requires AssistantText(messages) == Fence + JsonTag + "\n" + text + "\n" + Fence
    ensures RequestOutcome(Success(messages), parse, urlOk)
            == Succeeded(Validation.ValidateAgentActions(urlOk, data).value)
  {
    ExtractionFacts.JsonBlockCapture(text);
    RevalidationIsIdentity(NonEmptyArray, urlOk, data);
  }
}
