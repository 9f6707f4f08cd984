/** The validated annotation action and its JSON shape. */
module Actions {
  import opened Results
  import opened Json
  import opened Schema

  /** Visual treatment of an annotation. */
  datatype ActionType = Highlight | Underline | AddNote

  /** The wire name of an action type. */
  function Name(k: ActionType): (s: string)
    ensures s in ActionTypeValues
  {
    match k
    case Highlight => "highlight"
    case Underline => "underline"
    case AddNote => "add_note"
  }

  /** The action type a wire name denotes, if it is one of the enumeration. */
  function ParseActionType(s: string): (r: Option<ActionType>)
    ensures r.Some? <==> s in ActionTypeValues
  {
    if s == "highlight" then Some(Highlight)
    else if s == "underline" then Some(Underline)
    else if s == "add_note" then Some(AddNote)
    else None
  }

  /** Wire names and action types are in one-to-one correspondence. */
  lemma NameRoundTrip(k: ActionType, s: string)
    ensures ParseActionType(Name(k)) == Some(k)
    ensures ParseActionType(s) == Some(k) ==> Name(k) == s
  {
  }

  /**
   * A validated action with its seven fields. `sources` is the JSON value
   * the input carried, passed on unchanged.
   */
  datatype Action = Action(
    kind: ActionType,
    targetElement: string,
    content: string,
    confidence: real,
    severity: real,
    explanation: string,
    sources: Json)

  /** The object the validator returns for an action, as a JSON value. */
  function ToJson(a: Action): (j: Json)
    ensures j.JObject?
    ensures forall f :: f in j.members <==> f in RequiredFields
  {
    JObject(map[
      "type" := JString(Name(a.kind)),
      "targetElement" := JString(a.targetElement),
      "content" := JString(a.content),
      "confidence" := JNumber(a.confidence),
      "severity" := JNumber(a.severity),
      "explanation" := JString(a.explanation),
      "sources" := a.sources])
  }

  /** Each field of the JSON shape holds the corresponding field of the action. */
  lemma ToJsonFields(a: Action)
    ensures ToJson(a).members["type"] == JString(Name(a.kind))
    ensures ToJson(a).members["targetElement"] == JString(a.targetElement)
    ensures ToJson(a).members["content"] == JString(a.content)
    ensures ToJson(a).members["confidence"] == JNumber(a.confidence)
    ensures ToJson(a).members["severity"] == JNumber(a.severity)
    ensures ToJson(a).members["explanation"] == JString(a.explanation)
    ensures ToJson(a).members["sources"] == a.sources
  {
  }

  /** An action is determined by its JSON shape. */
  lemma ToJsonInjective(a: Action, b: Action)
    requires ToJson(a) == ToJson(b)
    ensures a == b
  {
    ToJsonFields(a);
    ToJsonFields(b);
    NameRoundTrip(a.kind, Name(b.kind));
  }

  /** The JSON shapes of a list of actions, element by element. */
  function ToJsonAll(acts: seq<Action>): (js: seq<Json>)
    ensures |js| == |acts|
    ensures forall i :: 0 <= i < |acts| ==> js[i] == ToJson(acts[i])
  {
    seq(|acts|, i requires 0 <= i < |acts| => ToJson(acts[i]))
  }
}
