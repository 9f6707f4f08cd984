/**
 * What an agent's `getActions` hands back: a result record, or an exception
 * when a precondition of the call does not hold. Every failure after the
 * guards (the request, an empty reply, the JSON parse, validation) is caught
 * and reported inside a result with `success` false.
 */
module AgentResults {
  import opened Results
  import opened Json
  import opened Actions
  import opened Validation

  /** Why an agent call did not produce actions. */
  datatype AgentError =
    | MissingApiKey
    | AgentIdNotSet
    | NotInitialized
    | NoAgentId
    | RequestFailed(reason: string)
    | NoResponse
    | ParseFailed(candidate: string)
    | InvalidActions(cause: ValidationError)

  /** The `AgentResult` record: `errors` is present only on failure. */
  datatype AgentResult = AgentResult(success: bool, actions: seq<Action>, errors: Option<seq<AgentError>>)

  /** How a call ends: with a result, or by throwing before any work was done. */
  datatype Completion = Returned(result: AgentResult) | Threw(error: AgentError)

  function Succeeded(acts: seq<Action>): AgentResult {
    AgentResult(true, acts, None)
  }

  function Failed(e: AgentError): AgentResult {
    AgentResult(false, [], Some([e]))
  }

  /** A success carries no errors; a failure carries no actions and exactly one error. */
  predicate WellShaped(r: AgentResult) {
    && (r.success ==> r.errors.None?)
    && (!r.success ==> r.actions == [] && r.errors.Some? && |r.errors.value| == 1)
  }

  /**
   * The tail of `getActions` once the reply text is known: an empty reply is
   * an error; otherwise the extracted candidate is parsed (a parse failure is
   * final, nothing else is tried) and the parsed value is validated.
   */
  function Interpret(policy: SourcesPolicy, urlOk: string -> bool, parse: string -> Option<Json>,
                     reply: string, candidate: string): (r: AgentResult)
    ensures WellShaped(r)
    ensures reply == "" ==> r == Failed(NoResponse)
    ensures reply != "" && parse(candidate).None? ==> r == Failed(ParseFailed(candidate))
    ensures r.success <==>
      reply != "" && parse(candidate).Some? && Validate(policy, urlOk, parse(candidate).value).Success?
    ensures r.success ==> r.actions == Validate(policy, urlOk, parse(candidate).value).value
    ensures reply != "" && parse(candidate).Some? && Validate(policy, urlOk, parse(candidate).value).Failure? ==>
      r == Failed(InvalidActions(Validate(policy, urlOk, parse(candidate).value).error))
  {
    if reply == "" then Failed(NoResponse)
    else match parse(candidate)
      case None => Failed(ParseFailed(candidate))
      case Some(data) =>
        match Validate(policy, urlOk, data)
        case Success(acts) => Succeeded(acts)
        case Failure(e) => Failed(InvalidActions(e))
  }

  /**
   * The actions of a successful result are exactly what validation keeps:
   * re-encoding them and validating again gives the same actions back.
   */
  lemma {:induction false} SucceededActionsRevalidate(policy: SourcesPolicy, urlOk: string -> bool,
                                                      parse: string -> Option<Json>, reply: string, candidate: string)
    requires Interpret(policy, urlOk, parse, reply, candidate).success
    ensures Validate(policy, urlOk, JArray(ToJsonAll(Interpret(policy, urlOk, parse, reply, candidate).actions)))
            == Success(Interpret(policy, urlOk, parse, reply, candidate).actions)
  {
    RevalidationIsIdentity(policy, urlOk, parse(candidate).value);
  }
}
