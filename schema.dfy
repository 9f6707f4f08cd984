/** The constant data the validators read from the action schema. */
module Schema {

  /** The fields every action must carry, in the order they are checked. */
  const RequiredFields: seq<string> :=
    ["type", "targetElement", "content", "confidence", "severity", "explanation", "sources"]

  /** The closed enumeration allowed for the `type` field. */
  const ActionTypeValues: seq<string> := ["highlight", "underline", "add_note"]
}
