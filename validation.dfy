/**
 * The validator that turns an untrusted parsed JSON value into a list of
 * actions, or reports the first violation. Both copies of it in the system
 * (the standalone one and the agent's method) are instances of `Validate`;
 * they differ only in how they treat the `sources` field.
 */
module Validation {
  import opened Results
  import opened Json
  import opened Schema
  import opened Actions

  /** Why the validator rejects one element. */
  datatype ElementError =
      /** the element is a primitive or null, so the `in` operator throws */
    | NotAnObject
    | MissingField(field: string)
    | InvalidType(value: Json)
    | InvalidStringField(field: string)
    | InvalidNumberField(field: string)
      /** `sources` is not a non-empty array (strict copy only) */
    | InvalidSources
      /** `sources` is not iterable, so `for...of` throws (lenient copy only) */
    | SourcesNotIterable
    | InvalidSource
    | InvalidSourceUrl(source: string)

  /** Each reason the validator throws; an element's error names the element's index. */
  datatype ValidationError =
    | NotAnArray
    | AtElement(index: nat, reason: ElementError)

  /** How `sources` is gated before its entries are checked. */
  datatype SourcesPolicy =
      /** must be an array with at least one entry */
    | NonEmptyArray
      /** anything `for...of` can iterate: an array, or a string (by code point) */
    | AnyIterable

  /** The fields that must be non-blank strings, in checking order. */
  const StringFields: seq<string> := ["targetElement", "content", "explanation"]

  /** The fields that must be numbers in [0, 1], in checking order. */
  const NumberFields: seq<string> := ["confidence", "severity"]

  /** The index of the first element of `xs` that fails `ok`, if any. */
  function FirstFailing<T>(xs: seq<T>, ok: T -> bool): (r: Option<nat>)
    ensures r.Some? ==> r.value < |xs| && !ok(xs[r.value])
    ensures r.Some? ==> forall j :: 0 <= j < r.value ==> ok(xs[j])
    ensures r.None? ==> forall j :: 0 <= j < |xs| ==> ok(xs[j])
  {
    if xs == [] then None
    else if !ok(xs[0]) then Some(0)
    else match FirstFailing(xs[1..], ok)
      case None => None
      case Some(k) => Some(k + 1)
  }

  predicate IsNonBlankString(v: Json) {
    v.JString? && Trim(v.s) != []
  }

  predicate IsUnitNumber(v: Json) {
    v.JNumber? && 0.0 <= v.n <= 1.0
  }

  /** A source entry: a non-blank string that the URL parser accepts. */
  predicate IsSourceUrl(urlOk: string -> bool, v: Json) {
    IsNonBlankString(v) && urlOk(v.s)
  }

  /** The values of the named properties, in the order of `fields`. */
  function Values(m: map<string, Json>, fields: seq<string>): (vs: seq<Json>)
    requires forall f :: f in fields ==> f in m
    ensures |vs| == |fields|
    ensures forall i :: 0 <= i < |fields| ==> vs[i] == m[fields[i]]
  {
    seq(|fields|, i requires 0 <= i < |fields| => m[fields[i]])
  }

  /** What `for...of` visits in a `sources` value: an array's items, a string's code points. */
  function Iterated(v: Json): (r: Option<seq<Json>>)
    ensures r.Some? <==> v.JArray? || v.JString?
    ensures v.JArray? ==> r == Some(v.items)
    ensures v.JString? ==> |r.value| == |v.s| && forall i :: 0 <= i < |v.s| ==> r.value[i] == JString([v.s[i]])
  {
    match v
    case JArray(items) => Some(items)
    case JString(s) => Some(seq(|s|, i requires 0 <= i < |s| => JString([s[i]])))
    case _ => None
  }

  /** The entries of `sources` that get checked, or the error raised before any of them is. */
  function SourceEntries(policy: SourcesPolicy, v: Json): (r: Result<seq<Json>, ElementError>)
    ensures policy == NonEmptyArray ==>
      (r.Success? <==> v.JArray? && |v.items| > 0) && (r.Failure? ==> r.error == InvalidSources)
    ensures policy == AnyIterable ==>
      (r.Success? <==> Iterated(v).Some?) && (r.Failure? ==> r.error == SourcesNotIterable)
    ensures r.Success? ==> r.value == Iterated(v).value
  {
    match policy
    case NonEmptyArray =>
      if v.JArray? && |v.items| > 0 then Success(v.items) else Failure(InvalidSources)
    case AnyIterable =>
      match Iterated(v)
      case Some(entries) => Success(entries)
      case None => Failure(SourcesNotIterable)
  }

  /**
   * Entry `k` is the first of `entries` that is not a URL, and `e` is the
   * error it raises: blankness is checked before the URL, so an entry that
   * is not a non-blank string gives `InvalidSource`, and a non-blank string
   * the URL parser refuses gives `InvalidSourceUrl` naming it.
   */
  predicate FirstBadEntry(urlOk: string -> bool, entries: seq<Json>, k: int, e: ElementError) {
    && 0 <= k < |entries|
    && (forall j :: 0 <= j < k ==> IsSourceUrl(urlOk, entries[j]))
    && !IsSourceUrl(urlOk, entries[k])
    && (!IsNonBlankString(entries[k]) ==> e == InvalidSource)
    && (IsNonBlankString(entries[k]) ==> !urlOk(entries[k].s) && e == InvalidSourceUrl(entries[k].s))
  }

  /** Every required field is an own property of `m`. */
  predicate HasRequiredFields(m: map<string, Json>) {
    && "type" in m && "targetElement" in m && "content" in m && "confidence" in m
    && "severity" in m && "explanation" in m && "sources" in m
  }

  /** `a` holds exactly the values of the seven fields of `m`. */
  predicate Carries(m: map<string, Json>, a: Action)
    requires HasRequiredFields(m)
  {
    && m["type"] == JString(Name(a.kind))
    && m["targetElement"] == JString(a.targetElement)
    && m["content"] == JString(a.content)
    && m["explanation"] == JString(a.explanation)
    && m["confidence"] == JNumber(a.confidence)
    && m["severity"] == JNumber(a.severity)
    && m["sources"] == a.sources
  }

  /** The seven values determine the action. */
  lemma CarriesUnique(m: map<string, Json>, a: Action, b: Action)
    requires HasRequiredFields(m) && Carries(m, a) && Carries(m, b)
    ensures a == b
  {
    NameRoundTrip(a.kind, "");
    NameRoundTrip(b.kind, "");
  }

  /** The `sources` value passes the gate of `policy` and every entry is a URL. */
  predicate SourcesAcceptable(policy: SourcesPolicy, urlOk: string -> bool, v: Json) {
    match policy
    case NonEmptyArray =>
      v.JArray? && |v.items| > 0 && forall i :: 0 <= i < |v.items| ==> IsSourceUrl(urlOk, v.items[i])
    case AnyIterable =>
      || (v.JArray? && forall i :: 0 <= i < |v.items| ==> IsSourceUrl(urlOk, v.items[i]))
      || (v.JString? && forall i :: 0 <= i < |v.s| ==> IsSourceUrl(urlOk, JString([v.s[i]])))
  }

  /**
   * The acceptance condition for one element apart from `sources`, stated
   * without any checking order: an object with the seven fields, each of the
   * right kind.
   */
  predicate FieldsAcceptable(v: Json) {
    v.JObject? && MembersAcceptable(v.members)
  }

  /** The same condition on the properties of an object. */
  predicate MembersAcceptable(m: map<string, Json>) {
    && HasRequiredFields(m)
    && m["type"].JString? && m["type"].s in ActionTypeValues
    && IsNonBlankString(m["targetElement"])
    && IsNonBlankString(m["content"])
    && IsUnitNumber(m["confidence"])
    && IsUnitNumber(m["severity"])
    && IsNonBlankString(m["explanation"])
  }

  /** The acceptance condition for one element under `policy`. */
  predicate Acceptable(policy: SourcesPolicy, urlOk: string -> bool, v: Json) {
    FieldsAcceptable(v) && SourcesAcceptable(policy, urlOk, v.members["sources"])
  }

  /** `m` with every key other than the seven fields dropped. */
  function Restrict(m: map<string, Json>): (r: map<string, Json>)
    ensures forall f :: f in r <==> f in m && f in RequiredFields
    ensures forall f :: f in r ==> r[f] == m[f]
  {
    map f | f in m && f in RequiredFields :: m[f]
  }

  /** The seven schema fields are exactly the seven names `HasRequiredFields` lists. */
  lemma RequiredFieldNames(m: map<string, Json>)
    ensures HasRequiredFields(m) <==> forall j :: 0 <= j < |RequiredFields| ==> RequiredFields[j] in m
  {
    assert RequiredFields[0] == "type" && RequiredFields[1] == "targetElement";
    assert RequiredFields[2] == "content" && RequiredFields[3] == "confidence";
    assert RequiredFields[4] == "severity" && RequiredFields[5] == "explanation";
    assert RequiredFields[6] == "sources";
  }

  /** The required-field stage: the first schema field the element lacks. */
  function CheckPresence(m: map<string, Json>): (r: Option<ElementError>)
    ensures r.None? <==> HasRequiredFields(m)
    ensures r.Some? ==> exists k :: (
      && 0 <= k < |RequiredFields|
      && r.value == MissingField(RequiredFields[k])
      && RequiredFields[k] !in m
      && forall j :: 0 <= j < k ==> RequiredFields[j] in m)
  {
    RequiredFieldNames(m);
    match FirstFailing(RequiredFields, f => f in m)
    case Some(k) => Some(MissingField(RequiredFields[k]))
    case None => None
  }

  /** The enumeration stage for `type`. */
  function CheckType(t: Json): (r: Option<ElementError>)
    ensures r.None? <==> t.JString? && t.s in ActionTypeValues
    ensures r.Some? ==> r.value == InvalidType(t)
  {
    if t.JString? && ParseActionType(t.s).Some? then None else Some(InvalidType(t))
  }

  /** The string-field stage: `targetElement`, `content`, `explanation`, in that order. */
  function CheckStrings(m: map<string, Json>): (r: Option<ElementError>)
    requires HasRequiredFields(m)
    ensures r.None? <==>
      IsNonBlankString(m["targetElement"]) && IsNonBlankString(m["content"]) && IsNonBlankString(m["explanation"])
    ensures r == if !IsNonBlankString(m["targetElement"]) then Some(InvalidStringField("targetElement"))
                 else if !IsNonBlankString(m["content"]) then Some(InvalidStringField("content"))
                 else if !IsNonBlankString(m["explanation"]) then Some(InvalidStringField("explanation"))
                 else None
  {
    var vs := Values(m, StringFields);
    assert vs[0] == m["targetElement"] && vs[1] == m["content"] && vs[2] == m["explanation"];
    match FirstFailing(vs, IsNonBlankString)
    case Some(k) => Some(InvalidStringField(StringFields[k]))
    case None => None
  }

  /** The number-field stage: `confidence`, then `severity`. */
  function CheckNumbers(m: map<string, Json>): (r: Option<ElementError>)
    requires HasRequiredFields(m)
    ensures r.None? <==> IsUnitNumber(m["confidence"]) && IsUnitNumber(m["severity"])
    ensures r == if !IsUnitNumber(m["confidence"]) then Some(InvalidNumberField("confidence"))
                 else if !IsUnitNumber(m["severity"]) then Some(InvalidNumberField("severity"))
                 else None
  {
    var vs := Values(m, NumberFields);
    assert vs[0] == m["confidence"] && vs[1] == m["severity"];
    match FirstFailing(vs, IsUnitNumber)
    case Some(k) => Some(InvalidNumberField(NumberFields[k]))
    case None => None
  }

  /** Whether an error is raised by the `sources` stage. */
  predicate IsSourcesError(e: ElementError) {
    e.InvalidSources? || e.SourcesNotIterable? || e.InvalidSource? || e.InvalidSourceUrl?
  }

  /** Acceptable sources are those whose iterated entries are all URLs. */
  lemma SourcesAcceptableEntries(policy: SourcesPolicy, urlOk: string -> bool, v: Json)
    ensures SourcesAcceptable(policy, urlOk, v) <==>
      SourceEntries(policy, v).Success? &&
      forall i :: 0 <= i < |SourceEntries(policy, v).value| ==> IsSourceUrl(urlOk, SourceEntries(policy, v).value[i])
  {
    if v.JString? && policy == AnyIterable {
      var entries := SourceEntries(policy, v).value;
      assert forall i :: 0 <= i < |v.s| ==> entries[i] == JString([v.s[i]]);
    }
  }

  /** The `sources` stage: the gate of the policy, then every entry in order. */
  function CheckSources(policy: SourcesPolicy, urlOk: string -> bool, v: Json): (r: Option<ElementError>)
    ensures r.None? <==> SourcesAcceptable(policy, urlOk, v)
    ensures r.Some? ==> IsSourcesError(r.value)
    ensures SourceEntries(policy, v).Failure? ==> r == Some(SourceEntries(policy, v).error)
    ensures SourceEntries(policy, v).Success? && r.Some? ==>
      exists k :: FirstBadEntry(urlOk, SourceEntries(policy, v).value, k, r.value)
  {
    SourcesAcceptableEntries(policy, urlOk, v);
    match SourceEntries(policy, v)
    case Failure(e) => Some(e)
    case Success(entries) =>
      match FirstFailing(entries, e => IsSourceUrl(urlOk, e))
      case Some(k) =>
        var e := if IsNonBlankString(entries[k]) then InvalidSourceUrl(entries[k].s) else InvalidSource;
        assert FirstBadEntry(urlOk, entries, k, e);
        Some(e)
      case None => None
  }

  /** Membership in the schema's field list, spelled out. */
  lemma InRequiredFields(f: string)
    ensures f in RequiredFields <==>
      f == "type" || f == "targetElement" || f == "content" || f == "confidence" ||
      f == "severity" || f == "explanation" || f == "sources"
  {
  }

  /** The action built from an object that passed every stage. */
  function Normalize(m: map<string, Json>): (a: Action)
    requires MembersAcceptable(m)
    ensures Carries(m, a)
  {
    var a := Action(ParseActionType(m["type"].s).value, m["targetElement"].s, m["content"].s,
                    m["confidence"].n, m["severity"].n, m["explanation"].s, m["sources"]);
    NameRoundTrip(a.kind, m["type"].s);
    a
  }

  /** An error raised before the `sources` stage. */
  predicate StageError(e: ElementError) {
    e.NotAnObject? || e.MissingField? || e.InvalidType? || e.InvalidStringField? || e.InvalidNumberField?
  }

  /**
   * `type`, the string fields and the number fields, in that order, on an
   * object that has all seven: a bad `type` is reported first, a string
   * field's error only when `type` is valid, and a number field's error
   * only when `type` and the strings are.
   */
  function CheckValues(m: map<string, Json>): (r: Option<ElementError>)
    requires HasRequiredFields(m)
    ensures r.None? <==> MembersAcceptable(m)
    ensures r.Some? ==> r.value.InvalidType? || r.value.InvalidStringField? || r.value.InvalidNumberField?
    ensures CheckType(m["type"]).Some? ==> r == CheckType(m["type"])
    ensures r.Some? && r.value.InvalidType? ==> r == CheckType(m["type"])
    ensures r.Some? && r.value.InvalidStringField? ==> CheckType(m["type"]).None? && r == CheckStrings(m)
    ensures r.Some? && r.value.InvalidNumberField? ==>
      CheckType(m["type"]).None? && CheckStrings(m).None? && r == CheckNumbers(m)
  {
    match CheckType(m["type"])
    case Some(e) => Some(e)
    case None =>
      match CheckStrings(m)
      case Some(e) => Some(e)
      case None => CheckNumbers(m)
  }

  /**
   * The stages both copies of the validator run on an object's properties:
   * the required fields are looked up in schema order, then `type`, the
   * string fields and the number fields are checked; the first failure is
   * the error.
   */
  function CheckMembers(m: map<string, Json>): (r: Option<ElementError>)
    ensures r.None? <==> MembersAcceptable(m)
    ensures r.Some? ==> StageError(r.value)
    ensures (r.Some? && r.value.MissingField?) <==> !HasRequiredFields(m)
    ensures !HasRequiredFields(m) ==> r == CheckPresence(m)
    ensures HasRequiredFields(m) ==> r == CheckValues(m)
  {
    match CheckPresence(m)
    case Some(e) => Some(e)
    case None => CheckValues(m)
  }

  /**
   * The stages both copies of the validator share: the element must support
   * `in` (an array does, and has none of the seven keys), then its
   * properties go through `CheckMembers`.
   */
  function CheckFields(v: Json): (r: Result<map<string, Json>, ElementError>)
    ensures r.Success? <==> FieldsAcceptable(v)
    ensures r.Success? ==> r.value == v.members
    ensures r.Failure? ==> StageError(r.error)
    ensures !(v.JObject? || v.JArray?) ==> r == Failure(NotAnObject)
    ensures v.JArray? ==> r == Failure(MissingField("type"))
    ensures v.JObject? && r.Failure? ==> CheckMembers(v.members) == Some(r.error)
  {
    if !(v.JObject? || v.JArray?) then Failure(NotAnObject)
    else
      var m := if v.JObject? then v.members else map[];
      match CheckMembers(m)
      case Some(e) => Failure(e)
      case None => Success(m)
  }

  /**
   * The check one element goes through inside `map`: the shared stages, then
   * the `sources` gate of the policy and each entry; the first failure is the
   * error, and an element that passes becomes its seven fields.
   */
  function CheckAction(policy: SourcesPolicy, urlOk: string -> bool, v: Json): (r: Result<Action, ElementError>)
    ensures r.Success? <==> Acceptable(policy, urlOk, v)
    ensures r.Success? ==> Carries(v.members, r.value)
    ensures CheckFields(v).Failure? ==> r == Failure(CheckFields(v).error)
    ensures CheckFields(v).Success? && r.Failure? ==> CheckSources(policy, urlOk, v.members["sources"]) == Some(r.error)
  {
    match CheckFields(v)
    case Failure(e) => Failure(e)
    case Success(m) =>
      match CheckSources(policy, urlOk, m["sources"])
      case Some(e) => Failure(e)
      case None => Success(Normalize(m))
  }

  /**
   * `data.map(callback)` from index `i` on, with a callback that may throw:
   * elements are checked in index order and the first failure aborts the
   * whole map, so no partial list is returned; the error names the index of
   * the element that raised it.
   */
  function MapChecked(check: Json -> Result<Action, ElementError>, xs: seq<Json>, i: nat): (r: Result<seq<Action>, ValidationError>)
    requires i <= |xs|
    ensures r.Success? <==> forall j :: i <= j < |xs| ==> check(xs[j]).Success?
    ensures r.Success? ==> |r.value| == |xs| - i
    ensures r.Success? ==> forall j :: i <= j < |xs| ==> check(xs[j]) == Success(r.value[j - i])
    ensures r.Failure? ==>
      && r.error.AtElement? && i <= r.error.index < |xs|
      && check(xs[r.error.index]) == Failure(r.error.reason)
      && forall j :: i <= j < r.error.index ==> check(xs[j]).Success?
    decreases |xs| - i
  {
    if i == |xs| then Success([])
    else
      match check(xs[i])
      case Failure(e) => Failure(AtElement(i, e))
      case Success(a) =>
        match MapChecked(check, xs, i + 1)
        case Failure(e) => Failure(e)
        case Success(rest) => Success([a] + rest)
  }

  /**
   * The validator: a non-array is rejected outright; otherwise the result is
   * a fresh list with one action per element, or the error of the
   * lowest-index element that fails, as its first failing check reports it.
   */
  function Validate(policy: SourcesPolicy, urlOk: string -> bool, data: Json): (r: Result<seq<Action>, ValidationError>)
    ensures r == Failure(NotAnArray) <==> !data.JArray?
    ensures data.JArray? ==> (r.Success? <==> forall i :: 0 <= i < |data.items| ==> Acceptable(policy, urlOk, data.items[i]))
    ensures r.Success? ==> |r.value| == |data.items|
    ensures r.Success? ==> forall i :: 0 <= i < |r.value| ==> CheckAction(policy, urlOk, data.items[i]) == Success(r.value[i])
    ensures r.Failure? && data.JArray? ==>
      && r.error.AtElement? && r.error.index < |data.items|
      && CheckAction(policy, urlOk, data.items[r.error.index]) == Failure(r.error.reason)
      && forall j :: 0 <= j < r.error.index ==> Acceptable(policy, urlOk, data.items[j])
  {
    if data.JArray? then MapChecked(v => CheckAction(policy, urlOk, v), data.items, 0) else Failure(NotAnArray)
  }

  /** An accepted element's action carries the element's own `sources` value. */
  lemma CheckedSources(policy: SourcesPolicy, urlOk: string -> bool, v: Json)
    requires CheckAction(policy, urlOk, v).Success?
    ensures CheckAction(policy, urlOk, v).value.sources == v.members["sources"]
    ensures SourcesAcceptable(policy, urlOk, v.members["sources"])
  {
  }

  /** Under the strict policy every returned action has a non-empty array of URLs as `sources`. */
  lemma StrictSources(urlOk: string -> bool, data: Json)
    requires Validate(NonEmptyArray, urlOk, data).Success?
    ensures forall i :: 0 <= i < |Validate(NonEmptyArray, urlOk, data).value| ==>
      SourcesAcceptable(NonEmptyArray, urlOk, Validate(NonEmptyArray, urlOk, data).value[i].sources)
  {
    var acts := Validate(NonEmptyArray, urlOk, data).value;
    forall i | 0 <= i < |acts| ensures SourcesAcceptable(NonEmptyArray, urlOk, acts[i].sources) {
      CheckedSources(NonEmptyArray, urlOk, data.items[i]);
    }
  }

  /**
   * The standalone validator: `sources` must be a non-empty array, so every
   * action it returns carries at least one URL.
   */
  function ValidateAgentActions(urlOk: string -> bool, data: Json): (r: Result<seq<Action>, ValidationError>)
    ensures r.Success? ==> forall i :: 0 <= i < |r.value| ==>
      && r.value[i].sources.JArray?
      && |r.value[i].sources.items| > 0
      && forall k :: 0 <= k < |r.value[i].sources.items| ==> IsSourceUrl(urlOk, r.value[i].sources.items[k])
  {
    var r := Validate(NonEmptyArray, urlOk, data);
    if r.Success? then StrictSources(urlOk, data); r else r
  }

  /** The string stage reads only the three string fields. */
  lemma CheckStringsReadsFields(m: map<string, Json>, m': map<string, Json>)
    requires HasRequiredFields(m) && HasRequiredFields(m')
    requires m["targetElement"] == m'["targetElement"] && m["content"] == m'["content"]
    requires m["explanation"] == m'["explanation"]
    ensures CheckStrings(m) == CheckStrings(m')
  {
    assert Values(m', StringFields) == Values(m, StringFields);
  }

  /** The number stage reads only the two number fields. */
  lemma CheckNumbersReadsFields(m: map<string, Json>, m': map<string, Json>)
    requires HasRequiredFields(m) && HasRequiredFields(m')
    requires m["confidence"] == m'["confidence"] && m["severity"] == m'["severity"]
    ensures CheckNumbers(m) == CheckNumbers(m')
  {
    assert Values(m', NumberFields) == Values(m, NumberFields);
  }

  /** Two objects that agree on the seven fields. */
  predicate SameFields(m: map<string, Json>, m': map<string, Json>)
    requires HasRequiredFields(m) && HasRequiredFields(m')
  {
    && m["type"] == m'["type"] && m["targetElement"] == m'["targetElement"]
    && m["content"] == m'["content"] && m["explanation"] == m'["explanation"]
    && m["confidence"] == m'["confidence"] && m["severity"] == m'["severity"]
    && m["sources"] == m'["sources"]
  }

  /** Only the seven fields are read: two objects that agree on them are checked alike. */
  lemma SameFieldsSameCheck(policy: SourcesPolicy, urlOk: string -> bool, v: Json, w: Json)
    requires v.JObject? && w.JObject? && HasRequiredFields(v.members) && HasRequiredFields(w.members)
    requires SameFields(v.members, w.members)
    ensures CheckAction(policy, urlOk, v) == CheckAction(policy, urlOk, w)
  {
    SameFieldsSameStages(v, w);
    if CheckFields(v).Success? {
      SameFieldsSameAction(v.members, w.members);
    }
  }

  /** Objects that pass the shared stages and agree on the seven fields build the same action. */
  lemma SameFieldsSameAction(m: map<string, Json>, m': map<string, Json>)
    requires MembersAcceptable(m) && MembersAcceptable(m') && SameFields(m, m')
    ensures Normalize(m) == Normalize(m')
  {
    CarriesUnique(m, Normalize(m), Normalize(m'));
  }

  /** The shared stages fail alike, with the same error, on objects that agree on the seven fields. */
  lemma SameFieldsSameStages(v: Json, w: Json)
    requires v.JObject? && w.JObject? && HasRequiredFields(v.members) && HasRequiredFields(w.members)
    requires SameFields(v.members, w.members)
    ensures CheckFields(v).Success? == CheckFields(w).Success?
    ensures CheckFields(v).Failure? ==> CheckFields(v).error == CheckFields(w).error
  {
    var m, m' := v.members, w.members;
    assert CheckPresence(m) == CheckPresence(m') == None;
    CheckStringsReadsFields(m, m');
    CheckNumbersReadsFields(m, m');
  }

  /** Dropping the extra keys keeps the seven fields. */
  lemma RestrictSameFields(m: map<string, Json>)
    requires HasRequiredFields(m)
    ensures HasRequiredFields(Restrict(m)) && SameFields(Restrict(m), m)
  {
    var r := Restrict(m);
    InRequiredFields("type");
    InRequiredFields("targetElement");
    InRequiredFields("content");
    InRequiredFields("explanation");
    InRequiredFields("confidence");
    InRequiredFields("severity");
    InRequiredFields("sources");
  }

  /**
   * Only the seven fields are read: dropping every other key of an object
   * changes nothing, whether or not it has all seven.
   */
  lemma ExtraKeysIgnored(policy: SourcesPolicy, urlOk: string -> bool, v: Json)
    requires v.JObject?
    ensures CheckAction(policy, urlOk, JObject(Restrict(v.members))) == CheckAction(policy, urlOk, v)
  {
    var m, r := v.members, Restrict(v.members);
    if HasRequiredFields(m) {
      RestrictSameFields(m);
      SameFieldsSameCheck(policy, urlOk, JObject(r), v);
    } else {
      forall j | 0 <= j < |RequiredFields| ensures RequiredFields[j] in r <==> RequiredFields[j] in m {
        assert RequiredFields[j] in RequiredFields;
      }
      PresenceReadsFields(r, m);
    }
  }

  /** The required-field stage reads only which of the seven fields are present. */
  lemma PresenceReadsFields(m: map<string, Json>, m': map<string, Json>)
    requires forall j :: 0 <= j < |RequiredFields| ==> (RequiredFields[j] in m <==> RequiredFields[j] in m')
    ensures CheckPresence(m) == CheckPresence(m')
  {
    RequiredFieldNames(m);
    RequiredFieldNames(m');
    if CheckPresence(m).Some? {
      var k :| && 0 <= k < |RequiredFields| && CheckPresence(m).value == MissingField(RequiredFields[k])
               && RequiredFields[k] !in m && forall j :: 0 <= j < k ==> RequiredFields[j] in m;
      var k' :| && 0 <= k' < |RequiredFields| && CheckPresence(m').value == MissingField(RequiredFields[k'])
                && RequiredFields[k'] !in m' && forall j :: 0 <= j < k' ==> RequiredFields[j] in m';
      assert RequiredFields[k] !in m' && RequiredFields[k'] !in m;
      assert k == k';
    }
  }

  /** The JSON shape of an accepted element's action is accepted again, as the same action. */
  lemma RecheckAction(policy: SourcesPolicy, urlOk: string -> bool, v: Json)
    requires CheckAction(policy, urlOk, v).Success?
    ensures CheckAction(policy, urlOk, ToJson(CheckAction(policy, urlOk, v).value)) ==
            CheckAction(policy, urlOk, v)
  {
    var a := CheckAction(policy, urlOk, v).value;
    AcceptableFields(policy, urlOk, v, a);
    EncodedActionAccepted(policy, urlOk, a);
  }

  /**
   * Validation is idempotent: validating the returned actions again succeeds
   * and returns them unchanged.
   */
  lemma RevalidationIsIdentity(policy: SourcesPolicy, urlOk: string -> bool, data: Json)
    requires Validate(policy, urlOk, data).Success?
    ensures Validate(policy, urlOk, JArray(ToJsonAll(Validate(policy, urlOk, data).value))) ==
            Validate(policy, urlOk, data)
  {
    var acts := Validate(policy, urlOk, data).value;
    var ys := ToJsonAll(acts);
    forall i | 0 <= i < |ys| ensures CheckAction(policy, urlOk, ys[i]) == Success(acts[i]) {
      RecheckAction(policy, urlOk, data.items[i]);
    }
    var r := Validate(policy, urlOk, JArray(ys));
    assert r.Success?;
    assert r.value == acts;
  }

  /** The conditions on an action's strings and numbers, stated on the action itself. */
  predicate FieldsWellFormed(a: Action) {
    && Trim(a.targetElement) != []
    && Trim(a.content) != []
    && Trim(a.explanation) != []
    && 0.0 <= a.confidence <= 1.0
    && 0.0 <= a.severity <= 1.0
  }

  /** An action whose values would pass every check. */
  predicate WellFormed(policy: SourcesPolicy, urlOk: string -> bool, a: Action) {
    FieldsWellFormed(a) && SourcesAcceptable(policy, urlOk, a.sources)
  }

  /** An action's JSON form has the seven fields, holding the action's values. */
  lemma EncodedFields(a: Action)
    ensures HasRequiredFields(ToJson(a).members) && Carries(ToJson(a).members, a)
  {
  }

  /** An object holding an action's seven values passes the checks exactly when the action is well formed. */
  lemma AcceptableFields(policy: SourcesPolicy, urlOk: string -> bool, v: Json, a: Action)
    requires v.JObject? && HasRequiredFields(v.members) && Carries(v.members, a)
    ensures FieldsAcceptable(v) <==> FieldsWellFormed(a)
    ensures Acceptable(policy, urlOk, v) <==> WellFormed(policy, urlOk, a)
  {
  }

  /** The checks on the JSON form of an action are the conditions of `WellFormed`. */
  lemma EncodedAcceptable(policy: SourcesPolicy, urlOk: string -> bool, a: Action)
    ensures Acceptable(policy, urlOk, ToJson(a)) <==> WellFormed(policy, urlOk, a)
  {
    EncodedFields(a);
    AcceptableFields(policy, urlOk, ToJson(a), a);
  }

  /** The JSON form of an action is accepted exactly when the action is well formed, and then it comes back unchanged. */
  lemma EncodedActionAccepted(policy: SourcesPolicy, urlOk: string -> bool, a: Action)
    ensures CheckAction(policy, urlOk, ToJson(a)).Success? <==> WellFormed(policy, urlOk, a)
    ensures WellFormed(policy, urlOk, a) ==> CheckAction(policy, urlOk, ToJson(a)) == Success(a)
  {
    EncodedAcceptable(policy, urlOk, a);
    if WellFormed(policy, urlOk, a) {
      EncodedFields(a);
      CarriesUnique(ToJson(a).members, a, CheckAction(policy, urlOk, ToJson(a)).value);
    }
  }

  /** A list of actions, encoded, validates back to itself exactly when every action is well formed. */
  lemma {:induction false} EncodedActionsAccepted(policy: SourcesPolicy, urlOk: string -> bool, acts: seq<Action>)
    ensures Validate(policy, urlOk, JArray(ToJsonAll(acts))).Success? <==>
            forall i :: 0 <= i < |acts| ==> WellFormed(policy, urlOk, acts[i])
    ensures (forall i :: 0 <= i < |acts| ==> WellFormed(policy, urlOk, acts[i])) ==>
            Validate(policy, urlOk, JArray(ToJsonAll(acts))) == Success(acts)
  {
    var ys := ToJsonAll(acts);
    forall i | 0 <= i < |acts|
      ensures Acceptable(policy, urlOk, ys[i]) <==> WellFormed(policy, urlOk, acts[i])
      ensures WellFormed(policy, urlOk, acts[i]) ==> CheckAction(policy, urlOk, ys[i]) == Success(acts[i])
    {
      EncodedActionAccepted(policy, urlOk, acts[i]);
    }
    var r := Validate(policy, urlOk, JArray(ys));
    if r.Success? {
      assert r.value == acts;
    }
  }
}
