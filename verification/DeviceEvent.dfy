/** The device-event contract: `parse_device_event` and the JSON it reads
    (flyto_robotics/device_events.py).

    Regular expressions for identifiers and codes are written out; the timestamp
    calendar, the secret patterns, the bounded `details` walk and the content
    hash are functions handed in. */
module DeviceEvent {
  import opened Wrappers
  import opened Text

  const DEVICE_EVENT_CONTRACT := "flyto.device-event.v1"
  const REDACTION_POLICY := "flyto.device-event.redaction.v1"
  const SEQUENCE_LIMIT := 9007199254740992
  const MESSAGE_LIMIT := 200
  const ACTION_CODE_LIMIT := 16
  const EVENT_BYTE_LIMIT := 16384
  const SEVERITIES := {"info", "notice", "warning", "error", "critical"}
  const STATUSES := {"started", "running", "succeeded", "failed", "refused", "degraded", "unavailable", "unknown"}
  const REQUIRED := {Contract, EventId, ResourceId, Component, Sequence, ObservedAtKey, Severity,
                     Status, ReasonCode}
  const OPTIONAL := {ActionCodesKey, CorrelationId, RunId, Message, DetailsKey, Redaction, EventHash}
  const REDACTION_FIELDS := {Policy, FreeText, RawLogsIncluded, CredentialsIncluded,
                             PersonalDataIncluded, RedactedKeyCount}

  /** The object keys this contract and the journal use; any other key by its text. */
  datatype Key =
    | Contract | EventId | ResourceId | Component | Sequence | ObservedAtKey | Severity | Status | ReasonCode
    | ActionCodesKey | CorrelationId | RunId | Message | DetailsKey | Redaction | EventHash
    | Policy | FreeText | RawLogsIncluded | CredentialsIncluded | PersonalDataIncluded | RedactedKeyCount
    | JournalSequence | EventKey | Journal | JournalId
    | Other(name: OtherName)

  /** The texts of the keys that have a name of their own, in that order. */
  const KEY_TEXTS := ["contract", "event_id", "resource_id", "component", "sequence", "observed_at", "severity", "status",
                      "reason_code", "action_codes", "correlation_id", "run_id", "message", "details", "redaction",
                      "event_hash", "policy", "free_text", "raw_logs_included", "credentials_included",
                      "personal_data_included", "redacted_key_count", "journal_sequence", "event", "journal",
                      "journal_id"]

  type OtherName = s: string | s !in KEY_TEXTS witness OtherWitness()

  function OtherWitness(): (s: string)
    ensures s !in KEY_TEXTS
  {
    ""
  }

  predicate IsNumberCharacter(c: char) {
    '0' <= c <= '9' || c == '+' || c == '-' || c == '.' || c == 'e'
  }

  /** How a finite float is printed: the shortest text that reads back, which
      always has a point or an exponent. */
  type FloatText = s: string |
    && 1 <= |s| && (s[0] == '-' || '0' <= s[0] <= '9')
    && (forall i :: 0 <= i < |s| ==> IsNumberCharacter(s[i]))
    && (exists i :: 0 <= i < |s| && (s[i] == '.' || s[i] == 'e'))
    witness ZeroText()

  function ZeroText(): (s: string)
    ensures 1 <= |s| && (s[0] == '-' || '0' <= s[0] <= '9')
    ensures forall i :: 0 <= i < |s| ==> IsNumberCharacter(s[i])
    ensures exists i :: 0 <= i < |s| && (s[i] == '.' || s[i] == 'e')
  {
    assert "0.0"[1] == '.';
    "0.0"
  }

  datatype Json =
    | Null
    | Bool(b: bool)
    | Int(n: int)
    | Float(text: FloatText)
    | Str(s: string)
    | List(items: seq<Json>)
    | Object(fields: map<Key, Json>)

  /** Everything an event says but its hash. */
  datatype Body = Body(eventId: string, resourceId: string, component: string, sequence: int, observedAt: string,
                       severity: string, status: string, reasonCode: string, actionCodes: seq<string>,
                       correlationId: string, runId: string, message: string, details: Json)

  datatype Event = Event(body: Body, eventHash: string)

  /** The field refused, or why the event as a whole is. */
  datatype ContractError =
    | ContractError(field: Key)
    | NotAnObject | MissingFields | UnknownFields | TooManyBytes

  /** What the contract takes as given: the calendar check, the secret patterns,
      the bounds on `details`, the content hash and the encoded size. */
  datatype Checks = Checks(timestamp: string -> bool, secret: string -> bool, details: Json -> bool,
                           hash: Body -> string, size: Json -> nat)

  predicate IsAlphanumeric(c: char) {
    'a' <= c <= 'z' || 'A' <= c <= 'Z' || '0' <= c <= '9'
  }

  /** `^[A-Za-z0-9][A-Za-z0-9._:@/-]{0,127}$` */
  predicate IsIdentifier(s: string) {
    && 1 <= |s| <= 128 && IsAlphanumeric(s[0])
    && forall i :: 1 <= i < |s| ==> IsAlphanumeric(s[i]) || s[i] in "._:@/-"
  }

  /** `^[a-z][a-z0-9_]{0,63}$` */
  predicate IsCode(s: string) {
    && 1 <= |s| <= 64 && 'a' <= s[0] <= 'z'
    && forall i :: 1 <= i < |s| ==> 'a' <= s[i] <= 'z' || '0' <= s[i] <= '9' || s[i] == '_'
  }

  predicate IsControl(c: char) {
    c < ' ' || c == 0x7F as char
  }

  function Identifier(value: Json, field: Key, allowEmpty: bool): Result<string, ContractError> {
    if !value.Str? then Err(ContractError(field))
    else
      var normalized := Strip(value.s);
      if normalized == "" then (if allowEmpty then Ok("") else Err(ContractError(field)))
      else if IsIdentifier(normalized) then Ok(normalized)
      else Err(ContractError(field))
  }

  function Code(value: Json, field: Key): Result<string, ContractError> {
    if value.Str? && IsCode(Strip(value.s)) then Ok(Strip(value.s)) else Err(ContractError(field))
  }

  function Integer(value: Json, field: Key, minimum: int, maximum: int): Result<int, ContractError> {
    if value.Int? && minimum <= value.n <= maximum then Ok(value.n) else Err(ContractError(field))
  }

  function Choice(value: Json, field: Key, choices: set<string>): Result<string, ContractError> {
    if value.Str? && value.s in choices then Ok(value.s) else Err(ContractError(field))
  }

  function ObservedAt(c: Checks, value: Json): Result<string, ContractError> {
    if !value.Str? then Err(ContractError(ObservedAtKey))
    else
      var normalized := Strip(value.s);
      if |normalized| <= 64 && c.timestamp(normalized) then Ok(normalized) else Err(ContractError(ObservedAtKey))
  }

  function PublicMessage(c: Checks, value: Json): Result<string, ContractError> {
    if value.Null? then Ok("")
    else if !value.Str? || (exists i :: 0 <= i < |value.s| && IsControl(value.s[i])) then Err(ContractError(Message))
    else
      var normalized := Collapse(value.s);
      if |normalized| <= MESSAGE_LIMIT && !c.secret(normalized) then Ok(normalized) else Err(ContractError(Message))
  }

  function Codes(items: seq<Json>): Result<seq<string>, ContractError> {
    if items == [] then Ok([])
    else
      var first :- Code(items[0], ActionCodesKey);
      var rest :- Codes(items[1..]);
      Ok([first] + rest)
  }

  /** `list(dict.fromkeys(codes))`: the first occurrence of each, in order. */
  function Distinct(codes: seq<string>): seq<string> {
    if codes == [] then []
    else
      var front := Distinct(codes[..|codes| - 1]);
      if codes[|codes| - 1] in front then front else front + [codes[|codes| - 1]]
  }

  function ActionCodes(value: Json): Result<seq<string>, ContractError> {
    if !value.List? || |value.items| > ACTION_CODE_LIMIT then Err(ContractError(ActionCodesKey))
    else
      var codes :- Codes(value.items);
      Ok(Distinct(codes))
  }

  function Details(c: Checks, value: Json): Result<Json, ContractError> {
    if value.Object? && c.details(value) then Ok(value) else Err(ContractError(DetailsKey))
  }

  function Field(fields: map<Key, Json>, name: Key, default: Json): Json {
    if name in fields then fields[name] else default
  }

  /** What a supplied redaction block must say for an event with this message. */
  predicate RedactionAgrees(value: Json, hasMessage: bool) {
    var supplied := if value.Object? then value.fields else map[];
    && (value.Null? || value.Object?)
    && supplied.Keys <= REDACTION_FIELDS
    && Field(supplied, Policy, Str(REDACTION_POLICY)) == Str(REDACTION_POLICY)
    && Field(supplied, RawLogsIncluded, Bool(false)) == Bool(false)
    && Field(supplied, CredentialsIncluded, Bool(false)) == Bool(false)
    && Field(supplied, PersonalDataIncluded, Bool(false)) == Bool(false)
    && (var declared := Field(supplied, FreeText, Null); declared.Null? || declared == Bool(hasMessage))
    && Field(supplied, RedactedKeyCount, Int(0)) == Int(0)
  }

  function RedactionJson(hasMessage: bool): Json {
    Object(map[Policy := Str(REDACTION_POLICY), FreeText := Bool(hasMessage), RawLogsIncluded := Bool(false),
               CredentialsIncluded := Bool(false), PersonalDataIncluded := Bool(false),
               RedactedKeyCount := Int(0)])
  }

  function StrList(codes: seq<string>): Json {
    List(seq(|codes|, i requires 0 <= i < |codes| => Str(codes[i])))
  }

  function RequiredFields(b: Body): map<Key, Json> {
    map[Contract := Str(DEVICE_EVENT_CONTRACT), EventId := Str(b.eventId), ResourceId := Str(b.resourceId),
        Component := Str(b.component), Sequence := Int(b.sequence), ObservedAtKey := Str(b.observedAt),
        Severity := Str(b.severity), Status := Str(b.status), ReasonCode := Str(b.reasonCode)]
  }

  function OptionalFields(e: Event): map<Key, Json> {
    map[ActionCodesKey := StrList(e.body.actionCodes), CorrelationId := Str(e.body.correlationId),
        RunId := Str(e.body.runId), Message := Str(e.body.message), DetailsKey := e.body.details,
        Redaction := RedactionJson(e.body.message != ""), EventHash := Str(e.eventHash)]
  }

  /** The normalized event as the JSON object that is stored. */
  function EventJson(e: Event): Json {
    Object(RequiredFields(e.body) + OptionalFields(e))
  }

  function ParseBody(c: Checks, f: map<Key, Json>): Result<Body, ContractError>
    requires REQUIRED <= f.Keys
  {
    var message :- PublicMessage(c, Field(f, Message, Str("")));
    var eventId :- Identifier(f[EventId], EventId, false);
    var resourceId :- Identifier(f[ResourceId], ResourceId, false);
    var component :- Code(f[Component], Component);
    var sequence :- Integer(f[Sequence], Sequence, 0, SEQUENCE_LIMIT);
    var observedAt :- ObservedAt(c, f[ObservedAtKey]);
    var severity :- Choice(f[Severity], Severity, SEVERITIES);
    var status :- Choice(f[Status], Status, STATUSES);
    var reasonCode :- Code(f[ReasonCode], ReasonCode);
    var actionCodes :- ActionCodes(Field(f, ActionCodesKey, List([])));
    var correlationId :- Identifier(Field(f, CorrelationId, Str("")), CorrelationId, true);
    var runId :- Identifier(Field(f, RunId, Str("")), RunId, true);
    var details :- Details(c, Field(f, DetailsKey, Object(map[])));
    if RedactionAgrees(Field(f, Redaction, Null), message != "")
    then Ok(Body(eventId, resourceId, component, sequence, observedAt, severity, status, reasonCode, actionCodes,
                 correlationId, runId, message, details))
    else Err(ContractError(Redaction))
  }

  /** The whole contract on one value: shape, fields in order, then hash and size. */
  function ParseEvent(c: Checks, raw: Json): Result<Event, ContractError> {
    if !raw.Object? then Err(NotAnObject)
    else if !(REQUIRED <= raw.fields.Keys) then Err(MissingFields)
    else if !(raw.fields.Keys <= REQUIRED + OPTIONAL) then Err(UnknownFields)
    else if raw.fields[Contract] != Str(DEVICE_EVENT_CONTRACT) then Err(ContractError(Contract))
    else
      var body :- ParseBody(c, raw.fields);
      BindHash(c, body, Field(raw.fields, EventHash, Null))
  }

  function BindHash(c: Checks, body: Body, supplied: Json): Result<Event, ContractError> {
    var expected := c.hash(body);
    if !supplied.Null? && supplied != Str("") && supplied != Str(expected) then Err(ContractError(EventHash))
    else if c.size(EventJson(Event(body, expected))) > EVENT_BYTE_LIMIT then Err(TooManyBytes)
    else Ok(Event(body, expected))
  }

  // ---------------------------------------------------------------------------
  // Parsing is idempotent: what was stored is read back as itself
  // ---------------------------------------------------------------------------

  lemma IdentifierIdempotent(value: Json, field: Key, allowEmpty: bool)
    requires Identifier(value, field, allowEmpty).Ok?
    ensures Identifier(Str(Identifier(value, field, allowEmpty).value), field, allowEmpty)
            == Identifier(value, field, allowEmpty)
  {
    StripIdempotent(value.s);
  }

  lemma CodeIdempotent(value: Json, field: Key)
    requires Code(value, field).Ok?
    ensures Code(Str(Code(value, field).value), field) == Code(value, field)
  {
    StripIdempotent(value.s);
  }

  /** An absent message reads back as the empty one, which no secret pattern
      matches. */
  lemma MessageIdempotent(c: Checks, value: Json)
    requires !c.secret("") && PublicMessage(c, value).Ok?
    ensures PublicMessage(c, Str(PublicMessage(c, value).value)) == PublicMessage(c, value)
  {
    if value.Str? {
      CollapseIdempotent(value.s);
      CollapseKeepsCharacters(value.s, ch => !IsControl(ch));
      assert forall i :: 0 <= i < |Collapse(value.s)| ==> Collapse(value.s)[i] in Collapse(value.s);
    } else {
      assert Collapse("") == "";
    }
  }

  lemma {:induction false} DistinctFixed(codes: seq<string>)
    requires forall i, j :: 0 <= i < j < |codes| ==> codes[i] != codes[j]
    ensures Distinct(codes) == codes
  {
    if codes != [] {
      DistinctFixed(codes[..|codes| - 1]);
    }
  }

  lemma {:induction false} DistinctIsDistinct(codes: seq<string>)
    ensures var d := Distinct(codes);
            && |d| <= |codes|
            && (forall i, j :: 0 <= i < j < |d| ==> d[i] != d[j])
            && (forall code :: code in d <==> code in codes)
  {
    if codes != [] {
      DistinctIsDistinct(codes[..|codes| - 1]);
      assert codes == codes[..|codes| - 1] + [codes[|codes| - 1]];
    }
  }

  /** Later codes only add to what earlier ones gave: each is kept where it first stands. */
  lemma {:induction false} DistinctKeepsFirst(codes: seq<string>, more: seq<string>)
    ensures var first, all := Distinct(codes), Distinct(codes + more); |first| <= |all| && all[..|first|] == first
  {
    if more == [] {
      assert codes + more == codes;
    } else {
      var shorter := more[..|more| - 1];
      DistinctKeepsFirst(codes, shorter);
      assert (codes + more)[..|codes + more| - 1] == codes + shorter;
    }
  }

  predicate IsNormalCode(s: string) {
    IsCode(s) && Strip(s) == s
  }

  lemma {:induction false} CodesAreNormal(items: seq<Json>)
    requires Codes(items).Ok?
    ensures |Codes(items).value| == |items|
    ensures forall code :: code in Codes(items).value ==> IsNormalCode(code)
  {
    if items != [] {
      StripIdempotent(items[0].s);
      CodesAreNormal(items[1..]);
    }
  }

  lemma {:induction false} CodesOfNormal(codes: seq<string>)
    requires forall code :: code in codes ==> IsNormalCode(code)
    ensures Codes(StrList(codes).items) == Ok(codes)
  {
    if codes != [] {
      assert codes[0] in codes;
      assert StrList(codes).items[1..] == StrList(codes[1..]).items;
      CodesOfNormal(codes[1..]);
      assert codes == [codes[0]] + codes[1..];
    }
  }

  lemma ActionCodesIdempotent(value: Json)
    requires ActionCodes(value).Ok?
    ensures ActionCodes(StrList(ActionCodes(value).value)) == ActionCodes(value)
  {
    var codes := Codes(value.items).value;
    CodesAreNormal(value.items);
    DistinctIsDistinct(codes);
    CodesOfNormal(Distinct(codes));
    DistinctFixed(Distinct(codes));
  }

  /** Each normalized value parses to itself. */
  ghost predicate IsNormal(c: Checks, b: Body) {
    && PublicMessage(c, Str(b.message)) == Ok(b.message)
    && Identifier(Str(b.eventId), EventId, false) == Ok(b.eventId)
    && Identifier(Str(b.resourceId), ResourceId, false) == Ok(b.resourceId)
    && Code(Str(b.component), Component) == Ok(b.component)
    && Integer(Int(b.sequence), Sequence, 0, SEQUENCE_LIMIT) == Ok(b.sequence)
    && ObservedAt(c, Str(b.observedAt)) == Ok(b.observedAt)
    && Choice(Str(b.severity), Severity, SEVERITIES) == Ok(b.severity)
    && Choice(Str(b.status), Status, STATUSES) == Ok(b.status)
    && Code(Str(b.reasonCode), ReasonCode) == Ok(b.reasonCode)
    && ActionCodes(StrList(b.actionCodes)) == Ok(b.actionCodes)
    && Identifier(Str(b.correlationId), CorrelationId, true) == Ok(b.correlationId)
    && Identifier(Str(b.runId), RunId, true) == Ok(b.runId)
    && Details(c, b.details) == Ok(b.details)
  }

  /** Each part of a parsed body came from its own field. */
  lemma ParsedParts(c: Checks, f: map<Key, Json>)
    requires REQUIRED <= f.Keys && ParseBody(c, f).Ok?
    ensures var b := ParseBody(c, f).value;
            && PublicMessage(c, Field(f, Message, Str(""))) == Ok(b.message)
            && Identifier(f[EventId], EventId, false) == Ok(b.eventId)
            && Identifier(f[ResourceId], ResourceId, false) == Ok(b.resourceId)
            && Code(f[Component], Component) == Ok(b.component)
            && Integer(f[Sequence], Sequence, 0, SEQUENCE_LIMIT) == Ok(b.sequence)
            && ObservedAt(c, f[ObservedAtKey]) == Ok(b.observedAt)
            && Choice(f[Severity], Severity, SEVERITIES) == Ok(b.severity)
            && Choice(f[Status], Status, STATUSES) == Ok(b.status)
            && Code(f[ReasonCode], ReasonCode) == Ok(b.reasonCode)
            && ActionCodes(Field(f, ActionCodesKey, List([]))) == Ok(b.actionCodes)
            && Identifier(Field(f, CorrelationId, Str("")), CorrelationId, true) == Ok(b.correlationId)
            && Identifier(Field(f, RunId, Str("")), RunId, true) == Ok(b.runId)
            && Details(c, Field(f, DetailsKey, Object(map[]))) == Ok(b.details)
  {
    hide PublicMessage, Identifier, Code, Integer, ObservedAt, Choice, ActionCodes, Details, RedactionAgrees;
  }

  lemma ObservedAtIdempotent(c: Checks, value: Json)
    requires ObservedAt(c, value).Ok?
    ensures ObservedAt(c, Str(ObservedAt(c, value).value)) == ObservedAt(c, value)
  {
    StripIdempotent(value.s);
  }

  lemma ParsedBodyIsNormal(c: Checks, f: map<Key, Json>)
    requires !c.secret("") && REQUIRED <= f.Keys && ParseBody(c, f).Ok?
    ensures IsNormal(c, ParseBody(c, f).value)
  {
    ParsedParts(c, f);
    MessageIdempotent(c, Field(f, Message, Str("")));
    IdentifierIdempotent(f[EventId], EventId, false);
    IdentifierIdempotent(f[ResourceId], ResourceId, false);
    CodeIdempotent(f[Component], Component);
    ObservedAtIdempotent(c, f[ObservedAtKey]);
    CodeIdempotent(f[ReasonCode], ReasonCode);
    ActionCodesIdempotent(Field(f, ActionCodesKey, List([])));
    IdentifierIdempotent(Field(f, CorrelationId, Str("")), CorrelationId, true);
    IdentifierIdempotent(Field(f, RunId, Str("")), RunId, true);
  }

  lemma RedactionReadsBack(hasMessage: bool)
    ensures RedactionAgrees(RedactionJson(hasMessage), hasMessage)
  {
  }

  ghost predicate StoresRequired(f: map<Key, Json>, b: Body)
    requires REQUIRED <= f.Keys
  {
    && f[Contract] == Str(DEVICE_EVENT_CONTRACT) && f[EventId] == Str(b.eventId)
    && f[ResourceId] == Str(b.resourceId) && f[Component] == Str(b.component)
    && f[Sequence] == Int(b.sequence) && f[ObservedAtKey] == Str(b.observedAt)
    && f[Severity] == Str(b.severity) && f[Status] == Str(b.status) && f[ReasonCode] == Str(b.reasonCode)
  }

  ghost predicate StoresOptional(f: map<Key, Json>, e: Event)
    requires OPTIONAL <= f.Keys
  {
    && f[ActionCodesKey] == StrList(e.body.actionCodes) && f[CorrelationId] == Str(e.body.correlationId)
    && f[RunId] == Str(e.body.runId) && f[Message] == Str(e.body.message) && f[DetailsKey] == e.body.details
    && f[Redaction] == RedactionJson(e.body.message != "") && f[EventHash] == Str(e.eventHash)
  }

  /** `f` holds what the stored form of `e` holds. */
  ghost predicate Stores(f: map<Key, Json>, e: Event) {
    f.Keys == REQUIRED + OPTIONAL && StoresRequired(f, e.body) && StoresOptional(f, e)
  }

  lemma RequiredAreStored(b: Body)
    ensures RequiredFields(b).Keys == REQUIRED && StoresRequired(RequiredFields(b), b)
  {
  }

  lemma OptionalAreStored(e: Event)
    ensures OptionalFields(e).Keys == OPTIONAL && StoresOptional(OptionalFields(e), e)
  {
  }

  lemma UnionStores(r: map<Key, Json>, o: map<Key, Json>, e: Event)
    requires r.Keys == REQUIRED && StoresRequired(r, e.body)
    requires o.Keys == OPTIONAL && StoresOptional(o, e)
    ensures Stores(r + o, e)
  {
    hide StoresRequired, StoresOptional;
    UnionStoresRequired(r, o, e.body);
    UnionStoresOptional(r, o, e);
  }

  lemma KeysDiffer()
    ensures REQUIRED !! OPTIONAL
  {
  }

  lemma UnionKeeps(r: map<Key, Json>, o: map<Key, Json>)
    requires r.Keys !! o.Keys
    ensures (r + o).Keys == r.Keys + o.Keys && forall k :: k in r ==> (r + o)[k] == r[k]
  {
  }

  lemma UnionStoresRequired(r: map<Key, Json>, o: map<Key, Json>, b: Body)
    requires r.Keys == REQUIRED && StoresRequired(r, b) && o.Keys == OPTIONAL
    ensures (r + o).Keys == REQUIRED + OPTIONAL && StoresRequired(r + o, b)
  {
    KeysDiffer();
    UnionKeeps(r, o);
  }

  lemma UnionStoresOptional(r: map<Key, Json>, o: map<Key, Json>, e: Event)
    requires r.Keys == REQUIRED && o.Keys == OPTIONAL && StoresOptional(o, e)
    ensures (r + o).Keys == REQUIRED + OPTIONAL && StoresOptional(r + o, e)
  {
    assert forall k :: k in OPTIONAL ==> (r + o)[k] == o[k];
  }

  lemma EventJsonStores(e: Event)
    ensures Stores(EventJson(e).fields, e)
  {
    RequiredAreStored(e.body);
    OptionalAreStored(e);
    UnionStores(RequiredFields(e.body), OptionalFields(e), e);
  }

  lemma BodyFromFields(c: Checks, f: map<Key, Json>, e: Event)
    requires Stores(f, e) && IsNormal(c, e.body)
    ensures ParseBody(c, f) == Ok(e.body)
  {
    RedactionReadsBack(e.body.message != "");
  }

  lemma ParseFromFields(c: Checks, f: map<Key, Json>, e: Event)
    requires Stores(f, e) && IsNormal(c, e.body) && BindHash(c, e.body, Str(e.eventHash)) == Ok(e)
    ensures ParseEvent(c, Object(f)) == Ok(e)
  {
    BodyFromFields(c, f, e);
  }

  /** An event read back from its own JSON is itself: every normalisation is
      idempotent and the bound hash agrees. */
  lemma ParseIdempotent(c: Checks, raw: Json)
    requires !c.secret("") && ParseEvent(c, raw).Ok?
    ensures ParseEvent(c, EventJson(ParseEvent(c, raw).value)) == ParseEvent(c, raw)
  {
    hide ParseBody, IsNormal, Stores;
    var e := ParseEvent(c, raw).value;
    ParsedBodyIsNormal(c, raw.fields);
    assert BindHash(c, e.body, Str(e.eventHash)) == Ok(e);
    EventJsonStores(e);
    ParseFromFields(c, EventJson(e).fields, e);
  }

  /** The hash is bound to the content and the encoding is within its limit. */
  lemma ParsedIsBound(c: Checks, raw: Json)
    requires ParseEvent(c, raw).Ok?
    ensures var e := ParseEvent(c, raw).value; e.eventHash == c.hash(e.body) && c.size(EventJson(e)) <= EVENT_BYTE_LIMIT
  {
  }
}
