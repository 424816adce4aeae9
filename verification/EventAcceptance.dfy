/** Which values the event contract accepts, said of the value alone, and as what event
    (flyto_robotics/device_events.py). */
module EventAcceptance {
  import opened Wrappers
  import opened Text
  import opened DeviceEvent

  /** A text that is an identifier once stripped, or, where it may be, nothing. */
  predicate IsName(v: Json, mayBeEmpty: bool) {
    v.Str? && (IsIdentifier(Strip(v.s)) || (mayBeEmpty && Strip(v.s) == ""))
  }

  predicate IsCodeText(v: Json) {
    v.Str? && IsCode(Strip(v.s))
  }

  /** At most sixteen codes. */
  predicate IsCodeList(v: Json) {
    v.List? && |v.items| <= 16 && forall i :: 0 <= i < |v.items| ==> IsCodeText(v.items[i])
  }

  /** No message, or one without control characters that, its whitespace collapsed, has
      at most 200 characters and is not a secret. */
  predicate MayBeShown(c: Checks, v: Json) {
    || v.Null?
    || (v.Str? && (forall i :: 0 <= i < |v.s| ==> !IsControl(v.s[i]))
        && |Collapse(v.s)| <= 200 && !c.secret(Collapse(v.s)))
  }

  predicate IsTime(c: Checks, v: Json) {
    v.Str? && |Strip(v.s)| <= 64 && c.timestamp(Strip(v.s))
  }

  /** Every field of a redaction block says what the stored block will; `free_text` may
      be left open. */
  predicate RedactionFits(v: Json, hasMessage: bool) {
    || v.Null?
    || (v.Object?
        && forall k :: k in v.fields ==>
             && k in RedactionJson(hasMessage).fields
             && (v.fields[k] == RedactionJson(hasMessage).fields[k] || (k == FreeText && v.fields[k].Null?)))
  }

  function TextIn(v: Json): string {
    if v.Str? then v.s else ""
  }

  function CodesIn(v: Json): seq<string> {
    if v.List? then Distinct(seq(|v.items|, i requires 0 <= i < |v.items| => Strip(TextIn(v.items[i])))) else []
  }

  /** What an acceptable value says, normalised. */
  function BodyIn(f: map<Key, Json>): Body
    requires REQUIRED <= f.Keys
  {
    Body(Strip(TextIn(f[EventId])), Strip(TextIn(f[ResourceId])), Strip(TextIn(f[Component])),
         if f[Sequence].Int? then f[Sequence].n else 0, Strip(TextIn(f[ObservedAtKey])), TextIn(f[Severity]),
         TextIn(f[Status]), Strip(TextIn(f[ReasonCode])), CodesIn(Field(f, ActionCodesKey, List([]))),
         Strip(TextIn(Field(f, CorrelationId, Str("")))), Strip(TextIn(Field(f, RunId, Str("")))),
         Collapse(TextIn(Field(f, Message, Str("")))), Field(f, DetailsKey, Object(map[])))
  }

  predicate RequiredAcceptable(c: Checks, f: map<Key, Json>)
    requires REQUIRED <= f.Keys
  {
    && f[Contract] == Str("flyto.device-event.v1") && IsName(f[EventId], false) && IsName(f[ResourceId], false)
    && IsCodeText(f[Component]) && f[Sequence].Int? && 0 <= f[Sequence].n <= 9007199254740992
    && IsTime(c, f[ObservedAtKey]) && f[Severity].Str? && f[Severity].s in SEVERITIES
    && f[Status].Str? && f[Status].s in STATUSES && IsCodeText(f[ReasonCode])
  }

  predicate OptionalAcceptable(c: Checks, f: map<Key, Json>) {
    && MayBeShown(c, Field(f, Message, Null)) && IsCodeList(Field(f, ActionCodesKey, List([])))
    && IsName(Field(f, CorrelationId, Str("")), true) && IsName(Field(f, RunId, Str("")), true)
    && Field(f, DetailsKey, Object(map[])).Object? && c.details(Field(f, DetailsKey, Object(map[])))
  }

  /** Known fields only and all that are required, each of its kind; a redaction block
      and a hash, where given, that agree with the rest; and the whole within its
      bytes. */
  predicate Acceptable(c: Checks, raw: Json) {
    && raw.Object? && REQUIRED <= raw.fields.Keys <= REQUIRED + OPTIONAL
    && RequiredAcceptable(c, raw.fields) && OptionalAcceptable(c, raw.fields)
    && var body := BodyIn(raw.fields);
       && RedactionFits(Field(raw.fields, Redaction, Null), body.message != "")
       && (var given := Field(raw.fields, EventHash, Null);
           given == Null || given == Str("") || given == Str(c.hash(body)))
       && c.size(EventJson(Event(body, c.hash(body)))) <= 16384
  }

  // ---------------------------------------------------------------------------
  // Field by field
  // ---------------------------------------------------------------------------

  lemma NameIsIdentifier(v: Json, field: Key, mayBeEmpty: bool)
    ensures Identifier(v, field, mayBeEmpty).Ok? <==> IsName(v, mayBeEmpty)
    ensures IsName(v, mayBeEmpty) ==> Identifier(v, field, mayBeEmpty) == Ok(Strip(TextIn(v)))
  {
    hide Strip;
  }

  lemma CodeIsText(v: Json, field: Key)
    ensures Code(v, field).Ok? <==> IsCodeText(v)
    ensures IsCodeText(v) ==> Code(v, field) == Ok(Strip(TextIn(v)))
  {
    hide Strip;
  }

  lemma {:induction false} CodesAreTexts(items: seq<Json>)
    ensures Codes(items).Ok? <==> forall i :: 0 <= i < |items| ==> IsCodeText(items[i])
    ensures Codes(items).Ok? ==>
              Codes(items).value == seq(|items|, i requires 0 <= i < |items| => Strip(TextIn(items[i])))
  {
    hide Strip, IsCode;
    if items != [] {
      CodeIsText(items[0], ActionCodesKey);
      CodesAreTexts(items[1..]);
      assert forall i :: 1 <= i < |items| ==> items[i] == items[1..][i - 1];
      assert (forall i :: 0 <= i < |items| ==> IsCodeText(items[i]))
             <==> IsCodeText(items[0]) && forall i :: 0 <= i < |items[1..]| ==> IsCodeText(items[1..][i]);
    }
  }

  lemma CodeListIsAccepted(v: Json)
    ensures ActionCodes(v).Ok? <==> IsCodeList(v)
    ensures IsCodeList(v) ==> ActionCodes(v) == Ok(CodesIn(v))
  {
    hide Distinct;
    if v.List? {
      CodesAreTexts(v.items);
    }
  }

  /** An absent message is the empty one, as a null one is. */
  lemma MessageIsShown(c: Checks, f: map<Key, Json>)
    requires !c.secret("")
    ensures PublicMessage(c, Field(f, Message, Str(""))).Ok? <==> MayBeShown(c, Field(f, Message, Null))
    ensures MayBeShown(c, Field(f, Message, Null)) ==>
              PublicMessage(c, Field(f, Message, Str(""))) == Ok(Collapse(TextIn(Field(f, Message, Str("")))))
  {
    assert Collapse("") == "";
    hide Collapse;
  }

  lemma RedactionIsFit(v: Json, hasMessage: bool)
    ensures RedactionAgrees(v, hasMessage) <==> RedactionFits(v, hasMessage)
  {
  }

  lemma TimeIsObserved(c: Checks, v: Json)
    ensures ObservedAt(c, v).Ok? <==> IsTime(c, v)
    ensures IsTime(c, v) ==> ObservedAt(c, v) == Ok(Strip(TextIn(v)))
  {
    hide Strip;
  }

  lemma PartsAreAcceptable(c: Checks, f: map<Key, Json>)
    requires !c.secret("") && REQUIRED <= f.Keys && f[Contract] == Str("flyto.device-event.v1")
    ensures ParseBody(c, f).Ok? <==>
              && RequiredAcceptable(c, f) && OptionalAcceptable(c, f)
              && RedactionFits(Field(f, Redaction, Null), BodyIn(f).message != "")
    ensures ParseBody(c, f).Ok? ==> ParseBody(c, f).value == BodyIn(f)
  {
    hide PublicMessage, Identifier, Code, ObservedAt, ActionCodes, RedactionAgrees, RedactionFits,
         IsName, IsCodeText, IsCodeList, MayBeShown, IsTime, CodesIn, Strip, Collapse;
    MessageIsShown(c, f);
    NameIsIdentifier(f[EventId], EventId, false);
    NameIsIdentifier(f[ResourceId], ResourceId, false);
    CodeIsText(f[Component], Component);
    TimeIsObserved(c, f[ObservedAtKey]);
    CodeIsText(f[ReasonCode], ReasonCode);
    CodeListIsAccepted(Field(f, ActionCodesKey, List([])));
    NameIsIdentifier(Field(f, CorrelationId, Str("")), CorrelationId, true);
    NameIsIdentifier(Field(f, RunId, Str("")), RunId, true);
    RedactionIsFit(Field(f, Redaction, Null), BodyIn(f).message != "");
  }

  /** An accepted value is `Acceptable` and every acceptable one is accepted, as the event it
      says. */
  lemma AcceptedExactlyWhen(c: Checks, raw: Json)
    requires !c.secret("")
    ensures ParseEvent(c, raw).Ok? <==> Acceptable(c, raw)
    ensures Acceptable(c, raw) ==>
              ParseEvent(c, raw) == Ok(Event(BodyIn(raw.fields), c.hash(BodyIn(raw.fields))))
  {
    hide ParseBody, RedactionFits, OptionalAcceptable, BodyIn, EventJson;
    if raw.Object? && REQUIRED <= raw.fields.Keys && raw.fields[Contract] == Str("flyto.device-event.v1") {
      PartsAreAcceptable(c, raw.fields);
    }
  }
}
