/** One journal the theorems speak of: an environment that meets every law asked of
    it, an event its contract accepts, and journals of any length holding it. */
module JournalExample {
  import opened Wrappers
  import opened Decimal
  import opened Text
  import opened Lines
  import opened DeviceEvent
  import opened CanonicalJson
  import opened Cursor
  import opened Journal
  import opened JournalStore
  import opened JournalPages
  import opened JournalReader

  function Zeros(n: nat): (s: string)
    ensures IsHex(s, n) && IsPlain(s)
  {
    seq(n, _ => '0')
  }

  /** A calendar that takes every time, no secret patterns, no bound on details and
      a constant digest; the size is that of the canonical encoding. */
  ghost function ExampleChecks(): Checks {
    Checks((_: string) => true, (_: string) => false, (_: Json) => true, (_: Body) => Zeros(64), (j: Json) => |Encode(j)|)
  }

  /** The decoder the encoding has because it loses nothing. */
  ghost function Decode(text: seq<byte>): Option<Json> {
    if j :| Encode(j) == text then Some(j) else None
  }

  lemma DecodesEncoded(j: Json)
    ensures Decode(Encode(j)) == Some(j)
  {
    hide Encode;
    EncodeInjective(Decode(Encode(j)).value, j);
  }

  ghost function ExampleEnv(): Env {
    ContractEnv(ExampleChecks(), (j: Json) => Encode(j), (text: seq<byte>) => Decode(text),
                (_: string, _: nat, _: string) => EMPTY_TAG)
  }

  lemma ExampleIsSound()
    ensures Sound(ExampleEnv())
  {
    hide Encode, Decode, Sound;
    var env := ExampleEnv();
    forall j
      ensures env.decode(env.encode(j)) == Some(j)
    {
      DecodesEncoded(j);
    }
    ContractIsSound(ExampleChecks(), env.encode, env.decode, env.tag);
  }

  function ExampleEvent(): Event {
    Event(Body("e", "r", "c", 0, "t", "info", "unknown", "o", [], "", "", "", Object(map[])), Zeros(64))
  }

  lemma ExampleNamesAreNormal()
    ensures Identifier(Str("e"), EventId, false) == Ok("e") && Identifier(Str("r"), ResourceId, false) == Ok("r")
    ensures Identifier(Str(""), CorrelationId, true) == Ok("") && Identifier(Str(""), RunId, true) == Ok("")
    ensures Code(Str("c"), Component) == Ok("c") && Code(Str("o"), ReasonCode) == Ok("o")
  {
  }

  lemma ExampleTextsAreNormal()
    ensures PublicMessage(ExampleChecks(), Str("")) == Ok("") && ObservedAt(ExampleChecks(), Str("t")) == Ok("t")
    ensures Choice(Str("info"), Severity, SEVERITIES) == Ok("info") && Choice(Str("unknown"), Status, STATUSES) == Ok("unknown")
    ensures ActionCodes(StrList([])) == Ok([])
  {
    hide Encode;
    assert Words("") == [] && Collapse("") == "";
    assert StrList([]).items == [];
  }

  lemma ExampleIsNormal()
    ensures IsNormal(ExampleChecks(), ExampleEvent().body)
  {
    hide Identifier, Code, PublicMessage, ObservedAt, Choice, ActionCodes, Encode;
    ExampleNamesAreNormal();
    ExampleTextsAreNormal();
  }

  lemma KeyTextIsShort(k: Key)
    requires !k.Other?
    ensures |StringBytes(KeyText(k))| <= 24
  {
    hide StringBytes;
    var i := KeyIndex(k);
    TextsArePlain(i);
    PlainSize(KEY_TEXTS[i]);
  }

  lemma FirstTextsArePlain()
    ensures forall i :: 0 <= i < 5 ==> IsPlain(KEY_TEXTS[i])
  {
    assert IsPlain("contract") && IsPlain("event_id") && IsPlain("resource_id") && IsPlain("component") && IsPlain("sequence");
  }

  lemma SecondTextsArePlain()
    ensures forall i :: 5 <= i < 10 ==> IsPlain(KEY_TEXTS[i])
  {
    assert IsPlain("observed_at") && IsPlain("severity") && IsPlain("status");
    assert IsPlain("reason_code") && IsPlain("action_codes");
  }

  lemma ThirdTextsArePlain()
    ensures forall i :: 10 <= i < 15 ==> IsPlain(KEY_TEXTS[i])
  {
    assert IsPlain("correlation_id") && IsPlain("run_id") && IsPlain("message") && IsPlain("details") && IsPlain("redaction");
  }

  lemma FourthTextsArePlain()
    ensures forall i :: 15 <= i < 19 ==> IsPlain(KEY_TEXTS[i])
  {
    assert IsPlain("event_hash") && IsPlain("policy") && IsPlain("free_text") && IsPlain("raw_logs_included");
  }

  lemma FifthTextsArePlain()
    ensures forall i :: 19 <= i < 22 ==> IsPlain(KEY_TEXTS[i])
  {
    assert IsPlain("credentials_included") && IsPlain("personal_data_included") && IsPlain("redacted_key_count");
  }

  lemma SixthTextsArePlain()
    ensures forall i :: 22 <= i < 26 ==> IsPlain(KEY_TEXTS[i])
  {
    assert IsPlain("journal_sequence") && IsPlain("event") && IsPlain("journal") && IsPlain("journal_id");
  }

  lemma TextsArePlain(i: nat)
    requires i < |KEY_TEXTS|
    ensures IsPlain(KEY_TEXTS[i]) && |KEY_TEXTS[i]| <= 22
  {
    hide IsPlain;
    FirstTextsArePlain();
    SecondTextsArePlain();
    ThirdTextsArePlain();
    FourthTextsArePlain();
    FifthTextsArePlain();
    SixthTextsArePlain();
  }

  lemma RedactionIsSmall()
    ensures |Encode(RedactionJson(false))| <= 362
  {
    hide Encode, KeyText, StringBytes;
    var j := RedactionJson(false);
    forall k | k in j.fields
      ensures MemberSize(j, k) < 60
    {
      KeyTextIsShort(k);
      if k == Policy {
        PlainValueSize(REDACTION_POLICY);
      } else if k == RedactedKeyCount {
        IntSize(0);
      } else {
        BoolSize(false);
      }
    }
    assert j.fields.Keys == REDACTION_FIELDS;
    CountOf(REDACTION_FIELDS, [Policy, FreeText, RawLogsIncluded, CredentialsIncluded, PersonalDataIncluded, RedactedKeyCount]);
    ObjectAtMost(j, 6, 60);
  }

  lemma BoolSize(b: bool)
    ensures |Encode(Bool(b))| <= 5
  {
  }

  lemma EmptySizes()
    ensures |Encode(List([]))| == 2 && |Encode(Object(map[]))| == 2 && |Encode(Int(0))| == 1
  {
    assert InOrder({}) == [];
  }

  lemma {:induction false} CountOf(keys: set<Key>, listed: seq<Key>)
    requires forall k :: k in keys ==> k in listed
    ensures |keys| <= |listed|
  {
    if listed != [] {
      CountOf(keys - {listed[0]}, listed[1..]);
    }
  }

  predicate IsShort(v: Json) {
    v.Str? && IsPlain(v.s) && |v.s| <= 64
  }

  lemma ShortIsSmall(v: Json)
    requires IsShort(v)
    ensures |Encode(v)| <= 66
  {
    PlainValueSize(v.s);
  }

  lemma ConstantsAreShort()
    ensures IsShort(Str(DEVICE_EVENT_CONTRACT)) && IsShort(Str("info")) && IsShort(Str("unknown")) && IsShort(Str(Zeros(64)))
  {
    WordsAreShort();
    ContractIsShort();
    hide IsPlain;
  }

  lemma WordsAreShort()
    ensures IsShort(Str("info")) && IsShort(Str("unknown"))
  {
  }

  lemma ContractIsShort()
    ensures IsShort(Str(DEVICE_EVENT_CONTRACT))
  {
  }

  lemma LettersAreShort()
    ensures IsShort(Str("e")) && IsShort(Str("r")) && IsShort(Str("c")) && IsShort(Str("t")) && IsShort(Str("o"))
    ensures IsShort(Str(""))
  {
  }

  lemma RequiredAreSmall(j: Json, k: Key)
    requires j.Object? && k in j.fields && REQUIRED <= j.fields.Keys && k in REQUIRED
    requires StoresRequired(j.fields, ExampleEvent().body)
    ensures |Encode(j.fields[k])| <= 362
  {
    hide Encode, IsShort;
    EmptySizes();
    ConstantsAreShort();
    LettersAreShort();
    if k != Sequence {
      ShortIsSmall(j.fields[k]);
    }
  }

  lemma OptionalAreSmall(j: Json, k: Key)
    requires j.Object? && k in j.fields && OPTIONAL <= j.fields.Keys && k in OPTIONAL
    requires StoresOptional(j.fields, ExampleEvent())
    ensures |Encode(j.fields[k])| <= 362
  {
    hide Encode, IsShort, Zeros;
    EmptySizes();
    RedactionIsSmall();
    ConstantsAreShort();
    LettersAreShort();
    if k == ActionCodesKey {
      assert StrList([]).items == [];
    } else if k != DetailsKey && k != Redaction {
      ShortIsSmall(j.fields[k]);
    }
  }

  lemma MemberIsSmall(j: Json, k: Key)
    requires j.Object? && k in j.fields && Stores(j.fields, ExampleEvent())
    ensures MemberSize(j, k) < 388
  {
    hide Encode, KeyText, StringBytes, StoresRequired, StoresOptional;
    KeyTextIsShort(k);
    if k in REQUIRED {
      RequiredAreSmall(j, k);
    } else {
      OptionalAreSmall(j, k);
    }
  }

  lemma FieldCount(keys: set<Key>)
    requires keys == REQUIRED + OPTIONAL
    ensures |keys| <= 16
  {
    CountOf(keys, [Key.Contract, EventId, ResourceId, Component, Sequence, ObservedAtKey, Severity, Status, ReasonCode,
                   ActionCodesKey, CorrelationId, RunId, Message, DetailsKey, Redaction, EventHash]);
  }

  /** Every member of the stored event is short, so the event is stored. */
  lemma ExampleIsSmall()
    ensures |Encode(EventJson(ExampleEvent()))| <= EVENT_BYTE_LIMIT
  {
    hide Encode, MemberSize, StoresRequired, StoresOptional, RequiredFields, OptionalFields, ExampleEvent;
    var j := EventJson(ExampleEvent());
    EventJsonStores(ExampleEvent());
    forall k | k in j.fields
      ensures MemberSize(j, k) < 388
    {
      MemberIsSmall(j, k);
    }
    FieldCount(j.fields.Keys);
    ObjectAtMost(j, 16, 388);
  }

  lemma ExampleBinds()
    ensures BindHash(ExampleChecks(), ExampleEvent().body, Str(ExampleEvent().eventHash)) == Ok(ExampleEvent())
  {
    hide Encode, EventJson;
    ExampleIsSmall();
  }

  /** The contract accepts the event and the journal can hold it. */
  lemma ExampleIsStored()
    ensures ParseEvent(ExampleChecks(), EventJson(ExampleEvent())) == Ok(ExampleEvent())
    ensures IsStored(ExampleEnv(), ExampleEvent())
  {
    hide Encode, IsNormal, Stores, ParseBody, BindHash, ExampleEvent, IsStored, RequiredFields, OptionalFields;
    var e, env, checks := ExampleEvent(), ExampleEnv(), ExampleChecks();
    ExampleIsNormal();
    ExampleBinds();
    EventJsonStores(e);
    ParseFromFields(checks, EventJson(e).fields, e);
    ParsedIsStored(checks, env.encode, env.decode, env.tag, EventJson(e));
  }

  /** A journal that keeps one record, to which the event was appended `n` times. */
  function ExampleJournal(n: nat): Written {
    Written(Zeros(32), seq(n, i requires 0 <= i < n => Record(i + 1, ExampleEvent())), if n == 0 then 0 else n - 1)
  }

  lemma ExampleHistory(n: nat)
    ensures IsHex(ExampleJournal(n).id, 32) && |ExampleJournal(n).history| == n
    ensures ExampleJournal(n).dropped == if n == 0 then 0 else n - 1
    ensures forall i :: 0 <= i < n ==> ExampleJournal(n).history[i] == Record(i + 1, ExampleEvent())
  {
    hide ExampleEvent;
  }

  lemma ExampleIsWritten(n: nat)
    requires 1 <= n
    ensures IsWritten(ExampleEnv(), ExampleJournal(n))
  {
    hide Sound, IsStored, IsHistory, ExampleEvent, ExampleEnv, ExampleJournal, IsHex;
    ExampleIsSound();
    ExampleIsStored();
    ExampleHistory(n);
    RepeatedIsHistory(ExampleEnv(), ExampleJournal(n).history, ExampleEvent());
  }

  lemma RepeatedIsHistory(env: Env, history: seq<Record>, event: Event)
    requires IsStored(env, event) && forall i :: 0 <= i < |history| ==> history[i] == Record(i + 1, event)
    ensures IsHistory(env, history)
  {
    hide IsStored;
  }

  /** The service of the theorems about readers knows such a journal, and a new
      reader of it is consistent. */
  lemma ServingKnowsExample(n: nat)
    requires 1 <= n < Pow10(MAX_POSITION_DIGITS)
    ensures Serving(ExampleEnv()).known(ExampleJournal(n))
    ensures Consistent(Serving(ExampleEnv()), World(ExampleJournal(n), "", [], false), 0)
  {
    assert |ExampleJournal(n).history| == n;
    hide IsWritten, ExampleEnv, ExampleJournal, Consistent;
    ExampleIsWritten(n);
    NewReader(ExampleEnv(), ExampleJournal(n));
  }

  /** An event appended to it is a legal step of the reader's world. */
  lemma ExampleGrows(n: nat)
    requires 1 <= n && n + 1 < Pow10(MAX_POSITION_DIGITS)
    ensures Legal(Serving(ExampleEnv()), World(ExampleJournal(n), "", [], false), Append(ExampleJournal(n + 1)))
  {
    hide Serving, ExampleEnv, ExampleEvent;
    ServingKnowsExample(n + 1);
  }

  /** A journal that keeps one record refuses, after ten to the sixteenth appends, the cursor it
      issued for it. */
  lemma IssuedCursorIsRefused() returns (j: Written, cursor: string)
    ensures IsWritten(ExampleEnv(), j) && IssuedAt(ExampleEnv(), j, cursor, Pow10(MAX_POSITION_DIGITS))
    ensures |Retained(j)| == 1
    ensures DecodeCursor(cursor).Err?
            || Resume(ExampleEnv(), j.id, Retained(j), DecodeCursor(cursor).value).Err?
  {
    hide IsWritten;
    var n := Pow10(MAX_POSITION_DIGITS);
    PowerAtLeastTen(MAX_POSITION_DIGITS);
    j := ExampleJournal(n);
    ExampleIsWritten(n);
    assert j.history[n - 1].event == ExampleEvent();
    assert HashAt(j, n) == Zeros(64);
    cursor := EncodeCursor(j.id, n, HashAt(j, n), ExampleEnv().tag).value;
    IssuedCursorRefusedExactlyWhen(ExampleEnv(), j, cursor, n);
  }
}
