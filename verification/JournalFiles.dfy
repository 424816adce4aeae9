/** Which bytes load as a journal, whoever wrote them (flyto_robotics/device_events.py). */
module JournalFiles {
  import opened Wrappers
  import opened Lines
  import opened DeviceEvent
  import opened Cursor
  import opened Journal
  import opened JournalStore

  /** A line naming a journal and nothing else. */
  predicate IsHeaderLine(env: Env, line: seq<byte>, id: string) {
    IsHex(id, 32) && env.decode(line) == Some(HeaderJson(id))
  }

  /** A line holding one numbered event the contract accepts, and nothing else. */
  ghost predicate IsRecordLine(env: Env, line: seq<byte>, r: Record) {
    && 1 <= r.sequence
    && exists raw :: env.decode(line) == Some(NumberedJson(r.sequence, raw)) && env.parse(raw) == Ok(r.event)
  }

  function NumberedJson(sequence: int, raw: Json): Json {
    Object(map[JournalSequence := Int(sequence), EventKey := raw])
  }

  /** A header and then records without a break in their numbers. */
  ghost predicate IsJournal(env: Env, lines: seq<seq<byte>>, id: string, records: seq<Record>) {
    && |lines| == |records| + 1 && IsHeaderLine(env, lines[0], id)
    && (forall i :: 0 <= i < |records| ==> IsRecordLine(env, lines[i + 1], records[i]))
    && (forall i :: 0 <= i < |records| ==> records[i].sequence == records[0].sequence + i)
  }

  lemma HeaderDecodes(env: Env, line: seq<byte>, id: string)
    ensures DecodeHeader(env, line) == Ok(id) <==> IsHeaderLine(env, line, id)
  {
    var decoded := env.decode(line);
    if DecodeHeader(env, line) == Ok(id) {
      var header := decoded.value.fields[Key.Journal];
      assert header.fields == map[Key.Contract := Str(JOURNAL_CONTRACT), JournalId := Str(id)];
      assert decoded.value.fields == map[Key.Journal := header];
    }
  }

  lemma RecordDecodes(env: Env, line: seq<byte>, r: Record)
    ensures DecodeRecord(env, line) == Ok(r) <==> IsRecordLine(env, line, r)
  {
    var decoded := env.decode(line);
    if DecodeRecord(env, line) == Ok(r) {
      var raw := decoded.value.fields[EventKey];
      assert decoded.value.fields == map[JournalSequence := Int(r.sequence), EventKey := raw];
      assert decoded == Some(NumberedJson(r.sequence, raw));
    }
    if raw :| 1 <= r.sequence && decoded == Some(NumberedJson(r.sequence, raw)) && env.parse(raw) == Ok(r.event) {
      assert decoded.value.fields.Keys == {JournalSequence, EventKey};
    }
  }

  lemma {:induction false} RecordsDecode(env: Env, lines: seq<seq<byte>>, records: seq<Record>)
    ensures DecodeRecords(env, lines) == Ok(records) <==>
              |lines| == |records| && forall i :: 0 <= i < |records| ==> IsRecordLine(env, lines[i], records[i])
  {
    hide DecodeRecord, IsRecordLine;
    if lines != [] && records != [] {
      RecordDecodes(env, lines[0], records[0]);
      RecordsDecode(env, lines[1..], records[1..]);
      assert records == [records[0]] + records[1..];
      assert (forall i :: 0 <= i < |records| && |lines| == |records| ==> IsRecordLine(env, lines[i], records[i]))
             <== |lines| == |records| && IsRecordLine(env, lines[0], records[0])
                 && forall i :: 0 <= i < |records[1..]| ==> IsRecordLine(env, lines[1..][i], records[1..][i]);
    }
  }

  lemma ContiguousIsNumbered(records: seq<Record>)
    ensures Contiguous(records) <==> forall i :: 0 <= i < |records| ==> records[i].sequence == records[0].sequence + i
  {
    if Contiguous(records) {
      forall i | 0 <= i < |records|
        ensures records[i].sequence == records[0].sequence + i
      {
        SequenceAt(records, i);
      }
    }
  }

  /** Blank lines are no lines: with `NonEmptyFixed` this is all that leaving them out does. */
  lemma {:induction false} BlankLinesAreSkipped(a: seq<seq<byte>>, b: seq<seq<byte>>)
    ensures NonEmpty(a + [[]] + b) == NonEmpty(a + b)
  {
    if a == [] {
      assert [[]] + b == [] + [[]] + b && ([[]] + b)[1..] == b && [] + b == b;
    } else {
      assert (a + [[]] + b)[1..] == a[1..] + [[]] + b && (a + b)[1..] == a[1..] + b;
      BlankLinesAreSkipped(a[1..], b);
    }
  }

  /** A file loads as a journal exactly when it is within its bound, ends with a line and
      its lines are that journal's; no file loads as none unless it is empty. */
  lemma LoadsExactlyWhen(env: Env, maxBytes: nat, raw: seq<byte>, id: string, records: seq<Record>)
    ensures var lines := NonEmpty(Split(raw));
            && (Load(env, maxBytes, raw) == Ok(Loaded(Some(id), records, lines)) <==>
                  && |raw| <= maxBytes + 4096 && |raw| <= 8388608 && raw != [] && raw[|raw| - 1] == 10
                  && lines != [] && IsJournal(env, lines, id, records))
            && (Load(env, maxBytes, raw).Ok? && raw != [] ==>
                  Load(env, maxBytes, raw).value.lines == lines && Load(env, maxBytes, raw).value.header.Some?)
            && (raw == [] ==> Load(env, maxBytes, raw) == Ok(Loaded(None, [], [])))
  {
    hide IsHeaderLine, IsRecordLine, DecodeHeader, DecodeRecords, Contiguous, NonEmpty, Split;
    var lines := NonEmpty(Split(raw));
    ContiguousIsNumbered(records);
    if lines != [] {
      HeaderDecodes(env, lines[0], id);
      RecordsDecode(env, lines[1..], records);
    }
  }
}
