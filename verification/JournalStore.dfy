/** The journal as the object devices append to and readers export from
    (`DeviceEventJournal` in flyto_robotics/device_events.py). */
module JournalStore {
  import opened Wrappers
  import opened Lines
  import opened DeviceEvent
  import opened Cursor
  import opened Journal

  /** Whether the record a cursor names, if still here, is the one it was issued for. */
  predicate TagAgrees(env: Env, records: seq<Record>, after: nat, tag: string, id: string) {
    after == 0 || forall r :: r in records && r.sequence == after ==> env.tag(id, after, r.event.eventHash) == tag
  }

  method VerifyCursorTag(env: Env, records: seq<Record>, after: nat, tag: string, id: string) returns (ok: bool)
    requires Contiguous(records)
    ensures ok == TagAgrees(env, records, after, tag, id)
  {
    if after == 0 {
      return true;
    }
    for i := 0 to |records|
      invariant forall k :: 0 <= k < i ==> records[k].sequence != after
    {
      if records[i].sequence == after {
        SequencesDiffer(records, i);
        return env.tag(id, after, records[i].event.eventHash) == tag;
      }
    }
    return true;
  }

  lemma SequencesDiffer(records: seq<Record>, i: nat)
    requires Contiguous(records) && i < |records|
    ensures forall k :: 0 <= k < |records| && k != i ==> records[k].sequence != records[i].sequence
  {
    forall k | 0 <= k < |records| && k != i
      ensures records[k].sequence != records[i].sequence
    {
      SequenceAt(records, k);
      SequenceAt(records, i);
    }
  }

  lemma {:induction false} SequenceAt(records: seq<Record>, k: nat)
    requires Contiguous(records) && k < |records|
    ensures records[k].sequence == records[0].sequence + k
  {
    if k > 0 {
      SequenceAt(records, k - 1);
    }
  }

  function LastSequence(records: seq<Record>): int {
    if records == [] then 0 else Last(records).sequence
  }

  /** What a cursor is checked against before anything is selected. */
  function Resume(env: Env, id: string, records: seq<Record>, parts: Parts): Result<nat, JournalError> {
    if parts.journal != "" && parts.journal != id then Err(OtherJournal)
    else if parts.position > LastSequence(records) then Err(AheadOfJournal)
    else if !TagAgrees(env, records, parts.position, parts.tag, id) then Err(TagMismatch)
    else Ok(parts.position)
  }

  function Issue(env: Env, id: string, position: nat, hash: string): Result<string, JournalError> {
    match EncodeCursor(id, position, hash, env.tag)
    case Err(reason) => Err(JournalError.Cursor(reason))
    case Ok(text) => Ok(text)
  }

  /** One page: the records after the cursor within the bounds, where to resume,
      and whether records in between are gone. */
  function PageOf(env: Env, id: string, cursor: string, after: nat, s: Selection): Result<Page, JournalError> {
    if s.records == [] then
      var next :- if cursor != "" then Ok(cursor) else Issue(env, if id == "" then NO_JOURNAL else id, 0, "");
      Ok(Page(id, [], next, !s.remaining, false, 0))
    else if Last(s.records).sequence < 0 then Err(JournalError.Cursor(MalformedCursor))
    else
      var next :- Issue(env, id, Last(s.records).sequence, Last(s.records).event.eventHash);
      var gapBefore := if s.records[0].sequence != after + 1 then s.records[0].sequence else 0;
      Ok(Page(id, s.records, next, !s.remaining, gapBefore != 0, gapBefore))
  }

  function ExportOf(env: Env, header: Option<string>, records: seq<Record>, cursor: string, limit: int, maxBytes: int)
    : Result<Page, JournalError>
  {
    ExportDecoded(env, header.GetOr(""), records, cursor, DecodeCursor(cursor), limit, maxBytes)
  }

  function ExportDecoded(env: Env, id: string, records: seq<Record>, cursor: string, decoded: Result<Parts, CursorError>,
                         limit: int, maxBytes: int): Result<Page, JournalError>
  {
    match decoded
    case Err(reason) => Err(JournalError.Cursor(reason))
    case Ok(parts) =>
      if !(1 <= limit <= HARD_MAX_EXPORT_ITEMS) then Err(LimitOutOfRange)
      else if !(MIN_EXPORT_BYTES <= maxBytes <= HARD_MAX_EXPORT_BYTES) then Err(BytesOutOfRange)
      else
        var after :- Resume(env, id, records, parts);
        var s :- Select(env, records, after, limit, maxBytes);
        PageOf(env, id, cursor, after, s)
  }

  /** Records numbered from one: what a journal has ever been given. */
  ghost predicate IsHistory(env: Env, history: seq<Record>) {
    forall i :: 0 <= i < |history| ==>
      history[i].sequence == i + 1 && IsStored(env, history[i].event)
  }

  lemma SuffixStorable(env: Env, history: seq<Record>, dropped: nat)
    requires IsHistory(env, history) && dropped <= |history|
    ensures Storable(env, history[dropped..])
  {
    var s := history[dropped..];
    assert forall i :: 0 <= i < |s| ==> s[i] == history[dropped + i];
  }

  ghost predicate RecordsFit(env: Env, id: string, records: seq<Record>, maxEvents: nat, maxBytes: nat) {
    |records| <= maxEvents && StoredBytes(env, id, records) <= maxBytes
  }

  class DeviceEventJournal {
    const env: Env
    const maxEvents: nat
    const maxBytes: nat
    var file: seq<byte>
    ghost var id: string
    /** Every record ever appended, oldest first, and how many retention has dropped. */
    ghost var history: seq<Record>
    ghost var dropped: nat

    ghost function Retained(): seq<Record>
      reads this
      requires dropped <= |history|
    {
      history[dropped..]
    }

    ghost predicate Valid()
      reads this
    {
      && Sound(env) && 1 <= maxEvents <= HARD_MAX_JOURNAL_EVENTS && 1024 <= maxBytes <= HARD_MAX_JOURNAL_BYTES
      && IsHistory(env, history) && dropped <= |history|
      && (file == [] ==> history == [])
      && (file != [] ==>
            && dropped < |history| && IsHex(id, 32) && file == Stored(env, id, Retained())
            && RecordsFit(env, id, Retained(), maxEvents, maxBytes))
    }

    constructor Configured(env: Env, maxEvents: nat, maxBytes: nat)
      requires Sound(env) && 1 <= maxEvents <= HARD_MAX_JOURNAL_EVENTS && 1024 <= maxBytes <= HARD_MAX_JOURNAL_BYTES
      ensures Valid() && file == [] && history == []
      ensures this.env == env && this.maxEvents == maxEvents && this.maxBytes == maxBytes
    {
      this.env, this.maxEvents, this.maxBytes := env, maxEvents, maxBytes;
      file, id, history, dropped := [], "", [], 0;
    }

    /** The bounds are checked like everything else: out of range is refused. */
    static method Open(env: Env, maxEvents: int, maxBytes: int) returns (r: Result<DeviceEventJournal, JournalError>)
      requires Sound(env)
      ensures r.Ok? <==> 1 <= maxEvents <= HARD_MAX_JOURNAL_EVENTS && 1024 <= maxBytes <= HARD_MAX_JOURNAL_BYTES
      ensures r.Ok? ==> fresh(r.value) && r.value.Valid() && r.value.history == []
                        && r.value.maxEvents == maxEvents && r.value.maxBytes == maxBytes && r.value.env == env
      ensures r.Err? ==> r.error == BoundOutOfRange
    {
      if 1 <= maxEvents <= HARD_MAX_JOURNAL_EVENTS && 1024 <= maxBytes <= HARD_MAX_JOURNAL_BYTES {
        var journal := new DeviceEventJournal.Configured(env, maxEvents, maxBytes);
        return Ok(journal);
      }
      return Err(BoundOutOfRange);
    }

    /** Record one event, dropping oldest records until both bounds hold. `freshId`
        is the identity a new journal draws. */
    method Append(raw: Json, freshId: string) returns (r: Result<Record, JournalError>)
      requires Valid() && IsHex(freshId, 32)
      modifies this
      ensures Valid() && |file| <= maxBytes
      ensures r.Ok? <==>
                && env.parse(raw).Ok?
                && RecordByteSize(env, Record(|old(history)| + 1, env.parse(raw).value)) + HEADER_ALLOWANCE
                   <= maxBytes
      ensures r.Err? ==> file == old(file) && id == old(id) && history == old(history) && dropped == old(dropped)
      ensures r.Ok? ==>
                && r.value == Record(|old(history)| + 1, env.parse(raw).value)
                && history == old(history) + [r.value] && id == (if old(file) == [] then freshId else old(id))
                && old(dropped) <= dropped < |history|
                && file == Stored(env, id, Retained()) && RecordsFit(env, id, Retained(), maxEvents, maxBytes)
                && (forall k :: old(dropped) <= k < dropped ==> !RecordsFit(env, id, history[k..], maxEvents, maxBytes))
    {
      hide EncodesCanonically, DecodesBack, IsTagger, Stored, RecordsFit;
      var parsed := env.parse(raw);
      FileWithinBound();
      if parsed.Err? {
        return Err(JournalError.Contract(parsed.error));
      }
      var loaded := ReadBack();
      var position := if loaded.records == [] then 1 else Last(loaded.records).sequence + 1;
      var record := Record(position, parsed.value);
      if RecordByteSize(env, record) + HEADER_ALLOWANCE > maxBytes {
        return Err(EventTooLarge);
      }
      Publish(loaded, loaded.header.GetOr(freshId), record);
      FileWithinBound();
      return Ok(record);
    }

    lemma FileWithinBound()
      requires Valid()
      ensures |file| <= maxBytes
    {
      if file != [] {
        StoredSize(env, id, Retained());
      }
    }

    /** A first append, or one that drops records, rewrites the file; any other adds
        one line to it. */
    method Publish(loaded: Loaded, header: string, record: Record)
      requires Valid() && IsHex(header, 32) && record.sequence == |history| + 1 && IsStored(env, record.event)
      requires RecordByteSize(env, record) + HEADER_ALLOWANCE <= maxBytes
      requires loaded.header == (if file == [] then None else Some(header)) && (file != [] ==> header == id)
      requires file != [] ==> loaded.lines == [HeaderLine(env, id)] + RecordLines(env, Retained())
      modifies this
      ensures Valid() && file != []
      ensures history == old(history) + [record] && id == header && old(dropped) <= dropped
      ensures forall k :: old(dropped) <= k < dropped ==> !RecordsFit(env, id, history[k..], maxEvents, maxBytes)
    {
      hide Sound, Stored, RecordsFit, IsHistory, RecordByteSize, IsStored;
      var lines := if loaded.header.None? then [HeaderLine(env, header)] else loaded.lines;
      var line := RecordLine(env, record);
      ghost var before, gone := history, dropped;
      var kept, rewrite := Retain(lines, line, maxEvents, maxBytes);
      ghost var k := Published(env, header, before, gone, record, lines, kept, rewrite, maxEvents, maxBytes);
      Write(kept, line, rewrite || loaded.header.None?);
      history, id, dropped := before + [record], header, gone + k;
    }

    method Write(kept: seq<seq<byte>>, line: seq<byte>, rewrite: bool)
      requires !rewrite ==> Join(kept) == file + Terminated(line)
      modifies this`file
      ensures file == Join(kept)
    {
      if rewrite {
        file := Join(kept);
      } else {
        file := file + Terminated(line);
      }
    }

    /** What a valid journal's file loads as. */
    method ReadBack() returns (loaded: Loaded)
      requires Valid()
      ensures if file == [] then loaded == Loaded(None, [], [])
              else loaded == Loaded(Some(id), Retained(), [HeaderLine(env, id)] + RecordLines(env, Retained()))
    {
      if file != [] {
        SuffixStorable(env, history, dropped);
        StoredLoads(env, id, Retained(), maxBytes);
      }
      var read := Load(env, maxBytes, file);
      loaded := read.value;
    }

    /** What `ExportOf` says of the retained records. */
    method Export(cursor: string, limit: int, maxPageBytes: int) returns (r: Result<Page, JournalError>)
      requires Valid()
      ensures r == ExportOf(env, if file == [] then None else Some(id), Retained(), cursor, limit, maxPageBytes)
    {
      var decoded := DecodeCursor(cursor);
      if decoded.Err? {
        return Err(JournalError.Cursor(decoded.error));
      }
      if !(1 <= limit <= HARD_MAX_EXPORT_ITEMS) {
        return Err(LimitOutOfRange);
      }
      if !(MIN_EXPORT_BYTES <= maxPageBytes <= HARD_MAX_EXPORT_BYTES) {
        return Err(BytesOutOfRange);
      }
      var loaded := ReadBack();
      SuffixStorable(env, history, dropped);
      var journalId := loaded.header.GetOr("");
      var parts := decoded.value;
      if parts.journal != "" && parts.journal != journalId {
        return Err(OtherJournal);
      }
      if parts.position > LastSequence(loaded.records) {
        return Err(AheadOfJournal);
      }
      var agrees := VerifyCursorTag(env, loaded.records, parts.position, parts.tag, journalId);
      if !agrees {
        return Err(TagMismatch);
      }
      var selection := SelectPage(env, loaded.records, parts.position, limit, maxPageBytes);
      if selection.Err? {
        return Err(selection.error);
      }
      return PageOf(env, journalId, cursor, parts.position, selection.value);
    }
  }

  lemma HistoryGrows(env: Env, history: seq<Record>, record: Record)
    requires IsHistory(env, history) && record.sequence == |history| + 1 && IsStored(env, record.event)
    ensures IsHistory(env, history + [record])
  {
    hide IsStored;
  }

  /** What one append does to the record of everything appended: the history
      grows by the new record and the retained part stays its longest suffix
      within both bounds. */
  lemma AppendStep(env: Env, id: string, history: seq<Record>, dropped: nat, record: Record, maxEvents: nat, maxBytes: nat)
    returns (k: nat)
    requires Sound(env) && IsHex(id, 32) && IsHistory(env, history) && dropped <= |history| && 1 <= maxEvents
    requires record.sequence == |history| + 1
    requires IsStored(env, record.event)
    requires RecordByteSize(env, record) + HEADER_ALLOWANCE <= maxBytes
    ensures k == DropCount(|HeaderLine(env, id)| + 1, RecordLines(env, history[dropped..] + [record]), maxEvents, maxBytes)
    ensures IsHistory(env, history + [record]) && dropped + k < |history + [record]|
    ensures RecordsFit(env, id, (history + [record])[dropped + k..], maxEvents, maxBytes)
    ensures forall j :: dropped <= j < dropped + k ==> !RecordsFit(env, id, (history + [record])[j..], maxEvents, maxBytes)
    ensures RecordLines(env, history[dropped..] + [record])[k..] == RecordLines(env, (history + [record])[dropped + k..])
  {
    hide Sound, RecordsFit, RecordByteSize, IsStored, IsHistory;
    var all, records := history + [record], history[dropped..] + [record];
    HistoryGrows(env, history, record);
    k := RetainedSuffix(env, id, records, maxEvents, maxBytes);
    assert all[dropped + k..] == records[k..];
    forall j | dropped <= j < dropped + k
      ensures !RecordsFit(env, id, all[j..], maxEvents, maxBytes)
    {
      assert all[j..] == records[j - dropped..];
    }
  }

  /** The whole effect of one append, from the lines retention kept. */
  lemma Published(env: Env, id: string, history: seq<Record>, dropped: nat, record: Record, lines: seq<seq<byte>>,
                  kept: seq<seq<byte>>, rewrite: bool, maxEvents: nat, maxBytes: nat) returns (k: nat)
    requires Sound(env) && IsHex(id, 32) && IsHistory(env, history) && dropped <= |history| && 1 <= maxEvents
    requires record.sequence == |history| + 1 && IsStored(env, record.event)
    requires RecordByteSize(env, record) + HEADER_ALLOWANCE <= maxBytes
    requires lines == [HeaderLine(env, id)] + RecordLines(env, history[dropped..])
    requires var records := lines[1..] + [RecordLine(env, record)];
             var n := DropCount(|lines[0]| + 1, records, maxEvents, maxBytes);
             kept == [lines[0]] + records[n..] && rewrite == (n > 0)
    ensures var all := history + [record];
            && dropped + k < |all| && IsHistory(env, all)
            && Join(kept) == Stored(env, id, all[dropped + k..]) && Join(kept) != []
            && RecordsFit(env, id, all[dropped + k..], maxEvents, maxBytes)
            && (forall j :: dropped <= j < dropped + k ==> !RecordsFit(env, id, all[j..], maxEvents, maxBytes))
    ensures !rewrite ==> Join(kept) == Stored(env, id, history[dropped..]) + Terminated(RecordLine(env, record))
  {
    LinesWithRecord(env, id, history[dropped..], record, lines);
    k := AppendStep(env, id, history, dropped, record, maxEvents, maxBytes);
    PublishedBytes(env, id, history, dropped, record, lines, kept, k);
  }

  lemma LinesWithRecord(env: Env, id: string, records: seq<Record>, record: Record, lines: seq<seq<byte>>)
    requires lines == [HeaderLine(env, id)] + RecordLines(env, records)
    ensures lines[1..] + [RecordLine(env, record)] == RecordLines(env, records + [record])
  {
  }

  /** The kept lines are the new journal's bytes; when nothing is dropped they are
      the old bytes and one more line. */
  lemma PublishedBytes(env: Env, id: string, history: seq<Record>, dropped: nat, record: Record, lines: seq<seq<byte>>,
                       kept: seq<seq<byte>>, k: nat)
    requires dropped + k <= |history|
    requires lines == [HeaderLine(env, id)] + RecordLines(env, history[dropped..])
    requires kept == [lines[0]] + (lines[1..] + [RecordLine(env, record)])[k..]
    ensures Join(kept) == Stored(env, id, (history + [record])[dropped + k..]) && Join(kept) != []
    ensures k == 0 ==> Join(kept) == Stored(env, id, history[dropped..]) + Terminated(RecordLine(env, record))
  {
    var line, records := RecordLine(env, record), history[dropped..] + [record];
    LinesWithRecord(env, id, history[dropped..], record, lines);
    assert records[k..] == (history + [record])[dropped + k..];
    RecordLinesSuffix(env, records, k);
    JoinEndsInNewline(kept);
    if k == 0 {
      assert kept == lines + [line];
      JoinConcat(lines, [line]);
      assert Join([line]) == Terminated(line) + [];
    }
  }

  lemma RecordLinesSuffix(env: Env, records: seq<Record>, k: nat)
    requires k <= |records|
    ensures RecordLines(env, records)[k..] == RecordLines(env, records[k..])
  {
  }

  /** How much retention drops, said of records rather than lines: what is kept is
      the longest suffix within both bounds. */
  lemma RetainedSuffix(env: Env, id: string, records: seq<Record>, maxEvents: nat, maxBytes: nat) returns (k: nat)
    requires Sound(env) && records != [] && IsHex(id, 32) && 1 <= maxEvents
    requires RecordByteSize(env, Last(records)) + HEADER_ALLOWANCE <= maxBytes
    ensures k == DropCount(|HeaderLine(env, id)| + 1, RecordLines(env, records), maxEvents, maxBytes)
    ensures k < |records| && RecordsFit(env, id, records[k..], maxEvents, maxBytes)
    ensures RecordLines(env, records)[k..] == RecordLines(env, records[k..])
    ensures forall j :: 0 <= j < k ==> !RecordsFit(env, id, records[j..], maxEvents, maxBytes)
  {
    hide Sound, Contiguous;
    HeaderIsFramed(env, id);
    var header, lines := |HeaderLine(env, id)| + 1, RecordLines(env, records);
    k := DropCount(header, lines, maxEvents, maxBytes);
    assert Last(lines) == RecordLine(env, Last(records)) && [Last(lines)][1..] == [];
    RetainsLongestSuffix(header, lines, maxEvents, maxBytes);
    RecordLinesSuffix(env, records, k);
    forall j | 0 <= j < k
      ensures !RecordsFit(env, id, records[j..], maxEvents, maxBytes)
    {
      RecordLinesSuffix(env, records, j);
    }
  }
}
