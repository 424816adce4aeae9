/** The bounded append-only journal: lines in a byte file, oldest-first retention,
    and bounded export after a cursor (flyto_robotics/device_events.py).

    The file is the only state; one locked writer at a time works on it. The
    encoder is the canonical one and the decoder whatever undoes it. */
module Journal {
  import opened Wrappers
  import opened Decimal
  import opened Lines
  import opened DeviceEvent
  import opened CanonicalJson
  import opened Cursor

  const JOURNAL_CONTRACT := "flyto.device-event-journal.v1"
  const HARD_MAX_JOURNAL_EVENTS := 100000
  const HARD_MAX_JOURNAL_BYTES := 8388608
  const HARD_MAX_EXPORT_ITEMS := 1000
  const HARD_MAX_EXPORT_BYTES := 1048576
  const RECORD_FRAMING_BYTES := 64
  const MIN_EXPORT_BYTES := EVENT_BYTE_LIMIT + RECORD_FRAMING_BYTES
  const HEADER_ALLOWANCE := 4096
  const NO_JOURNAL := "00000000000000000000000000000000"

  datatype Record = Record(sequence: int, event: Event)

  /** What the journal works with: the event contract (parse and stored form), the
      JSON encoder and decoder, and the cursor digest. */
  datatype Env = Env(parse: Json -> Result<Event, ContractError>, write: Event -> Json, encode: Json -> seq<byte>,
                     decode: seq<byte> -> Option<Json>, tag: Tagger)

  datatype JournalError =
    | Contract(cause: ContractError) | Cursor(reason: CursorError)
    | BoundOutOfRange | EventTooLarge | FileOverBound | EndsMidRecord | NotJson | BadHeader | BadRecord | NotContiguous
    | LimitOutOfRange | BytesOutOfRange | OtherJournal | AheadOfJournal | TagMismatch | RecordOverBound

  datatype Loaded = Loaded(header: Option<string>, records: seq<Record>, lines: seq<seq<byte>>)

  datatype Page = Page(journalId: string, records: seq<Record>, nextCursor: string, complete: bool, gap: bool,
                       gapBefore: int)

  function RecordJson(env: Env, r: Record): Json {
    Object(map[JournalSequence := Int(r.sequence), EventKey := env.write(r.event)])
  }

  function HeaderJson(id: string): Json {
    Object(map[Key.Journal := Object(map[Key.Contract := Str(JOURNAL_CONTRACT), JournalId := Str(id)])])
  }

  /** An event the contract produced, hash bound and small enough to store. */
  ghost predicate IsStored(env: Env, e: Event) {
    env.parse(env.write(e)) == Ok(e) && IsHex(e.eventHash, 64) && |env.encode(env.write(e))| <= EVENT_BYTE_LIMIT
  }

  ghost predicate ParsesToStored(env: Env) {
    forall raw :: env.parse(raw).Ok? ==> IsStored(env, env.parse(raw).value)
  }

  ghost predicate EncodesCanonically(env: Env) {
    forall j :: env.encode(j) == Encode(j)
  }

  ghost predicate DecodesBack(env: Env) {
    forall j :: env.decode(env.encode(j)) == Some(j)
  }

  /** What is taken of the contract, the encoder, the decoder and the digest. */
  ghost predicate Sound(env: Env) {
    IsTagger(env.tag) && ParsesToStored(env) && EncodesCanonically(env) && DecodesBack(env)
  }

  function HeaderLine(env: Env, id: string): seq<byte> {
    env.encode(HeaderJson(id))
  }

  function RecordLine(env: Env, r: Record): seq<byte> {
    env.encode(RecordJson(env, r))
  }

  /** Whatever is encoded is one line. */
  lemma EncodesOneLine(env: Env, j: Json)
    requires Sound(env)
    ensures env.encode(j) != [] && NEWLINE !in env.encode(j)
  {
    hide Encode, ParsesToStored, DecodesBack;
    EncodeHasNoNewline(j);
    FirstByte(j);
  }

  /** Framing a record costs thirty bytes and the digits of its position. */
  lemma RecordIsFramed(env: Env, r: Record)
    requires Sound(env) && 0 <= r.sequence
    ensures |RecordLine(env, r)| == |env.encode(env.write(r.event))| + |ToDecimal(r.sequence)| + 30
  {
    hide Encode, ToDecimal, ParsesToStored, DecodesBack;
    RecordSize(r.sequence, env.write(r.event));
  }

  /** A header is 104 bytes. */
  lemma HeaderIsFramed(env: Env, id: string)
    requires Sound(env) && IsHex(id, 32)
    ensures |HeaderLine(env, id)| == 104
  {
    hide Encode, ParsesToStored, DecodesBack;
    HeaderSize(JOURNAL_CONTRACT, id);
  }

  function RecordLines(env: Env, records: seq<Record>): seq<seq<byte>> {
    seq(|records|, i requires 0 <= i < |records| => RecordLine(env, records[i]))
  }

  /** What one record costs against a byte bound: its line and the newline. */
  function RecordByteSize(env: Env, r: Record): nat {
    |RecordLine(env, r)| + 1
  }

  function PageBytes(env: Env, records: seq<Record>): nat {
    TotalBytes(RecordLines(env, records))
  }

  // ---------------------------------------------------------------------------
  // Reading the file back
  // ---------------------------------------------------------------------------

  function DecodeHeader(env: Env, line: seq<byte>): Result<string, JournalError> {
    match env.decode(line)
    case None => Err(NotJson)
    case Some(j) =>
      if !j.Object? || j.fields.Keys != {Key.Journal} then Err(BadHeader)
      else
        var header := j.fields[Key.Journal];
        if !header.Object? || header.fields.Keys != {Key.Contract, JournalId} then Err(BadHeader)
        else if header.fields[Key.Contract] != Str(JOURNAL_CONTRACT) then Err(BadHeader)
        else if !header.fields[JournalId].Str? || !IsHex(header.fields[JournalId].s, 32) then Err(BadHeader)
        else Ok(header.fields[JournalId].s)
  }

  function DecodeRecord(env: Env, line: seq<byte>): Result<Record, JournalError> {
    match env.decode(line)
    case None => Err(NotJson)
    case Some(j) =>
      if !j.Object? || j.fields.Keys != {JournalSequence, EventKey} then Err(BadRecord)
      else if !j.fields[JournalSequence].Int? || j.fields[JournalSequence].n < 1 then Err(BadRecord)
      else
        match env.parse(j.fields[EventKey])
        case Err(cause) => Err(JournalError.Contract(cause))
        case Ok(event) => Ok(Record(j.fields[JournalSequence].n, event))
  }

  function DecodeRecords(env: Env, lines: seq<seq<byte>>): Result<seq<Record>, JournalError> {
    if lines == [] then Ok([])
    else
      var first :- DecodeRecord(env, lines[0]);
      var rest :- DecodeRecords(env, lines[1..]);
      Ok([first] + rest)
  }

  predicate Contiguous(records: seq<Record>) {
    forall i :: 0 < i < |records| ==> records[i].sequence == records[i - 1].sequence + 1
  }

  function NonEmpty(lines: seq<seq<byte>>): seq<seq<byte>> {
    if lines == [] then []
    else (if lines[0] == [] then [] else [lines[0]]) + NonEmpty(lines[1..])
  }

  /** Header, records and lines of a file, or why it is refused. An absent file
      loads as nothing. */
  function Load(env: Env, maxBytes: nat, raw: seq<byte>): Result<Loaded, JournalError> {
    var allowed := if maxBytes + HEADER_ALLOWANCE < HARD_MAX_JOURNAL_BYTES then maxBytes + HEADER_ALLOWANCE
                   else HARD_MAX_JOURNAL_BYTES;
    if |raw| > allowed then Err(FileOverBound)
    else if raw == [] then Ok(Loaded(None, [], []))
    else if Last(raw) != NEWLINE then Err(EndsMidRecord)
    else
      var lines := NonEmpty(Split(raw));
      if lines == [] then Err(BadHeader)
      else
        var header :- DecodeHeader(env, lines[0]);
        var records :- DecodeRecords(env, lines[1..]);
        if Contiguous(records) then Ok(Loaded(Some(header), records, lines)) else Err(NotContiguous)
  }

  /** The bytes of a journal that holds exactly these records. */
  function Stored(env: Env, id: string, records: seq<Record>): seq<byte> {
    Join([HeaderLine(env, id)] + RecordLines(env, records))
  }

  function StoredBytes(env: Env, id: string, records: seq<Record>): nat {
    |HeaderLine(env, id)| + 1 + PageBytes(env, records)
  }

  /** Records a journal can hold: consecutive, numbered from at least one, each
      event normalized. */
  ghost predicate Storable(env: Env, records: seq<Record>) {
    && Contiguous(records)
    && (forall r :: r in records ==> 1 <= r.sequence && IsStored(env, r.event))
  }

  lemma HeaderReadsBack(env: Env, id: string)
    requires Sound(env) && IsHex(id, 32)
    ensures DecodeHeader(env, HeaderLine(env, id)) == Ok(id)
  {
  }

  lemma RecordReadsBack(env: Env, r: Record)
    requires Sound(env) && 1 <= r.sequence && IsStored(env, r.event)
    ensures DecodeRecord(env, RecordLine(env, r)) == Ok(r)
  {
  }

  lemma {:induction false} RecordsReadBack(env: Env, records: seq<Record>)
    requires Sound(env)
    requires forall r :: r in records ==> 1 <= r.sequence && IsStored(env, r.event)
    ensures DecodeRecords(env, RecordLines(env, records)) == Ok(records)
  {
    hide Sound, IsStored, RecordLine, DecodeRecord;
    if records != [] {
      RecordReadsBack(env, records[0]);
      assert RecordLines(env, records)[1..] == RecordLines(env, records[1..]);
      RecordsReadBack(env, records[1..]);
      assert records == [records[0]] + records[1..];
    }
  }

  lemma {:induction false} NonEmptyFixed(lines: seq<seq<byte>>)
    requires forall i :: 0 <= i < |lines| ==> lines[i] != []
    ensures NonEmpty(lines + [[]]) == lines
  {
    if lines == [] {
      assert lines + [[]] == [[]];
    } else {
      assert (lines + [[]])[1..] == lines[1..] + [[]];
      NonEmptyFixed(lines[1..]);
    }
  }

  lemma {:induction false} JoinEndsInNewline(lines: seq<seq<byte>>)
    requires lines != []
    ensures Join(lines) != [] && Last(Join(lines)) == NEWLINE
  {
    if |lines| > 1 {
      JoinEndsInNewline(lines[1..]);
    }
  }

  /** A journal's lines are lines: what splits a file gives them back. */
  lemma LinesAreClean(env: Env, id: string, records: seq<Record>)
    requires Sound(env)
    ensures var lines := [HeaderLine(env, id)] + RecordLines(env, records);
            forall i :: 0 <= i < |lines| ==> lines[i] != [] && NEWLINE !in lines[i]
  {
    hide Sound;
    EncodesOneLine(env, HeaderJson(id));
    forall i | 0 <= i < |records|
      ensures RecordLine(env, records[i]) != [] && NEWLINE !in RecordLine(env, records[i])
    {
      EncodesOneLine(env, RecordJson(env, records[i]));
    }
  }

  lemma StoredSize(env: Env, id: string, records: seq<Record>)
    requires Sound(env)
    ensures |Stored(env, id, records)| == StoredBytes(env, id, records)
  {
    hide Sound;
    var lines := [HeaderLine(env, id)] + RecordLines(env, records);
    LinesAreClean(env, id, records);
    SplitJoin(lines);
    assert lines[1..] == RecordLines(env, records);
  }

  lemma JoinLoads(env: Env, lines: seq<seq<byte>>, id: string, records: seq<Record>, maxBytes: nat)
    requires lines != [] && (forall i :: 0 <= i < |lines| ==> lines[i] != [] && NEWLINE !in lines[i])
    requires TotalBytes(lines) <= maxBytes <= HARD_MAX_JOURNAL_BYTES
    requires DecodeHeader(env, lines[0]) == Ok(id) && DecodeRecords(env, lines[1..]) == Ok(records) && Contiguous(records)
    ensures Load(env, maxBytes, Join(lines)) == Ok(Loaded(Some(id), records, lines))
  {
    SplitJoin(lines);
    JoinEndsInNewline(lines);
    NonEmptyFixed(lines);
    assert Split(Join(lines)) == lines + [[]];
  }

  /** A journal's bytes load again, to exactly the records they were written from. */
  lemma StoredLoads(env: Env, id: string, records: seq<Record>, maxBytes: nat)
    requires Sound(env) && IsHex(id, 32) && Storable(env, records)
    requires StoredBytes(env, id, records) <= maxBytes <= HARD_MAX_JOURNAL_BYTES
    ensures Load(env, maxBytes, Stored(env, id, records))
            == Ok(Loaded(Some(id), records, [HeaderLine(env, id)] + RecordLines(env, records)))
  {
    var lines := [HeaderLine(env, id)] + RecordLines(env, records);
    HeaderReadsBack(env, id);
    RecordsReadBack(env, records);
    LinesAreClean(env, id, records);
    assert lines[1..] == RecordLines(env, records);
    JoinLoads(env, lines, id, records, maxBytes);
  }

  // ---------------------------------------------------------------------------
  // Retention
  // ---------------------------------------------------------------------------

  predicate Fits(header: nat, lines: seq<seq<byte>>, maxEvents: nat, maxBytes: nat) {
    |lines| <= maxEvents && header + TotalBytes(lines) <= maxBytes
  }

  /** How many oldest lines go: drop one at a time until the bounds hold, but
      never the last. */
  function DropCount(header: nat, lines: seq<seq<byte>>, maxEvents: nat, maxBytes: nat): (k: nat)
    ensures k <= |lines| && (lines != [] ==> k < |lines|)
  {
    if Fits(header, lines, maxEvents, maxBytes) || |lines| <= 1 then 0
    else 1 + DropCount(header, lines[1..], maxEvents, maxBytes)
  }

  method Retain(lines: seq<seq<byte>>, line: seq<byte>, maxEvents: nat, maxBytes: nat)
    returns (kept: seq<seq<byte>>, dropped: bool)
    requires lines != []
    ensures var records := lines[1..] + [line];
            var k := DropCount(|lines[0]| + 1, records, maxEvents, maxBytes);
            kept == [lines[0]] + records[k..] && dropped == (k > 0)
  {
    kept := lines + [line];
    ghost var records := lines[1..] + [line];
    ghost var header := |lines[0]| + 1;
    var total := 0;
    for i := 0 to |kept|
      invariant total == TotalBytes(kept[..i])
    {
      total := total + |kept[i]| + 1;
      JoinConcat(kept[..i], [kept[i]]);
      assert kept[..i + 1] == kept[..i] + [kept[i]];
    }
    assert kept[..|kept|] == kept && kept[1..] == records;
    dropped := false;
    ghost var k := 0;
    while |kept| - 1 > maxEvents || total > maxBytes
      invariant 0 <= k < |records| && kept == [lines[0]] + records[k..] && total == header + TotalBytes(records[k..])
      invariant dropped == (k > 0)
      invariant DropCount(header, records, maxEvents, maxBytes) == k + DropCount(header, records[k..], maxEvents, maxBytes)
      decreases |kept|
    {
      if |kept| <= 2 {
        break;
      }
      assert records[k..][1..] == records[k + 1..];
      total := total - (|kept[1]| + 1);
      kept := kept[..1] + kept[2..];
      dropped := true;
      k := k + 1;
    }
  }

  /** Whenever the newest line fits on its own, retention keeps the longest suffix
      that meets both bounds: the early exit never leaves one violated. */
  lemma {:induction false} RetainsLongestSuffix(header: nat, lines: seq<seq<byte>>, maxEvents: nat, maxBytes: nat)
    requires lines != [] && Fits(header, [Last(lines)], maxEvents, maxBytes)
    ensures var k := DropCount(header, lines, maxEvents, maxBytes);
            && Fits(header, lines[k..], maxEvents, maxBytes)
            && forall j :: 0 <= j < k ==> !Fits(header, lines[j..], maxEvents, maxBytes)
  {
    if |lines| == 1 {
      assert lines == [Last(lines)];
    }
    if !Fits(header, lines, maxEvents, maxBytes) {
      var k := DropCount(header, lines[1..], maxEvents, maxBytes);
      RetainsLongestSuffix(header, lines[1..], maxEvents, maxBytes);
      assert lines[k + 1..] == lines[1..][k..];
      forall j | 0 <= j < k + 1
        ensures !Fits(header, lines[j..], maxEvents, maxBytes)
      {
        if j > 0 {
          assert lines[j..] == lines[1..][j - 1..];
        }
      }
    }
  }

  // ---------------------------------------------------------------------------
  // Selecting a page
  // ---------------------------------------------------------------------------

  datatype Selection = Selection(records: seq<Record>, remaining: bool)

  /** The selection from here on, `chosen` already taken at a cost of `used`. */
  function SelectFrom(env: Env, records: seq<Record>, after: int, limit: nat, maxBytes: nat, chosen: seq<Record>,
                      used: nat): Result<Selection, JournalError>
  {
    if records == [] then Ok(Selection(chosen, false))
    else if records[0].sequence <= after then SelectFrom(env, records[1..], after, limit, maxBytes, chosen, used)
    else if |chosen| >= limit then Ok(Selection(chosen, true))
    else if used + RecordByteSize(env, records[0]) > maxBytes then
      if chosen == [] then Err(RecordOverBound) else Ok(Selection(chosen, true))
    else SelectFrom(env, records[1..], after, limit, maxBytes, chosen + [records[0]], used + RecordByteSize(env, records[0]))
  }

  function Select(env: Env, records: seq<Record>, after: int, limit: nat, maxBytes: nat): Result<Selection, JournalError> {
    SelectFrom(env, records, after, limit, maxBytes, [], 0)
  }

  method SelectPage(env: Env, records: seq<Record>, after: int, limit: nat, maxBytes: nat)
    returns (r: Result<Selection, JournalError>)
    ensures r == Select(env, records, after, limit, maxBytes)
  {
    var selected: seq<Record> := [];
    var used: nat := 0;
    for i := 0 to |records|
      invariant Select(env, records, after, limit, maxBytes)
                == SelectFrom(env, records[i..], after, limit, maxBytes, selected, used)
    {
      assert records[i..][1..] == records[i + 1..];
      if records[i].sequence <= after {
        continue;
      }
      if |selected| >= limit {
        return Ok(Selection(selected, true));
      }
      var size := RecordByteSize(env, records[i]);
      if used + size > maxBytes {
        if selected == [] {
          return Err(RecordOverBound);
        }
        return Ok(Selection(selected, true));
      }
      selected := selected + [records[i]];
      used := used + size;
    }
    return Ok(Selection(selected, false));
  }

  /** The records of a contiguous run after a position. */
  function Waiting(records: seq<Record>, after: int): seq<Record> {
    if records == [] || records[0].sequence > after then records else Waiting(records[1..], after)
  }

  function LargestPage(env: Env, waiting: seq<Record>, limit: nat, maxBytes: nat): (n: nat)
    ensures n <= |waiting|
  {
    if waiting == [] || limit == 0 || RecordByteSize(env, waiting[0]) > maxBytes then 0
    else 1 + LargestPage(env, waiting[1..], limit - 1, maxBytes - RecordByteSize(env, waiting[0]))
  }

  lemma {:induction false} SelectTakesPage(env: Env, waiting: seq<Record>, after: int, limit: nat, maxBytes: nat,
                                           chosen: seq<Record>, used: nat)
    requires Contiguous(waiting) && (waiting != [] ==> after < waiting[0].sequence)
    requires |chosen| <= limit && used <= maxBytes
    requires chosen == [] && waiting != [] ==> 1 <= limit && used + RecordByteSize(env, waiting[0]) <= maxBytes
    ensures var n := LargestPage(env, waiting, limit - |chosen|, maxBytes - used);
            SelectFrom(env, waiting, after, limit, maxBytes, chosen, used)
            == Ok(Selection(chosen + waiting[..n], n < |waiting|))
  {
    if waiting != [] && |chosen| < limit && used + RecordByteSize(env, waiting[0]) <= maxBytes {
      assert Contiguous(waiting[1..]) by {
        assert forall i :: 0 < i < |waiting[1..]| ==> waiting[1..][i] == waiting[i + 1];
      }
      SelectTakesPage(env, waiting[1..], after, limit, maxBytes, chosen + [waiting[0]],
                      used + RecordByteSize(env, waiting[0]));
      var m := LargestPage(env, waiting[1..], limit - |chosen| - 1, maxBytes - used - RecordByteSize(env, waiting[0]));
      assert chosen + [waiting[0]] + waiting[1..][..m] == chosen + waiting[..m + 1];
    } else {
      assert chosen + waiting[..0] == chosen;
    }
  }

  lemma SelectTakesLargestPage(env: Env, waiting: seq<Record>, after: int, limit: nat, maxBytes: nat)
    requires Contiguous(waiting) && (waiting != [] ==> after < waiting[0].sequence)
    requires waiting != [] ==> 1 <= limit && RecordByteSize(env, waiting[0]) <= maxBytes
    ensures var n := LargestPage(env, waiting, limit, maxBytes);
            && Select(env, waiting, after, limit, maxBytes) == Ok(Selection(waiting[..n], n < |waiting|))
            && (waiting != [] ==> 1 <= n)
  {
    SelectTakesPage(env, waiting, after, limit, maxBytes, [], 0);
    var n := LargestPage(env, waiting, limit, maxBytes);
    assert [] + waiting[..n] == waiting[..n];
  }

  /** Records at or before the position are passed over. */
  lemma {:induction false} SelectSkips(env: Env, records: seq<Record>, after: int, limit: nat, maxBytes: nat)
    requires Contiguous(records)
    ensures var w := Waiting(records, after);
            && Contiguous(w) && (w != [] ==> after < w[0].sequence) && |w| <= |records|
            && w == records[|records| - |w|..]
            && (forall r :: r in records && after < r.sequence ==> r in w)
            && Select(env, records, after, limit, maxBytes) == Select(env, w, after, limit, maxBytes)
  {
    if records != [] && records[0].sequence <= after {
      assert Contiguous(records[1..]) by {
        assert forall i :: 0 < i < |records[1..]| ==> records[1..][i] == records[i + 1];
      }
      SelectSkips(env, records[1..], after, limit, maxBytes);
      var w := Waiting(records[1..], after);
      assert records[|records| - |w|..] == records[1..][|records| - 1 - |w|..];
    }
  }

  /** A page is the largest run of waiting records within both bounds: it never
      exceeds either, and one more record would. */
  lemma {:induction false} PageIsLargest(env: Env, waiting: seq<Record>, limit: nat, maxBytes: nat)
    ensures var n := LargestPage(env, waiting, limit, maxBytes);
            && n <= limit && PageBytes(env, waiting[..n]) <= maxBytes
            && (n < |waiting| ==> n == limit || PageBytes(env, waiting[..n + 1]) > maxBytes)
  {
    if waiting == [] || limit == 0 || RecordByteSize(env, waiting[0]) > maxBytes {
      if waiting != [] {
        assert RecordLines(env, waiting[..1]) == [RecordLine(env, waiting[0])];
      }
    } else {
      var n := LargestPage(env, waiting, limit, maxBytes);
      PageIsLargest(env, waiting[1..], limit - 1, maxBytes - RecordByteSize(env, waiting[0]));
      PageBytesSplit(env, waiting, n);
      if n < |waiting| {
        PageBytesSplit(env, waiting, n + 1);
      }
    }
  }

  lemma PageBytesSplit(env: Env, waiting: seq<Record>, n: nat)
    requires 1 <= n <= |waiting|
    ensures PageBytes(env, waiting[..n]) == RecordByteSize(env, waiting[0]) + PageBytes(env, waiting[1..][..n - 1])
  {
    assert RecordLines(env, waiting[..n])[1..] == RecordLines(env, waiting[1..][..n - 1]);
  }
}
