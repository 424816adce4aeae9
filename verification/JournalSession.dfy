/** The journal object and one reader of it: what the object does is the run the
    reader's theorems are about. */
module JournalSession {
  import opened Wrappers
  import opened Decimal
  import opened DeviceEvent
  import opened Cursor
  import opened Journal
  import opened JournalStore
  import opened JournalPages
  import opened JournalReader

  /** What a device and a reader ask of the journal, in any order. */
  datatype Request = Deliver(raw: Json, freshId: string) | Fetch(limit: int, maxBytes: int)

  /** A request a caller may make: identities are drawn by the program itself. */
  ghost predicate IsRequest(q: Request) {
    match q
    case Deliver(_, freshId) => IsHex(freshId, 32)
    case Fetch(limit, maxBytes) => LegalBounds(limit, maxBytes)
  }

  /** The journal as its reader sees it. */
  ghost function Seen(journal: DeviceEventJournal): Written
    reads journal
  {
    Written(journal.id, journal.history, journal.dropped)
  }

  ghost function WorldOf(journal: DeviceEventJournal, cursor: string, delivered: seq<Record>, sawGap: bool): World
    reads journal
  {
    World(Seen(journal), cursor, delivered, sawGap)
  }

  lemma WrittenIsKnown(journal: DeviceEventJournal)
    requires journal.Valid() && journal.file != [] && |journal.history| < Pow10(MAX_POSITION_DIGITS)
    ensures Serving(journal.env).known(Seen(journal)) && IsWritten(journal.env, Seen(journal))
  {
    hide Sound, Stored, RecordsFit, IsHistory;
  }

  /** An append of the object is an append of the reader's world, or changes nothing. */
  method Append(journal: DeviceEventJournal, raw: Json, freshId: string, ghost w: World)
    returns (r: Result<Record, JournalError>)
    requires journal.Valid() && journal.file != [] && IsHex(freshId, 32) && w.j == Seen(journal)
    requires |journal.history| + 1 < Pow10(MAX_POSITION_DIGITS)
    modifies journal
    ensures journal.Valid() && journal.file != [] && |journal.history| <= |old(journal.history)| + 1
    ensures if r.Ok? then Legal(Serving(journal.env), w, Action.Append(Seen(journal))) else Seen(journal) == w.j
  {
    r := journal.Append(raw, freshId);
    if r.Ok? {
      WrittenIsKnown(journal);
    }
  }

  /** An export of the object is the one its reader is served. */
  method Export(journal: DeviceEventJournal, cursor: string, limit: int, maxBytes: int) returns (r: Result<Page, JournalError>)
    requires journal.Valid() && journal.file != []
    ensures r == Serving(journal.env).export_(Seen(journal), cursor, limit, maxBytes)
  {
    r := journal.Export(cursor, limit, maxBytes);
  }

  /** A reader's cursor, what it was handed and whether it saw a gap. */
  datatype Reader = Reader(cursor: string, delivered: seq<Record>, sawGap: bool)

  ghost predicate ReaderIsRight(journal: DeviceEventJournal, reader: Reader, position: nat)
    reads journal
  {
    Consistent(Serving(journal.env), WorldOf(journal, reader.cursor, reader.delivered, reader.sawGap), position)
  }

  /** One request on a written journal keeps its reader consistent. */
  method Step(journal: DeviceEventJournal, q: Request, reader: Reader, ghost position: nat)
    returns (next: Reader, ghost later: nat)
    requires journal.Valid() && journal.file != [] && |journal.history| + 1 < Pow10(MAX_POSITION_DIGITS)
    requires IsRequest(q) && ReaderIsRight(journal, reader, position) && Promises(Serving(journal.env))
    modifies journal
    ensures journal.Valid() && journal.file != [] && |journal.history| <= |old(journal.history)| + 1
    ensures ReaderIsRight(journal, next, later) && position <= later
  {
    hide Serving, Promises, Consistent, Pow10, DeviceEventJournal.Valid;
    ghost var w := WorldOf(journal, reader.cursor, reader.delivered, reader.sawGap);
    ghost var s := Serving(journal.env);
    next, later := reader, position;
    match q {
      case Deliver(raw, freshId) =>
        var appended := Append(journal, raw, freshId, w);
        if appended.Ok? {
          later := ActionKeeps(s, w, position, Action.Append(Seen(journal)));
        }
      case Fetch(limit, maxBytes) =>
        later := ActionKeeps(s, w, position, ReadPage(limit, maxBytes));
        var page := Export(journal, reader.cursor, limit, maxBytes);
        next := Reader(page.value.nextCursor, reader.delivered + page.value.records, reader.sawGap || page.value.gap);
    }
  }

  /** Any sequence of deliveries and fetches on a written journal: no fetch fails,
      and the reader is never misled. */
  method Run(journal: DeviceEventJournal, requests: seq<Request>) returns (reader: Reader, ghost position: nat)
    requires journal.Valid() && journal.file != [] && |journal.history| + |requests| < Pow10(MAX_POSITION_DIGITS)
    requires forall q :: q in requests ==> IsRequest(q)
    modifies journal
    ensures journal.Valid() && ReaderIsRight(journal, reader, position)
  {
    reader, position := Reader("", [], false), 0;
    WrittenIsKnown(journal);
    NewReader(journal.env, Seen(journal));
    JournalKeepsPromises(journal.env);
    hide Serving, Promises, Consistent, Pow10, IsWritten, DeviceEventJournal.Valid, IsRequest;
    for i := 0 to |requests|
      invariant journal.Valid() && journal.file != [] && ReaderIsRight(journal, reader, position)
      invariant |journal.history| + |requests| - i < Pow10(MAX_POSITION_DIGITS)
    {
      assert requests[i] in requests;
      reader, position := Step(journal, requests[i], reader, position);
    }
  }
}
