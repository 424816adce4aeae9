/** A reader resuming from the cursors a journal hands out, over every interleaving
    with appends and retention, and a reader draining a journal nobody appends to.

    The runs are proved from what one export promises (`Promises`), so that no
    byte or cursor text is in sight; the last lemmas say the journal keeps it. */
module JournalReader {
  import opened Wrappers
  import opened Decimal
  import opened Cursor
  import opened Journal
  import opened JournalStore
  import opened JournalPages

  /** An exporting journal as its reader sees it: which journals there may be, which
      cursors were issued for which position, what an export returns and costs. */
  datatype Service = Service(
    known: Written -> bool,
    issued: (Written, string, nat) -> bool,
    export_: (Written, string, int, int) -> Result<Page, JournalError>,
    cost: seq<Record> -> nat)

  /** A page of what is left after a position, its cost within the bound. */
  ghost predicate IsNextPage(s: Service, j: Written, position: nat, limit: int, maxBytes: int, page: Page)
    requires j.dropped <= |j.history| && position <= |j.history|
  {
    var from, n := From(j, position), |page.records|;
    && from + n <= |j.history| && page.records == j.history[from..from + n]
    && n <= limit && s.cost(page.records) <= maxBytes
    && (from < |j.history| ==> 1 <= n)
    && page.complete == (from + n == |j.history|) && page.gap == (position < from && n > 0)
    && s.issued(j, page.nextCursor, from + n)
  }

  /** Known journals number their records and keep the newest. */
  ghost predicate NumbersRecords(s: Service) {
    forall j :: s.known(j) ==> j.dropped < |j.history| && Numbered(j.history)
  }

  ghost predicate IssuesWithin(s: Service) {
    forall j, cursor, position: nat :: s.known(j) && s.issued(j, cursor, position) ==> position <= |j.history|
  }

  /** An export from an issued cursor succeeds, with the next page. */
  ghost predicate Serves(s: Service, j: Written, cursor: string, position: nat, limit: int, maxBytes: int) {
    && s.export_(j, cursor, limit, maxBytes).Ok?
    && position <= |j.history| && j.dropped <= |j.history|
    && IsNextPage(s, j, position, limit, maxBytes, s.export_(j, cursor, limit, maxBytes).value)
  }

  ghost predicate ServesIssued(s: Service) {
    forall j, cursor, position: nat, limit, maxBytes {:trigger Serves(s, j, cursor, position, limit, maxBytes)} ::
      s.known(j) && s.issued(j, cursor, position) && LegalBounds(limit, maxBytes) ==>
        Serves(s, j, cursor, position, limit, maxBytes)
  }

  /** A cursor stays issued as its journal grows. */
  ghost predicate KeepsIssued(s: Service) {
    forall j, k, cursor, position: nat {:trigger Extends(j, k), s.issued(j, cursor, position)} ::
      s.known(j) && s.known(k) && Extends(j, k) && s.issued(j, cursor, position) ==> s.issued(k, cursor, position)
  }

  ghost predicate Promises(s: Service) {
    NumbersRecords(s) && IssuesWithin(s) && ServesIssued(s) && KeepsIssued(s)
  }

  ghost predicate Numbered(history: seq<Record>) {
    forall i :: 0 <= i < |history| ==> history[i].sequence == i + 1
  }

  /** The same journal later: more appended, perhaps more dropped. */
  ghost predicate Extends(j: Written, k: Written) {
    k.id == j.id && j.history <= k.history && j.dropped <= k.dropped
  }

  // ---------------------------------------------------------------------------
  // Interleavings of appends and reads
  // ---------------------------------------------------------------------------

  /** What the journal becomes by an append, or one export by the reader. */
  datatype Action = Append(journal: Written) | ReadPage(limit: int, maxBytes: int)

  /** A journal and one reader of it: its cursor, what it has been handed, and
      whether any page said that records were skipped. */
  datatype World = World(j: Written, cursor: string, delivered: seq<Record>, sawGap: bool)

  /** An append adds one record and may drop older ones. */
  ghost predicate Legal(s: Service, w: World, a: Action) {
    match a
    case Append(k) => s.known(k) && Extends(w.j, k) && |k.history| == |w.j.history| + 1
    case ReadPage(limit, maxBytes) => LegalBounds(limit, maxBytes)
  }

  function Next(s: Service, w: World, a: Action): Result<World, JournalError> {
    match a
    case Append(k) => Ok(w.(j := k))
    case ReadPage(limit, maxBytes) =>
      var page :- s.export_(w.j, w.cursor, limit, maxBytes);
      Ok(World(w.j, page.nextCursor, w.delivered + page.records, w.sawGap || page.gap))
  }

  predicate Increasing(records: seq<Record>) {
    forall i, k :: 0 <= i < k < |records| ==> records[i].sequence < records[k].sequence
  }

  /** What holds between any two actions: the reader stands at `position`; it was
      handed, in order, only what was appended; anything up to there that it was
      not handed is gone and a page said so. */
  ghost predicate Consistent(s: Service, w: World, position: nat) {
    && s.known(w.j) && s.issued(w.j, w.cursor, position)
    && Faithful(w.j, w.delivered, w.sawGap, position)
  }

  ghost predicate Faithful(j: Written, delivered: seq<Record>, sawGap: bool, position: nat) {
    && position <= |j.history| && Increasing(delivered) && WasAppended(j, delivered, position)
    && MissingIsGone(j, delivered, sawGap, position)
    && (!sawGap ==> delivered == j.history[..position])
  }

  ghost predicate WasAppended(j: Written, delivered: seq<Record>, position: nat)
    requires position <= |j.history|
  {
    forall r :: r in delivered ==> 1 <= r.sequence <= position && r == j.history[r.sequence - 1]
  }

  ghost predicate MissingIsGone(j: Written, delivered: seq<Record>, sawGap: bool, position: nat)
    requires position <= |j.history|
  {
    forall i :: 0 <= i < position && j.history[i] !in delivered ==> i < j.dropped && sawGap
  }

  lemma AppendKeepsFaith(j: Written, k: Written, delivered: seq<Record>, sawGap: bool, position: nat)
    requires Faithful(j, delivered, sawGap, position) && Extends(j, k)
    ensures Faithful(k, delivered, sawGap, position)
  {
    assert forall i :: 0 <= i < |j.history| ==> k.history[i] == j.history[i];
    assert k.history[..position] == j.history[..position];
  }

  lemma PageIsNumbered(j: Written, from: nat, n: nat)
    requires Numbered(j.history) && from + n <= |j.history|
    ensures forall r :: r in j.history[from..from + n] ==> from < r.sequence <= from + n && r == j.history[r.sequence - 1]
    ensures Increasing(j.history[from..from + n])
  {
    var page := j.history[from..from + n];
    assert forall i :: 0 <= i < n ==> page[i] == j.history[from + i] && page[i].sequence == from + i + 1;
  }

  lemma IncreasingConcat(a: seq<Record>, b: seq<Record>, position: int)
    requires Increasing(a) && Increasing(b)
    requires (forall r :: r in a ==> r.sequence <= position) && (forall r :: r in b ==> position < r.sequence)
    ensures Increasing(a + b)
  {
    forall i, k | 0 <= i < k < |a + b|
      ensures (a + b)[i].sequence < (a + b)[k].sequence
    {
      if i < |a| <= k {
        assert a[i] in a && b[k - |a|] in b;
      }
    }
  }

  lemma PageInOrder(j: Written, delivered: seq<Record>, position: nat, from: nat, n: nat)
    requires Numbered(j.history) && position <= from && from + n <= |j.history|
    requires Increasing(delivered) && WasAppended(j, delivered, position)
    ensures Increasing(delivered + j.history[from..from + n])
    ensures WasAppended(j, delivered + j.history[from..from + n], from + n)
  {
    PageIsNumbered(j, from, n);
    IncreasingConcat(delivered, j.history[from..from + n], position);
  }

  lemma InPage(j: Written, from: nat, n: nat, i: nat)
    requires from <= i < from + n <= |j.history|
    ensures j.history[i] in j.history[from..from + n]
  {
    assert j.history[from..from + n][i - from] == j.history[i];
  }

  /** What is missing after a page was missing before, or lies in what retention
      dropped ahead of the page. */
  lemma PageAccountsForMissing(j: Written, delivered: seq<Record>, sawGap: bool, position: nat, n: nat)
    requires position <= |j.history| && From(j, position) + n <= |j.history| && j.dropped < |j.history|
    requires MissingIsGone(j, delivered, sawGap, position) && (From(j, position) < |j.history| ==> 1 <= n)
    ensures var from := From(j, position);
            MissingIsGone(j, delivered + j.history[from..from + n], sawGap || (position < from && n > 0), from + n)
  {
    var from := From(j, position);
    forall i | 0 <= i < from + n && j.history[i] !in delivered + j.history[from..from + n]
      ensures i < j.dropped && (sawGap || (position < from && n > 0))
    {
      if i >= from {
        InPage(j, from, n, i);
      } else if i < position {
        assert j.history[i] !in delivered;
      }
    }
  }

  /** Handing over the next page keeps the reader's account straight. */
  lemma PageKeepsFaith(j: Written, delivered: seq<Record>, sawGap: bool, position: nat, n: nat)
    requires Faithful(j, delivered, sawGap, position) && Numbered(j.history) && j.dropped < |j.history|
    requires From(j, position) + n <= |j.history| && (From(j, position) < |j.history| ==> 1 <= n)
    ensures var from := From(j, position);
            Faithful(j, delivered + j.history[from..from + n], sawGap || (position < from && n > 0), from + n)
  {
    hide Numbered, Increasing, WasAppended, MissingIsGone;
    var from := From(j, position);
    PageInOrder(j, delivered, position, from, n);
    PageAccountsForMissing(j, delivered, sawGap, position, n);
    if !sawGap && position == from {
      assert j.history[..position] + j.history[from..from + n] == j.history[..from + n];
    }
  }

  ghost predicate AllLegal(s: Service, w: World, actions: seq<Action>)
    decreases actions
  {
    if actions == [] then true
    else
      && Legal(s, w, actions[0])
      && (Next(s, w, actions[0]).Ok? ==> AllLegal(s, Next(s, w, actions[0]).value, actions[1..]))
  }

  function AfterAll(s: Service, w: World, actions: seq<Action>): Result<World, JournalError>
    decreases actions
  {
    if actions == [] then Ok(w)
    else
      var next :- Next(s, w, actions[0]);
      AfterAll(s, next, actions[1..])
  }

  lemma ReadKeeps(s: Service, w: World, position: nat, limit: int, maxBytes: int)
    requires Numbered(w.j.history) && w.j.dropped < |w.j.history|
    requires Consistent(s, w, position) && Serves(s, w.j, w.cursor, position, limit, maxBytes)
    ensures var next := Next(s, w, ReadPage(limit, maxBytes));
            next.Ok? && exists later: nat :: position <= later && Consistent(s, next.value, later)
  {
    hide Faithful, Numbered;
    var page := s.export_(w.j, w.cursor, limit, maxBytes).value;
    var later := From(w.j, position) + |page.records|;
    PageKeepsFaith(w.j, w.delivered, w.sawGap, position, |page.records|);
    assert Consistent(s, Next(s, w, ReadPage(limit, maxBytes)).value, later);
  }

  lemma ActionKeeps(s: Service, w: World, position: nat, a: Action) returns (later: nat)
    requires Promises(s) && Consistent(s, w, position) && Legal(s, w, a)
    ensures Next(s, w, a).Ok? && Consistent(s, Next(s, w, a).value, later) && position <= later
  {
    hide Faithful, Numbered, Serves;
    match a
    case Append(k) =>
      AppendKeepsFaith(w.j, k, w.delivered, w.sawGap, position);
      later := position;
    case ReadPage(limit, maxBytes) =>
      assert Serves(s, w.j, w.cursor, position, limit, maxBytes);
      ReadKeeps(s, w, position, limit, maxBytes);
      later :| position <= later && Consistent(s, Next(s, w, a).value, later);
  }

  /** Over every interleaving of appends (with retention) and reads, no issued
      cursor is refused, what arrives is in order and is what was appended,
      whatever was skipped had been dropped and a page said so, and without a gap
      the reader holds exactly the records up to its cursor. */
  lemma {:induction false} ReaderIsNeverMisled(s: Service, w: World, position: nat, actions: seq<Action>)
    returns (later: nat)
    requires Promises(s) && Consistent(s, w, position) && AllLegal(s, w, actions)
    ensures AfterAll(s, w, actions).Ok? && Consistent(s, AfterAll(s, w, actions).value, later) && position <= later
    decreases actions
  {
    if actions == [] {
      later := position;
    } else {
      var middle := ActionKeeps(s, w, position, actions[0]);
      later := ReaderIsNeverMisled(s, Next(s, w, actions[0]).value, middle, actions[1..]);
    }
  }

  // ---------------------------------------------------------------------------
  // Draining a journal nobody appends to
  // ---------------------------------------------------------------------------

  /** Exporting again from each returned cursor until a page says it is complete
      yields these pages. */
  ghost predicate Drains(s: Service, j: Written, cursor: string, limit: int, maxBytes: int, pages: seq<Page>)
    decreases |pages|
  {
    && pages != [] && s.export_(j, cursor, limit, maxBytes) == Ok(pages[0])
    && (if pages[0].complete then |pages| == 1 else Drains(s, j, pages[0].nextCursor, limit, maxBytes, pages[1..]))
  }

  function AllRecords(pages: seq<Page>): seq<Record> {
    if pages == [] then [] else pages[0].records + AllRecords(pages[1..])
  }

  /** Draining ends. */
  lemma {:induction false} DrainTerminates(s: Service, j: Written, cursor: string, position: nat, limit: int, maxBytes: int)
    returns (pages: seq<Page>)
    requires Promises(s) && s.known(j) && s.issued(j, cursor, position) && LegalBounds(limit, maxBytes)
    ensures position <= |j.history| && j.dropped <= |j.history|
    ensures Drains(s, j, cursor, limit, maxBytes, pages) && |pages| <= 1 + |j.history| - From(j, position)
    decreases |j.history| - position
  {
    assert Serves(s, j, cursor, position, limit, maxBytes);
    var page := s.export_(j, cursor, limit, maxBytes).value;
    if page.complete {
      pages := [page];
    } else {
      var rest := DrainTerminates(s, j, page.nextCursor, From(j, position) + |page.records|, limit, maxBytes);
      pages := [page] + rest;
      assert pages[1..] == rest;
    }
  }

  /** A drain hands over exactly the retained records after the cursor in order,
      keeps every page within its bounds, and has no empty page while a record
      waits. */
  lemma {:induction false} DrainIsComplete(s: Service, j: Written, cursor: string, position: nat, limit: int, maxBytes: int,
                                           pages: seq<Page>)
    requires Promises(s) && s.known(j) && s.issued(j, cursor, position) && LegalBounds(limit, maxBytes)
    requires Drains(s, j, cursor, limit, maxBytes, pages)
    ensures position <= |j.history| && j.dropped <= |j.history|
    ensures AllRecords(pages) == j.history[From(j, position)..]
    ensures forall p :: p in pages ==> |p.records| <= limit && s.cost(p.records) <= maxBytes
    ensures From(j, position) < |j.history| ==> forall p :: p in pages ==> p.records != []
    decreases |pages|
  {
    assert Serves(s, j, cursor, position, limit, maxBytes);
    var n, from := |pages[0].records|, From(j, position);
    if pages[0].complete {
      assert pages == [pages[0]] && pages[0].records + AllRecords([]) == pages[0].records;
    } else {
      DrainIsComplete(s, j, pages[0].nextCursor, from + n, limit, maxBytes, pages[1..]);
      assert pages == [pages[0]] + pages[1..];
      assert j.history[from..from + n] + j.history[from + n..] == j.history[from..];
    }
  }

  // ---------------------------------------------------------------------------
  // The journal keeps the promise
  // ---------------------------------------------------------------------------

  /** The journal as a service, for as long as positions fit a cursor. */
  ghost function Serving(env: Env): Service {
    Service(
      (j: Written) => IsWritten(env, j) && |j.history| < Pow10(MAX_POSITION_DIGITS),
      (j: Written, cursor: string, position: nat) => IssuedAt(env, j, cursor, position),
      (j: Written, cursor: string, limit: int, maxBytes: int) =>
        if j.dropped <= |j.history| then ExportOf(env, Some(j.id), Retained(j), cursor, limit, maxBytes)
        else Err(BadRecord),
      (records: seq<Record>) => PageBytes(env, records))
  }

  lemma JournalServesIssued(env: Env)
    ensures ServesIssued(Serving(env))
  {
    var s := Serving(env);
    forall j, cursor, position: nat, limit, maxBytes |
      s.known(j) && s.issued(j, cursor, position) && LegalBounds(limit, maxBytes)
      ensures Serves(s, j, cursor, position, limit, maxBytes)
    {
      JournalServes(env, j, cursor, position, limit, maxBytes);
    }
  }

  lemma JournalServes(env: Env, j: Written, cursor: string, position: nat, limit: int, maxBytes: int)
    requires IsWritten(env, j) && |j.history| < Pow10(MAX_POSITION_DIGITS)
    requires IssuedAt(env, j, cursor, position) && LegalBounds(limit, maxBytes)
    ensures Serves(Serving(env), j, cursor, position, limit, maxBytes)
  {
    hide ExportOf, IssuedAt, IsWritten, IsPageAfter, IsNextPage, Pow10, From, Retained, LegalBounds, Serves, Serving;
    IssuedIsWithin(env, j, cursor, position);
    BoundsArePositive(limit, maxBytes);
    PowersGrow(MAX_POSITION_DIGITS, MAX_RECORD_DIGITS);
    ExportGivesRest(env, j, cursor, position, limit, maxBytes);
    var page := ExportOf(env, Some(j.id), Retained(j), cursor, limit, maxBytes).value;
    PageIsNext(env, j, position, limit, maxBytes, page);
    ServingExports(env, j, cursor, limit, maxBytes);
    ServesWhen(Serving(env), j, cursor, position, limit, maxBytes, page);
  }

  lemma ServingExports(env: Env, j: Written, cursor: string, limit: int, maxBytes: int)
    requires j.dropped <= |j.history|
    ensures Serving(env).export_(j, cursor, limit, maxBytes)
            == ExportOf(env, Some(j.id), Retained(j), cursor, limit, maxBytes)
  {
    hide ExportOf;
  }

  lemma ServesWhen(s: Service, j: Written, cursor: string, position: nat, limit: int, maxBytes: int, page: Page)
    requires position <= |j.history| && j.dropped <= |j.history|
    requires s.export_(j, cursor, limit, maxBytes) == Ok(page) && IsNextPage(s, j, position, limit, maxBytes, page)
    ensures Serves(s, j, cursor, position, limit, maxBytes)
  {
  }

  lemma JournalKeepsIssued(env: Env)
    ensures KeepsIssued(Serving(env))
  {
    var s := Serving(env);
    forall j, k, cursor, position: nat |
      s.known(j) && s.known(k) && Extends(j, k) && s.issued(j, cursor, position)
      ensures s.issued(k, cursor, position)
    {
      IssuedStays(env, j, k, cursor, position);
    }
  }

  /** For as long as positions fit a cursor, the journal is such a service. */
  lemma JournalKeepsPromises(env: Env)
    ensures Promises(Serving(env))
  {
    JournalServesIssued(env);
    JournalKeepsIssued(env);
  }

  lemma PageIsNext(env: Env, j: Written, position: nat, limit: int, maxBytes: int, page: Page)
    requires j.dropped <= |j.history| && position <= |j.history| && 0 <= limit && 0 <= maxBytes
    requires IsPageAfter(env, j, position, limit, maxBytes, page)
    requires IssuedAt(env, j, page.nextCursor, From(j, position) + |page.records|)
    ensures IsNextPage(Serving(env), j, position, limit, maxBytes, page)
  {
  }

  lemma IssuedStays(env: Env, j: Written, k: Written, cursor: string, position: nat)
    requires Extends(j, k) && IssuedAt(env, j, cursor, position)
    ensures IssuedAt(env, k, cursor, position)
  {
    assert HashAt(k, position) == HashAt(j, position) by {
      if position > 0 {
        assert k.history[position - 1] == j.history[position - 1];
      }
    }
  }

  lemma NewReader(env: Env, j: Written)
    requires IsWritten(env, j) && |j.history| < Pow10(MAX_POSITION_DIGITS)
    ensures Consistent(Serving(env), World(j, "", [], false), 0)
  {
  }
}
