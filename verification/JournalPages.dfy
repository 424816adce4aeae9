/** What one export gives a reader, said of the history rather than the file. */
module JournalPages {
  import opened Wrappers
  import opened Decimal
  import opened Lines
  import opened DeviceEvent
  import opened Cursor
  import opened Journal
  import opened JournalStore

  /** The event contract itself as the journal's environment. */
  function ContractEnv(checks: Checks, encode: Json -> seq<byte>, decode: seq<byte> -> Option<Json>, tag: Tagger): Env {
    Env(raw => ParseEvent(checks, raw), e => EventJson(e), encode, decode, tag)
  }

  /** The contract meets the journal's laws: what it parses is stored small enough
      and reads back as itself. */
  lemma ContractIsSound(checks: Checks, encode: Json -> seq<byte>, decode: seq<byte> -> Option<Json>, tag: Tagger)
    requires var env := ContractEnv(checks, encode, decode, tag);
             IsTagger(tag) && EncodesCanonically(env) && DecodesBack(env)
    requires !checks.secret("") && (forall b :: IsHex(checks.hash(b), 64)) && (forall j :: checks.size(j) == |encode(j)|)
    ensures Sound(ContractEnv(checks, encode, decode, tag))
  {
    var env := ContractEnv(checks, encode, decode, tag);
    forall raw | env.parse(raw).Ok?
      ensures IsStored(env, env.parse(raw).value)
    {
      ParsedIsStored(checks, encode, decode, tag, raw);
    }
  }

  lemma ParsedIsStored(checks: Checks, encode: Json -> seq<byte>, decode: seq<byte> -> Option<Json>, tag: Tagger, raw: Json)
    requires !checks.secret("") && (forall b :: IsHex(checks.hash(b), 64)) && (forall j :: checks.size(j) == |encode(j)|)
    requires ParseEvent(checks, raw).Ok?
    ensures IsStored(ContractEnv(checks, encode, decode, tag), ParseEvent(checks, raw).value)
  {
    ParseIdempotent(checks, raw);
    ParsedIsBound(checks, raw);
    var env, e := ContractEnv(checks, encode, decode, tag), ParseEvent(checks, raw).value;
    assert env.write(e) == EventJson(e);
    assert env.parse(EventJson(e)) == ParseEvent(checks, EventJson(e));
    assert IsHex(checks.hash(e.body), 64);
    assert checks.size(EventJson(e)) == |encode(EventJson(e))|;
  }

  /** A written journal: everything ever appended and how much of it is gone. */
  datatype Written = Written(id: string, history: seq<Record>, dropped: nat)

  ghost predicate IsWritten(env: Env, j: Written) {
    Sound(env) && IsHex(j.id, 32) && IsHistory(env, j.history) && j.dropped < |j.history|
  }

  function Retained(j: Written): seq<Record>
    requires j.dropped <= |j.history|
  {
    j.history[j.dropped..]
  }

  function HashAt(j: Written, position: nat): string
    requires position <= |j.history|
  {
    if position == 0 then "" else j.history[position - 1].event.eventHash
  }

  /** A cursor this journal issued for a position, or the empty one at the start. */
  ghost predicate IssuedAt(env: Env, j: Written, cursor: string, position: nat) {
    && position <= |j.history|
    && ((cursor == "" && position == 0) || Ok(cursor) == EncodeCursor(j.id, position, HashAt(j, position), env.tag))
  }

  predicate LegalBounds(limit: int, maxBytes: int) {
    1 <= limit <= HARD_MAX_EXPORT_ITEMS && MIN_EXPORT_BYTES <= maxBytes <= HARD_MAX_EXPORT_BYTES
  }

  /** Where the next page starts: after the cursor, or after what retention dropped. */
  function From(j: Written, position: nat): nat {
    if position < j.dropped then j.dropped else position
  }

  lemma RetainedAt(env: Env, j: Written)
    requires IsWritten(env, j)
    ensures Storable(env, Retained(j)) && LastSequence(Retained(j)) == |j.history|
    ensures forall i :: 0 <= i < |Retained(j)| ==> Retained(j)[i].sequence == j.dropped + i + 1
  {
    SuffixStorable(env, j.history, j.dropped);
  }

  lemma {:induction false} WaitingIsRest(env: Env, j: Written, k: nat, position: nat)
    requires IsWritten(env, j) && j.dropped <= k <= From(j, position) <= |j.history|
    ensures Waiting(j.history[k..], position) == j.history[From(j, position)..]
    decreases From(j, position) - k
  {
    if k < From(j, position) {
      assert j.history[k..][1..] == j.history[k + 1..];
      WaitingIsRest(env, j, k + 1, position);
    }
  }

  /** The most digits a position can have for a page to be sure to hold its record. */
  const MAX_RECORD_DIGITS := 33

  /** One maximal record fits the smallest page, as long as positions have at most
      thirty-three digits. */
  lemma RecordFitsPage(env: Env, j: Written, i: nat)
    requires IsWritten(env, j) && i < |j.history| < Pow10(MAX_RECORD_DIGITS)
    ensures RecordByteSize(env, j.history[i]) <= MIN_EXPORT_BYTES
  {
    DigitCount(i + 1, MAX_RECORD_DIGITS);
    RecordIsFramed(env, j.history[i]);
    assert IsStored(env, j.history[i].event);
  }

  lemma CursorResumes(env: Env, j: Written, cursor: string, position: nat)
    requires IsWritten(env, j) && IssuedAt(env, j, cursor, position) && position < Pow10(MAX_POSITION_DIGITS)
    ensures DecodeCursor(cursor).Ok?
    ensures Resume(env, j.id, Retained(j), DecodeCursor(cursor).value) == Ok(position)
  {
    hide EncodesCanonically, DecodesBack, ParsesToStored, Pow10;
    RetainedAt(env, j);
    if cursor != "" {
      CursorReadsBackExactlyWhen(j.id, position, HashAt(j, position), env.tag);
    }
  }

  /** How many records the next page holds. */
  function PageCount(env: Env, j: Written, position: nat, limit: nat, maxBytes: nat): (n: nat)
    requires j.dropped <= |j.history| && position <= |j.history|
    ensures From(j, position) + n <= |j.history|
  {
    LargestPage(env, j.history[From(j, position)..], limit, maxBytes)
  }

  lemma SelectsRest(env: Env, j: Written, position: nat, limit: int, maxBytes: int)
    requires IsWritten(env, j) && position <= |j.history| && LegalBounds(limit, maxBytes)
    requires |j.history| < Pow10(MAX_RECORD_DIGITS)
    ensures var from, n := From(j, position), PageCount(env, j, position, limit, maxBytes);
            && (from < |j.history| ==> 1 <= n)
            && Select(env, Retained(j), position, limit, maxBytes)
               == Ok(Selection(j.history[from..from + n], from + n < |j.history|))
  {
    hide Sound, IsHistory, Select, LargestPage, Pow10, Contiguous;
    var from, n := From(j, position), PageCount(env, j, position, limit, maxBytes);
    WaitingToRead(env, j, position, limit, maxBytes);
    assert j.history[from..][..n] == j.history[from..from + n];
  }

  lemma WaitingToRead(env: Env, j: Written, position: nat, limit: int, maxBytes: int)
    requires IsWritten(env, j) && position <= |j.history| && LegalBounds(limit, maxBytes)
    requires |j.history| < Pow10(MAX_RECORD_DIGITS)
    ensures var rest, n := j.history[From(j, position)..], PageCount(env, j, position, limit, maxBytes);
            && Select(env, Retained(j), position, limit, maxBytes) == Ok(Selection(rest[..n], n < |rest|))
            && (rest != [] ==> 1 <= n)
  {
    var from := From(j, position);
    RetainedAt(env, j);
    SelectSkips(env, Retained(j), position, limit, maxBytes);
    WaitingIsRest(env, j, j.dropped, position);
    if from < |j.history| {
      RecordFitsPage(env, j, from);
    }
    SelectTakesLargestPage(env, j.history[from..], position, limit, maxBytes);
  }

  lemma CountIsLargest(env: Env, j: Written, position: nat, limit: nat, maxBytes: nat)
    requires j.dropped <= |j.history| && position <= |j.history|
    ensures var from, n := From(j, position), PageCount(env, j, position, limit, maxBytes);
            && from + n <= |j.history| && n <= limit && PageBytes(env, j.history[from..from + n]) <= maxBytes
            && (from + n < |j.history| ==> n == limit || PageBytes(env, j.history[from..from + n + 1]) > maxBytes)
  {
    var from, n := From(j, position), PageCount(env, j, position, limit, maxBytes);
    var rest := j.history[from..];
    PageIsLargest(env, rest, limit, maxBytes);
    assert rest[..n] == j.history[from..from + n];
    assert n < |rest| ==> rest[..n + 1] == j.history[from..from + n + 1];
  }

  /** One export, said of the history: which page it is and where it resumes. */
  ghost predicate IsPageAfter(env: Env, j: Written, position: nat, limit: nat, maxBytes: nat, page: Page)
    requires j.dropped <= |j.history| && position <= |j.history|
  {
    var from, n := From(j, position), |page.records|;
    && from + n <= |j.history| && page.records == j.history[from..from + n]
    && n <= limit && PageBytes(env, page.records) <= maxBytes
    && (from + n < |j.history| ==> n == limit || PageBytes(env, j.history[from..from + n + 1]) > maxBytes)
    && (from < |j.history| ==> 1 <= n)
    && page.complete == (from + n == |j.history|)
    && page.gap == (position < from && n > 0)
  }

  lemma DecodedExport(env: Env, j: Written, cursor: string, parts: Parts, position: nat, limit: int, maxBytes: int)
    requires IsWritten(env, j) && position <= |j.history| < Pow10(MAX_RECORD_DIGITS) && LegalBounds(limit, maxBytes)
    requires Resume(env, j.id, Retained(j), parts) == Ok(position)
    ensures ExportDecoded(env, j.id, Retained(j), cursor, Ok(parts), limit, maxBytes)
            == PageOf(env, j.id, cursor, position, NextSelection(env, j, position, limit, maxBytes))
  {
    hide IsWritten, Resume, Select, PageOf, Pow10, LargestPage, Retained;
    SelectsRest(env, j, position, limit, maxBytes);
    var s := NextSelection(env, j, position, limit, maxBytes);
    assert Select(env, Retained(j), position, limit, maxBytes) == Ok(s);
  }

  function NextSelection(env: Env, j: Written, position: nat, limit: nat, maxBytes: nat): Selection
    requires j.dropped <= |j.history| && position <= |j.history|
  {
    var from, n := From(j, position), PageCount(env, j, position, limit, maxBytes);
    Selection(j.history[from..from + n], from + n < |j.history|)
  }

  lemma SelectionIsPage(env: Env, j: Written, cursor: string, position: nat, limit: int, maxBytes: int)
    requires IsWritten(env, j) && IssuedAt(env, j, cursor, position) && LegalBounds(limit, maxBytes)
    requires |j.history| < Pow10(MAX_RECORD_DIGITS) && position <= |j.history| && j.dropped <= |j.history|
    ensures var page := PageOf(env, j.id, cursor, position, NextSelection(env, j, position, limit, maxBytes));
            && page.Ok? && IsPageAfter(env, j, position, limit, maxBytes, page.value)
            && IssuedAt(env, j, page.value.nextCursor, From(j, position) + |page.value.records|)
  {
    hide IsWritten, IssuedAt, Select, PageOf, IsPageAfter, LargestPage, Pow10;
    SelectsRest(env, j, position, limit, maxBytes);
    var s := NextSelection(env, j, position, limit, maxBytes);
    PageFollows(env, j, cursor, position, s, From(j, position), PageCount(env, j, position, limit, maxBytes));
    SelectionIsAfter(env, j, position, limit, maxBytes, PageOf(env, j.id, cursor, position, s).value);
  }

  lemma SelectionIsAfter(env: Env, j: Written, position: nat, limit: int, maxBytes: int, page: Page)
    requires j.dropped <= |j.history| && position <= |j.history| && LegalBounds(limit, maxBytes)
    requires var from, s := From(j, position), NextSelection(env, j, position, limit, maxBytes);
             && page.records == s.records && page.complete == !s.remaining
             && page.gap == (position < from && |s.records| > 0) && (from < |j.history| ==> 1 <= |s.records|)
    ensures IsPageAfter(env, j, position, limit, maxBytes, page)
  {
    CountIsLargest(env, j, position, limit, maxBytes);
  }

  lemma IssuedIsWithin(env: Env, j: Written, cursor: string, position: nat)
    requires IsWritten(env, j) && IssuedAt(env, j, cursor, position)
    ensures position <= |j.history| && j.dropped <= |j.history|
  {
    hide Sound, IsHistory;
  }

  lemma BoundsArePositive(limit: int, maxBytes: int)
    requires LegalBounds(limit, maxBytes)
    ensures 1 <= limit && 1 <= maxBytes
  {
  }

  /** From an issued cursor the page is the largest run within the bounds of what
      is left after it, with a gap exactly when retention dropped some of that,
      and it resumes where it ends. */
  lemma ExportGivesRest(env: Env, j: Written, cursor: string, position: nat, limit: int, maxBytes: int)
    requires IsWritten(env, j) && IssuedAt(env, j, cursor, position) && LegalBounds(limit, maxBytes)
    requires position < Pow10(MAX_POSITION_DIGITS) && |j.history| < Pow10(MAX_RECORD_DIGITS)
    ensures var page := ExportOf(env, Some(j.id), Retained(j), cursor, limit, maxBytes);
            && page.Ok? && IsPageAfter(env, j, position, limit, maxBytes, page.value)
            && IssuedAt(env, j, page.value.nextCursor, From(j, position) + |page.value.records|)
  {
    hide IsWritten, IssuedAt, ExportOf, PageOf, IsPageAfter, NextSelection, Pow10, LegalBounds, Retained, From;
    IssuedIsWithin(env, j, cursor, position);
    ExportIsSelection(env, j, cursor, position, limit, maxBytes);
    SelectionIsPage(env, j, cursor, position, limit, maxBytes);
  }

  lemma ExportIsSelection(env: Env, j: Written, cursor: string, position: nat, limit: int, maxBytes: int)
    requires IsWritten(env, j) && IssuedAt(env, j, cursor, position) && LegalBounds(limit, maxBytes)
    requires position < Pow10(MAX_POSITION_DIGITS) && |j.history| < Pow10(MAX_RECORD_DIGITS)
    ensures ExportOf(env, Some(j.id), Retained(j), cursor, limit, maxBytes)
            == PageOf(env, j.id, cursor, position, NextSelection(env, j, position, limit, maxBytes))
  {
    CursorResumes(env, j, cursor, position);
    DecodedExport(env, j, cursor, DecodeCursor(cursor).value, position, limit, maxBytes);
  }

  lemma PageFollows(env: Env, j: Written, cursor: string, position: nat, s: Selection, from: nat, n: nat)
    requires IsWritten(env, j) && IssuedAt(env, j, cursor, position) && from == From(j, position)
    requires from + n <= |j.history| && s.records == j.history[from..from + n]
    requires n == 0 ==> from == |j.history|
    ensures var page := PageOf(env, j.id, cursor, position, s);
            && page.Ok? && page.value.records == s.records && page.value.complete == !s.remaining
            && page.value.gap == (position < from && n > 0) && IssuedAt(env, j, page.value.nextCursor, from + n)
  {
    hide Sound, EncodeCursor;
    if n > 0 {
      LastIssued(env, j, from + n);
      assert Last(s.records) == j.history[from + n - 1] && s.records[0] == j.history[from];
    } else {
      IssuedHasText(env, j, cursor, position);
    }
  }

  /** The cursor after a record of the history can be made, and is issued. */
  lemma LastIssued(env: Env, j: Written, position: nat)
    requires IsWritten(env, j) && 1 <= position <= |j.history|
    ensures j.history[position - 1].sequence == position
    ensures var next := Issue(env, j.id, position, j.history[position - 1].event.eventHash);
            next.Ok? && IssuedAt(env, j, next.value, position)
  {
    hide Sound, CursorText;
    assert IsStored(env, j.history[position - 1].event);
  }

  lemma IssuedHasText(env: Env, j: Written, cursor: string, position: nat)
    requires IssuedAt(env, j, cursor, position) && position > 0
    ensures cursor != ""
  {
  }

  /** A cursor the journal issued is refused exactly when its position has outgrown
      the sixteen digits the cursor pattern allows. */
  lemma IssuedCursorRefusedExactlyWhen(env: Env, j: Written, cursor: string, position: nat)
    requires IsWritten(env, j) && IssuedAt(env, j, cursor, position)
    ensures (DecodeCursor(cursor).Err? || Resume(env, j.id, Retained(j), DecodeCursor(cursor).value).Err?)
            <==> Pow10(MAX_POSITION_DIGITS) <= position
  {
    if position < Pow10(MAX_POSITION_DIGITS) {
      CursorResumes(env, j, cursor, position);
    } else {
      assert 1 <= Pow10(MAX_POSITION_DIGITS) by { PowersGrow(0, MAX_POSITION_DIGITS); }
      CursorReadsBackExactlyWhen(j.id, position, HashAt(j, position), env.tag);
    }
  }
}
