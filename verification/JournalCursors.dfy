/** What becomes of any cursor text a reader may hold, issued here, by another journal or
    before a rewrite (flyto_robotics/device_events.py). */
module JournalCursors {
  import opened Wrappers
  import opened Decimal
  import opened Lines
  import opened Cursor
  import opened Journal
  import opened JournalStore
  import opened JournalPages

  /** A cursor of this journal, or of none, at a position it has reached and, while the
      record there is retained, with that record's tag. */
  ghost predicate IsOfJournal(env: Env, j: Written, parts: Parts) {
    && (parts.journal == "" || parts.journal == j.id) && parts.position <= |j.history|
    && (j.dropped < parts.position ==>
          parts.tag == env.tag(j.id, parts.position, j.history[parts.position - 1].event.eventHash))
  }

  /** The page an export hands over, its cursor and the gap it tells of. */
  ghost predicate IsPageFrom(env: Env, j: Written, cursor: string, position: nat, limit: nat, maxBytes: nat, page: Page)
    requires j.dropped <= |j.history| && position <= |j.history|
  {
    && IsPageAfter(env, j, position, limit, maxBytes, page)
    && page.journalId == j.id
    && page.gapBefore == (if page.gap then From(j, position) + 1 else 0)
    && (page.records == [] ==> page.nextCursor == cursor != "")
    && (page.records != [] ==> IssuedAt(env, j, page.nextCursor, From(j, position) + |page.records|))
  }

  lemma TagIsOfRecord(env: Env, j: Written, position: nat, tag: string)
    requires IsWritten(env, j) && position <= |j.history|
    ensures TagAgrees(env, Retained(j), position, tag, j.id)
            <==> j.dropped < position ==> tag == env.tag(j.id, position, j.history[position - 1].event.eventHash)
  {
    hide Sound, IsHistory;
    RetainedAt(env, j);
    if j.dropped < position {
      var r := Retained(j)[position - j.dropped - 1];
      assert r in Retained(j) && r.sequence == position && r == j.history[position - 1];
    }
  }

  /** The error of each refusal, in the order they are looked for. */
  lemma ResumesExactlyWhen(env: Env, j: Written, parts: Parts)
    requires IsWritten(env, j)
    ensures Resume(env, j.id, Retained(j), parts)
            == if parts.journal != "" && parts.journal != j.id then Err(OtherJournal)
               else if parts.position > |j.history| then Err(AheadOfJournal)
               else if !IsOfJournal(env, j, parts) then Err(TagMismatch)
               else Ok(parts.position)
  {
    hide Sound, IsHistory, TagAgrees;
    RetainedAt(env, j);
    if parts.position <= |j.history| {
      TagIsOfRecord(env, j, parts.position, parts.tag);
    }
  }

  lemma PageFrom(env: Env, j: Written, cursor: string, position: nat, limit: int, maxBytes: int)
    requires IsWritten(env, j) && LegalBounds(limit, maxBytes) && |j.history| < Pow10(MAX_RECORD_DIGITS)
    requires position <= |j.history| && j.dropped <= |j.history| && (cursor == "" ==> position == 0)
    ensures var page := PageOf(env, j.id, cursor, position, NextSelection(env, j, position, limit, maxBytes));
            page.Ok? && IsPageFrom(env, j, cursor, position, limit, maxBytes, page.value)
  {
    hide Sound, IsHistory, IssuedAt, Select, Pow10, LargestPage, IsPageAfter, EncodeCursor;
    SelectsRest(env, j, position, limit, maxBytes);
    var from, n := From(j, position), PageCount(env, j, position, limit, maxBytes);
    if n > 0 {
      LastIssued(env, j, from + n);
      LastIssued(env, j, from + 1);
      assert Last(j.history[from..from + n]) == j.history[from + n - 1] && j.history[from..from + n][0] == j.history[from];
    }
    var page := PageOf(env, j.id, cursor, position, NextSelection(env, j, position, limit, maxBytes)).value;
    SelectionIsAfter(env, j, position, limit, maxBytes, page);
  }

  /** An export from any cursor that decodes succeeds exactly when the cursor is of this
      journal, with the page of what is left after it; any other is refused with its own
      error. Nothing here depends on who issued it. */
  lemma CursorResumesExactlyWhen(env: Env, j: Written, cursor: string, parts: Parts, limit: int, maxBytes: int)
    requires IsWritten(env, j) && |j.history| < Pow10(MAX_RECORD_DIGITS)
    requires DecodeCursor(cursor) == Ok(parts) && LegalBounds(limit, maxBytes)
    ensures var page := ExportOf(env, Some(j.id), Retained(j), cursor, limit, maxBytes);
            && (page.Ok? <==> IsOfJournal(env, j, parts))
            && (page.Ok? ==> IsPageFrom(env, j, cursor, parts.position, limit, maxBytes, page.value))
            && (parts.journal != "" && parts.journal != j.id ==> page == Err(OtherJournal))
            && ((parts.journal == "" || parts.journal == j.id) && parts.position > |j.history| ==>
                  page == Err(AheadOfJournal))
            && ((parts.journal == "" || parts.journal == j.id) && parts.position <= |j.history| && page.Err? ==>
                  page == Err(TagMismatch))
  {
    assert j.dropped <= |j.history|;
    hide IsWritten, Resume, PageOf, IsPageFrom, NextSelection, Pow10, Retained;
    ResumesExactlyWhen(env, j, parts);
    if IsOfJournal(env, j, parts) {
      DecodedExport(env, j, cursor, parts, parts.position, limit, maxBytes);
      PageFrom(env, j, cursor, parts.position, limit, maxBytes);
    } else {
      RefusedExport(env, j, cursor, parts, limit, maxBytes);
    }
  }

  lemma RefusedExport(env: Env, j: Written, cursor: string, parts: Parts, limit: int, maxBytes: int)
    requires j.dropped <= |j.history| && DecodeCursor(cursor) == Ok(parts) && LegalBounds(limit, maxBytes)
    requires Resume(env, j.id, Retained(j), parts).Err?
    ensures ExportOf(env, Some(j.id), Retained(j), cursor, limit, maxBytes)
            == Err(Resume(env, j.id, Retained(j), parts).error)
  {
    hide Resume;
  }

  /** Before any record a cursor is looked at: an unreadable one and bounds out of range
      are refused whatever the journal holds, in that order. */
  lemma RefusedUnread(env: Env, header: Option<string>, records: seq<Record>, cursor: string, limit: int, maxBytes: int)
    ensures var page := ExportOf(env, header, records, cursor, limit, maxBytes);
            && (cursor != "" && !IsCursor(cursor) ==> page == Err(JournalError.Cursor(MalformedCursor)))
            && ((cursor == "" || IsCursor(cursor)) && !(1 <= limit <= 1000) ==> page == Err(LimitOutOfRange))
            && ((cursor == "" || IsCursor(cursor)) && 1 <= limit <= 1000 && !LegalBounds(limit, maxBytes) ==>
                  page == Err(BytesOutOfRange))
  {
    hide Resume, Select, PageOf;
  }

  /** A journal nothing was written to serves the empty cursor alone: any other that can
      be read names another journal. */
  lemma UnwrittenServesExactlyWhen(env: Env, cursor: string, limit: int, maxBytes: int)
    requires LegalBounds(limit, maxBytes)
    ensures var page := ExportOf(env, None, [], cursor, limit, maxBytes);
            && (page.Ok? <==> cursor == "")
            && (page.Ok? ==> page.value.records == [] && page.value.complete && !page.value.gap)
            && (IsCursor(cursor) ==> page == Err(OtherJournal))
  {
    hide Pow10;
  }
}
