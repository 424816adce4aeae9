/** The opaque position a reader resumes from (flyto_robotics/device_events.py). */
module Cursor {
  import opened Wrappers
  import opened Decimal

  const PREFIX := "dej1:"
  const EMPTY_TAG := "0000000000000000"
  const MAX_POSITION_DIGITS := 16

  datatype CursorError = MalformedJournal | MalformedDigest | MalformedCursor

  datatype Parts = Parts(journal: string, position: nat, tag: string)

  /** The truncated digest of `journal:position:hash`. */
  type Tagger = (string, nat, string) -> string

  predicate IsHexDigit(c: char) {
    '0' <= c <= '9' || 'a' <= c <= 'f'
  }

  predicate IsHex(s: string, n: nat) {
    |s| == n && forall i :: 0 <= i < n ==> IsHexDigit(s[i])
  }

  ghost predicate IsTagger(tag: Tagger) {
    forall journal, position, hash :: IsHex(tag(journal, position, hash), 16)
  }

  /** `0|[1-9][0-9]{0,15}` */
  predicate IsPosition(s: string) {
    1 <= |s| <= MAX_POSITION_DIGITS && AllDigits(s) && (s[0] == '0' ==> s == "0")
  }

  function TagAt(journal: string, position: nat, hash: string, tag: Tagger): string {
    if position == 0 then EMPTY_TAG else tag(journal, position, hash)
  }

  function CursorText(journal: string, position: nat, tag: string): string {
    PREFIX + journal + ":" + ToDecimal(position) + ":" + tag
  }

  function EncodeCursor(journal: string, position: nat, hash: string, tag: Tagger): Result<string, CursorError> {
    if !IsHex(journal, 32) then Err(MalformedJournal)
    else if position != 0 && !IsHex(hash, 64) then Err(MalformedDigest)
    else Ok(CursorText(journal, position, TagAt(journal, position, hash, tag)))
  }

  /** Whether the whole text matches the cursor pattern. */
  predicate IsCursor(s: string) {
    && 56 <= |s| && s[..5] == PREFIX && IsHex(s[5..37], 32) && s[37] == ':'
    && IsPosition(s[38..|s| - 17]) && s[|s| - 17] == ':' && IsHex(s[|s| - 16..], 16)
  }

  /** An empty cursor is the beginning; an unreadable one is refused, not reset. */
  function DecodeCursor(s: string): Result<Parts, CursorError> {
    if s == "" then Ok(Parts("", 0, EMPTY_TAG))
    else if IsCursor(s) then Ok(Parts(s[5..37], FromDecimal(s[38..|s| - 17]), s[|s| - 16..]))
    else Err(MalformedCursor)
  }

  lemma TextParts(journal: string, position: nat, tag: string)
    requires |journal| == 32 && |tag| == 16
    ensures var s := CursorText(journal, position, tag);
            && |s| == 55 + |ToDecimal(position)|
            && s[..5] == PREFIX && s[5..37] == journal && s[37] == ':'
            && s[38..|s| - 17] == ToDecimal(position) && s[|s| - 17] == ':' && s[|s| - 16..] == tag
  {
  }

  /** A cursor this module issues reads back as what it was issued for exactly
      while its position has at most sixteen digits; past that the pattern
      refuses the module's own cursor. */
  lemma CursorReadsBackExactlyWhen(journal: string, position: nat, hash: string, tag: Tagger)
    requires IsTagger(tag) && EncodeCursor(journal, position, hash, tag).Ok?
    ensures var s := EncodeCursor(journal, position, hash, tag).value;
            && s != ""
            && (position < Pow10(MAX_POSITION_DIGITS) ==>
                  DecodeCursor(s) == Ok(Parts(journal, position, TagAt(journal, position, hash, tag))))
            && (position >= Pow10(MAX_POSITION_DIGITS) ==> DecodeCursor(s) == Err(MalformedCursor))
  {
    var t := TagAt(journal, position, hash, tag);
    assert IsHex(t, 16);
    TextParts(journal, position, t);
    DecimalRoundTrip(position);
    DigitCount(position, MAX_POSITION_DIGITS);
  }

  /** Two positions of one journal never share a cursor. */
  lemma CursorsDistinct(journal: string, i: nat, j: nat, hashI: string, hashJ: string, tag: Tagger)
    requires IsTagger(tag)
    requires EncodeCursor(journal, i, hashI, tag).Ok?
    requires EncodeCursor(journal, i, hashI, tag) == EncodeCursor(journal, j, hashJ, tag)
    ensures i == j
  {
    TextParts(journal, i, TagAt(journal, i, hashI, tag));
    TextParts(journal, j, TagAt(journal, j, hashJ, tag));
    DecimalInjective(i, j);
  }
}
