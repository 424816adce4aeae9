/** Frame counters read from a child process, a bounded chunk at a time
    (flyto_robotics/camera_sources.py). */
module FrameProgress {
  import opened Wrappers
  import opened Lines
  import Decimal

  const MAX_PROGRESS_BUFFER := 4096
  const PROGRESS_READ_SIZE := 512
  const MAX_FRAME_COUNTER := 0x7FFF_FFFF_FFFF_FFFF
  const MAX_FRAME_COUNTER_DIGITS := 19
  const CARRIAGE_RETURN: byte := 13
  const EQUALS: byte := 61

  /** `frame` in ASCII. */
  const FRAME: seq<byte> := [102, 114, 97, 109, 101]

  /** What one read of the stream gives: bytes or text (none at its end), or an error. */
  datatype Read = Chunk(bytes: seq<byte>) | Text(text: string) | Raises

  /** Text as ASCII bytes, any other character left out. */
  function AsciiOf(text: string): seq<byte> {
    if text == [] then []
    else (if text[0] as int < 128 then [text[0] as int as byte] else []) + AsciiOf(text[1..])
  }

  /** The bytes of a read: what the parser is given of it. */
  function Content(r: Read): seq<byte> {
    match r
    case Chunk(bytes) => bytes
    case Text(text) => AsciiOf(text)
    case Raises => []
  }

  /** The end of the stream; text that is all outside ASCII is not. */
  predicate IsEnd(r: Read) {
    r == Chunk([]) || r == Text("")
  }

  // ---------------------------------------------------------------------------
  // One line
  // ---------------------------------------------------------------------------

  function WithoutReturns(line: seq<byte>): seq<byte> {
    if line != [] && line[|line| - 1] == CARRIAGE_RETURN then WithoutReturns(line[..|line| - 1]) else line
  }

  predicate IsDigit(b: byte) {
    48 <= b <= 57
  }

  function DigitValue(b: byte): nat
    requires IsDigit(b)
  {
    b as int - 48
  }

  function NumberOf(digits: seq<byte>): nat
    requires forall i :: 0 <= i < |digits| ==> IsDigit(digits[i])
  {
    if digits == [] then 0 else 10 * NumberOf(digits[..|digits| - 1]) + DigitValue(digits[|digits| - 1])
  }

  /** A well-formed counter: `frame=`, then one to 19 digits. */
  function FrameOf(line: seq<byte>): Option<nat> {
    var text := WithoutReturns(line);
    if FRAME + [EQUALS] <= text then
      var value := text[|FRAME| + 1..];
      if 0 < |value| <= MAX_FRAME_COUNTER_DIGITS && forall i :: 0 <= i < |value| ==> IsDigit(value[i])
      then Some(NumberOf(value)) else None
    else None
  }

  lemma {:induction false} AsciiConcat(a: string, b: string)
    ensures AsciiOf(a + b) == AsciiOf(a) + AsciiOf(b)
  {
    if a == [] {
      assert a + b == b;
    } else {
      assert (a + b)[1..] == a[1..] + b;
      AsciiConcat(a[1..], b);
    }
  }

  /** Printed with any number of zeros before it. */
  function Printed(n: nat, zeros: nat): seq<byte> {
    Repeated(48, zeros) + AsciiOf(Decimal.ToDecimal(n))
  }

  lemma DigitsPrint(n: nat, zeros: nat)
    requires n < 10
    ensures AsciiOf(Decimal.ToDecimal(n)) == [(48 + n) as byte]
    ensures Printed(n, zeros) == Repeated(48, zeros) + [(48 + n) as byte]
  {
    var text := Decimal.ToDecimal(n);
    assert text == [Decimal.Digit(n)] && AsciiOf(text[1..]) == [];
  }

  lemma PrintedMore(n: nat, zeros: nat)
    requires 10 <= n
    ensures Printed(n, zeros) == Printed(n / 10, zeros) + [(48 + n % 10) as byte]
  {
    AsciiConcat(Decimal.ToDecimal(n / 10), [Decimal.Digit(n % 10)]);
    DigitsPrint(n % 10, 0);
    assert Decimal.ToDecimal(n % 10) == [Decimal.Digit(n % 10)];
  }

  predicate AllDigits(s: seq<byte>) {
    forall i :: 0 <= i < |s| ==> IsDigit(s[i])
  }

  lemma {:induction false} PrintedReadsBack(n: nat, zeros: nat)
    ensures var s := Printed(n, zeros); 0 < |s| && AllDigits(s) && NumberOf(s) == n
  {
    var s := Printed(n, zeros);
    if n < 10 {
      DigitsPrint(n, zeros);
      assert s[..|s| - 1] == Repeated(48, zeros);
      ZerosAreNothing(zeros);
    } else {
      PrintedMore(n, zeros);
      PrintedReadsBack(n / 10, zeros);
      assert s[..|s| - 1] == Printed(n / 10, zeros);
    }
  }

  lemma {:induction false} ZerosAreNothing(zeros: nat)
    ensures NumberOf(Repeated(48, zeros)) == 0
  {
    if zeros > 0 {
      assert Repeated(48, zeros)[..zeros - 1] == Repeated(48, zeros - 1);
      ZerosAreNothing(zeros - 1);
    }
  }

  /** One more digit after a printed number. */
  lemma PrintedNext(m: nat, zeros: nat, digit: byte) returns (more: nat)
    requires IsDigit(digit)
    ensures Printed(m, zeros) + [digit] == Printed(10 * m + DigitValue(digit), more)
  {
    var d := DigitValue(digit);
    if m == 0 {
      more := zeros + 1;
      DigitsPrint(0, zeros);
      DigitsPrint(d, more);
      assert Repeated(48, zeros) + [48] == Repeated(48, more);
    } else {
      more := zeros;
      TenTimes(m, d);
      PrintedMore(10 * m + d, zeros);
    }
  }

  lemma TenTimes(m: nat, d: nat)
    requires d < 10
    ensures (10 * m + d) / 10 == m && (10 * m + d) % 10 == d
  {
  }

  lemma {:induction false} DigitsArePrinted(digits: seq<byte>) returns (zeros: nat)
    requires digits != [] && AllDigits(digits)
    ensures digits == Printed(NumberOf(digits), zeros)
  {
    hide Printed;
    var front, last := digits[..|digits| - 1], digits[|digits| - 1];
    assert digits == front + [last];
    if front == [] {
      zeros := 0;
      OneDigit(last);
    } else {
      zeros := DigitsArePrinted(front);
      zeros := PrintedNext(NumberOf(front), zeros, last);
    }
  }

  lemma OneDigit(digit: byte)
    requires IsDigit(digit)
    ensures [digit] == Printed(NumberOf([digit]), 0)
  {
    DigitsPrint(DigitValue(digit), 0);
    assert NumberOf([digit]) == DigitValue(digit);
  }

  /** The line says `frame=` and this number in decimal, in at most 19 digits, then
      carriage returns only. */
  predicate SaysFrame(line: seq<byte>, n: nat, zeros: nat, returns_: nat) {
    |Printed(n, zeros)| <= 19 && line == FRAME + [EQUALS] + Printed(n, zeros) + Repeated(CARRIAGE_RETURN, returns_)
  }

  lemma {:induction false} ReturnsCounted(line: seq<byte>) returns (n: nat)
    ensures line == WithoutReturns(line) + Repeated(CARRIAGE_RETURN, n)
  {
    n := 0;
    if line != [] && line[|line| - 1] == CARRIAGE_RETURN {
      n := ReturnsCounted(line[..|line| - 1]);
      n := n + 1;
      assert line == line[..|line| - 1] + [CARRIAGE_RETURN];
      assert Repeated(CARRIAGE_RETURN, n) == Repeated(CARRIAGE_RETURN, n - 1) + [CARRIAGE_RETURN];
    }
  }

  /** A line is the counter of a number exactly when it says that number in decimal. */
  lemma FrameExactlyWhen(line: seq<byte>, n: nat)
    ensures FrameOf(line) == Some(n) <==> exists zeros, returns_ :: SaysFrame(line, n, zeros, returns_)
  {
    hide Printed, WithoutReturns, NumberOf;
    if FrameOf(line) == Some(n) {
      var text := WithoutReturns(line);
      var value := text[|FRAME| + 1..];
      var zeros := DigitsArePrinted(value);
      var k := ReturnsCounted(line);
      assert text == FRAME + [EQUALS] + value;
      assert SaysFrame(line, n, zeros, k);
    }
    if zeros, k :| SaysFrame(line, n, zeros, k) {
      var value := Printed(n, zeros);
      var text := FRAME + [EQUALS] + value;
      PrintedReadsBack(n, zeros);
      assert IsDigit(value[|value| - 1]) && text[|text| - 1] == value[|value| - 1];
      ReturnsGo(text, k);
      assert FRAME + [EQUALS] <= text && text[|FRAME| + 1..] == value;
    }
  }

  /** The counters accepted of these lines, the last accepted one known: each higher
      than every one accepted before it, and within 63 bits. */
  function Records(last: nat, lines: seq<seq<byte>>): seq<nat>
    decreases |lines|
  {
    if lines == [] then []
    else
      var frame := FrameOf(lines[0]);
      if frame.Some? && last < frame.value <= MAX_FRAME_COUNTER then [frame.value] + Records(frame.value, lines[1..])
      else Records(last, lines[1..])
  }

  function LastOf(last: nat, frames: seq<nat>): nat {
    if frames == [] then last else frames[|frames| - 1]
  }

  lemma {:induction false} RecordsConcat(last: nat, a: seq<seq<byte>>, b: seq<seq<byte>>)
    ensures Records(last, a + b) == Records(last, a) + Records(LastOf(last, Records(last, a)), b)
    decreases |a|
  {
    hide FrameOf;
    if a == [] {
      assert a + b == b;
    } else {
      assert (a + b)[1..] == a[1..] + b;
      var frame := FrameOf(a[0]);
      RecordsConcat(if frame.Some? && last < frame.value <= MAX_FRAME_COUNTER then frame.value else last, a[1..], b);
    }
  }

  /** The last accepted counter after one more line. */
  function Next(last: nat, line: seq<byte>): nat {
    if FrameOf(line).Some? && last < FrameOf(line).value <= MAX_FRAME_COUNTER then FrameOf(line).value else last
  }

  lemma RecordsNext(last: nat, lines: seq<seq<byte>>)
    requires lines != []
    ensures var next, rest := Next(last, lines[0]), Records(Next(last, lines[0]), lines[1..]);
            && Records(last, lines) == (if next == last then rest else [next] + rest)
            && LastOf(last, Records(last, lines)) == LastOf(next, rest) && last <= next
            && (next != last ==> next <= MAX_FRAME_COUNTER)
  {
    hide FrameOf;
  }

  /** Accepted counters strictly rise from the last one, within 63 bits. */
  lemma {:induction false} RecordsRise(last: nat, lines: seq<seq<byte>>)
    ensures var frames := Records(last, lines);
            && (forall i :: 0 <= i < |frames| ==> last < frames[i] <= MAX_FRAME_COUNTER)
            && (forall i, j :: 0 <= i < j < |frames| ==> frames[i] < frames[j])
            && last <= LastOf(last, frames)
    decreases |lines|
  {
    hide Records, Next;
    if lines == [] {
      NoRecords(last);
    } else {
      RecordsNext(last, lines);
      RecordsRise(Next(last, lines[0]), lines[1..]);
    }
  }

  /** And none is missed: a well-formed counter within 63 bits is at most the last
      accepted one. */
  lemma {:induction false} NoneMissed(last: nat, lines: seq<seq<byte>>, k: nat)
    requires k < |lines| && FrameOf(lines[k]).Some? && FrameOf(lines[k]).value <= MAX_FRAME_COUNTER
    ensures FrameOf(lines[k]).value <= LastOf(last, Records(last, lines))
    decreases |lines|
  {
    hide Records, FrameOf;
    RecordsNext(last, lines);
    if k == 0 {
      RecordsRise(Next(last, lines[0]), lines[1..]);
    } else {
      NoneMissed(Next(last, lines[0]), lines[1..], k - 1);
    }
  }

  /** Every accepted counter is one some line says. */
  lemma {:induction false} RecordsAreSaid(last: nat, lines: seq<seq<byte>>)
    ensures forall frame :: frame in Records(last, lines) ==> exists line :: line in lines && FrameOf(line) == Some(frame)
    decreases |lines|
  {
    hide FrameOf;
    if lines != [] {
      RecordsAreSaid(Next(last, lines[0]), lines[1..]);
    }
  }

  // ---------------------------------------------------------------------------
  // The bounded parser
  // ---------------------------------------------------------------------------

  function Bounded(chunk: seq<byte>): seq<byte> {
    if |chunk| > PROGRESS_READ_SIZE then chunk[..PROGRESS_READ_SIZE] else chunk
  }

  /** At most the newest 4096 bytes. */
  function Trimmed(pending: seq<byte>): seq<byte> {
    if |pending| > MAX_PROGRESS_BUFFER then pending[|pending| - MAX_PROGRESS_BUFFER..] else pending
  }

  /** The counters accepted from here on, and whether a read raised. */
  function Consumed(pending: seq<byte>, last: nat, stream: seq<Read>, patience: nat): (seq<nat>, bool)
    decreases |stream|
  {
    if patience == 0 || stream == [] then ([], false)
    else if stream[0].Raises? then ([], true)
    else if IsEnd(stream[0]) then ([], false)
    else
      var p := Trimmed(pending + Bounded(Content(stream[0])));
      var frames := Records(last, Complete(p));
      var rest := Consumed(Unfinished(p), LastOf(last, frames), stream[1..], patience - 1);
      (frames + rest.0, rest.1)
  }

  /** `partition(b"\\n")` of bytes that have one. */
  method Partition(pending: seq<byte>) returns (line: seq<byte>, remainder: seq<byte>)
    requires NEWLINE in pending
    ensures pending == Terminated(line) + remainder && NEWLINE !in line && |remainder| < |pending|
  {
    var n := 0;
    while pending[n] != NEWLINE
      invariant 0 <= n < |pending| && NEWLINE !in pending[..n] && NEWLINE in pending[n..]
      decreases |pending| - n
    {
      n := n + 1;
    }
    line, remainder := pending[..n], pending[n + 1..];
  }

  lemma RecordsFirst(accepted: seq<nat>, last: nat, line: seq<byte>, rest: seq<seq<byte>>)
    ensures var frame := FrameOf(line);
            accepted + Records(last, [line] + rest)
            == if frame.Some? && last < frame.value <= MAX_FRAME_COUNTER
               then (accepted + [frame.value]) + Records(frame.value, rest) else accepted + Records(last, rest)
  {
    hide FrameOf;
    assert ([line] + rest)[1..] == rest;
  }

  /** Every whole line in the buffer. */
  method TakeLines(buffer: seq<byte>, before: nat) returns (accepted: seq<nat>, pending: seq<byte>, last: nat)
    ensures accepted == Records(before, Complete(buffer)) && pending == Unfinished(buffer) && last == LastOf(before, accepted)
  {
    hide FrameOf, Complete, Unfinished, Records;
    accepted, pending, last := [], buffer, before;
    ghost var whole := Records(before, Complete(buffer));
    assert accepted + whole == whole;
    while NEWLINE in pending
      invariant accepted + Records(last, Complete(pending)) == whole
      invariant Unfinished(pending) == Unfinished(buffer) && last == LastOf(before, accepted)
      decreases |pending|
    {
      var line, remainder := Partition(pending);
      FirstLine(line, remainder);
      RecordsFirst(accepted, last, line, Complete(remainder));
      pending := remainder;
      var frame := FrameOf(line);
      if frame.None? || !(last < frame.value <= MAX_FRAME_COUNTER) {
        continue;
      }
      last := frame.value;
      accepted := accepted + [frame.value];
    }
    NoLine(pending);
    NoRecords(last);
    assert accepted + [] == accepted;
  }

  lemma NoLine(pending: seq<byte>)
    requires NEWLINE !in pending
    ensures Complete(pending) == [] && Unfinished(pending) == pending
  {
    SplitOneLine(pending);
  }

  lemma FirstLine(line: seq<byte>, rest: seq<byte>)
    requires NEWLINE !in line
    ensures Complete(Terminated(line) + rest) == [line] + Complete(rest)
    ensures Unfinished(Terminated(line) + rest) == Unfinished(rest)
  {
    SplitFirstLine(line, rest);
  }

  /** Reading until the stream ends, a read raises or the runtime is stopped, after
      `patience` reads. */
  method ConsumeProgress(stream: seq<Read>, patience: nat) returns (accepted: seq<nat>, proved: bool)
    ensures accepted == Consumed([], 0, stream, patience).0
    ensures proved <==> accepted != [] && !Consumed([], 0, stream, patience).1
  {
    hide Complete, Unfinished, Records, Trimmed, Bounded;
    var pending: seq<byte> := [];
    var last := 0;
    accepted := [];
    ghost var whole := Consumed([], 0, stream, patience);
    var i := 0;
    assert stream[0..] == stream && [] + whole.0 == whole.0;
    while i < patience && i < |stream|
      invariant 0 <= i <= |stream| && i <= patience
      invariant (accepted + Consumed(pending, last, stream[i..], patience - i).0,
                 Consumed(pending, last, stream[i..], patience - i).1) == whole
      decreases |stream| - i
    {
      assert stream[i..][1..] == stream[i + 1..];
      if stream[i].Raises? {
        assert accepted + [] == accepted;
        return accepted, false;
      }
      if IsEnd(stream[i]) {
        break;
      }
      pending := Trimmed(pending + Bounded(Content(stream[i])));
      var frames;
      frames, pending, last := TakeLines(pending, last);
      ghost var rest := Consumed(pending, last, stream[i + 1..], patience - i - 1).0;
      assert accepted + (frames + rest) == (accepted + frames) + rest;
      accepted := accepted + frames;
      i := i + 1;
    }
    assert accepted + [] == accepted;
    proved := accepted != [];
  }

  // ---------------------------------------------------------------------------
  // Chunks never matter while lines are short
  // ---------------------------------------------------------------------------

  const MAX_LINE := MAX_PROGRESS_BUFFER - PROGRESS_READ_SIZE

  function Bytes(stream: seq<Read>): seq<byte>
    decreases |stream|
  {
    if stream == [] then [] else Content(stream[0]) + Bytes(stream[1..])
  }

  predicate LinesWithin(s: seq<byte>, n: nat) {
    forall line :: line in Complete(s) ==> |line| <= n
  }

  predicate ShortLines(s: seq<byte>) {
    LinesWithin(s, MAX_LINE)
  }

  /** A read that neither raises nor ends the stream, and gives no more than asked for. */
  predicate IsRegular(r: Read) {
    !r.Raises? && !IsEnd(r) && |Content(r)| <= PROGRESS_READ_SIZE
  }

  predicate Regular(stream: seq<Read>) {
    forall r :: r in stream ==> IsRegular(r)
  }

  /** The lines of a stream are those of its first part, then those of what that part
      leaves unfinished and the rest. */
  lemma SplitTail(a: seq<byte>, b: seq<byte>)
    ensures Complete(a + b) == Complete(a) + Complete(Unfinished(a) + b)
    ensures Unfinished(a + b) == Unfinished(Unfinished(a) + b)
  {
    hide Split;
    UnfinishedHasNone(a);
    SplitConcat(a, b);
    SplitConcat(Unfinished(a), b);
    SplitOneLine(Unfinished(a));
    var tail := Split(Unfinished(a) + b);
    assert tail == [Unfinished(a) + Split(b)[0]] + Split(b)[1..];
    assert Split(a + b) == Complete(a) + tail;
  }

  lemma {:induction false} UnfinishedHasNone(s: seq<byte>)
    ensures NEWLINE !in Unfinished(s)
    decreases |s|
  {
    hide Unfinished, Complete;
    if NEWLINE in s {
      var line, rest := FirstOf(s);
      FirstLine(line, rest);
      UnfinishedHasNone(rest);
    } else {
      NoLine(s);
    }
  }

  lemma HasNone(a: seq<byte>, b: seq<byte>)
    requires NEWLINE !in a && NEWLINE !in b
    ensures NEWLINE !in a + b && NEWLINE !in Trimmed(a + b)
  {
  }

  /** A line already too long never ends. */
  lemma LongLineNeverEnds(u: seq<byte>, b: seq<byte>)
    requires NEWLINE !in u && |u| > MAX_LINE && ShortLines(u + b)
    ensures NEWLINE !in b
  {
    hide Complete;
    if NEWLINE in b {
      var line, rest := FirstOf(b);
      assert u + b == Terminated(u + line) + rest;
      HasNone(u, line);
      FirstLine(u + line, rest);
    }
  }

  lemma {:induction false} FirstOf(b: seq<byte>) returns (line: seq<byte>, rest: seq<byte>)
    requires NEWLINE in b
    ensures NEWLINE !in line && b == Terminated(line) + rest
  {
    if b[0] == NEWLINE {
      line, rest := [], b[1..];
    } else {
      var l, r := FirstOf(b[1..]);
      line, rest := [b[0]] + l, r;
      assert b == [b[0]] + b[1..];
    }
  }

  lemma ShortTail(a: seq<byte>, b: seq<byte>)
    requires ShortLines(a + b)
    ensures ShortLines(Unfinished(a) + b)
  {
    hide Complete, Unfinished;
    SplitTail(a, b);
  }

  lemma NoneInFront(stream: seq<Read>)
    requires stream != [] && NEWLINE !in Bytes(stream)
    ensures NEWLINE !in Content(stream[0]) && NEWLINE !in Bytes(stream[1..])
  {
    assert Bytes(stream) == Content(stream[0]) + Bytes(stream[1..]);
    forall b | b in Content(stream[0]) || b in Bytes(stream[1..])
      ensures b in Bytes(stream)
    {
    }
  }

  lemma RegularRest(stream: seq<Read>)
    requires stream != [] && Regular(stream)
    ensures IsRegular(stream[0]) && Regular(stream[1..])
  {
    assert stream[0] in stream;
  }

  /** With what the lines so far left unfinished in the buffer (all of it, or of a line
      that never ends any part without a newline), the rest of the stream gives the
      records of its lines. */
  lemma {:induction false} ConsumesLines(unfinished: seq<byte>, pending: seq<byte>, last: nat, stream: seq<Read>, patience: nat)
    requires NEWLINE !in unfinished && NEWLINE !in pending && (|unfinished| <= MAX_LINE ==> pending == unfinished)
    requires Regular(stream) && |stream| <= patience && ShortLines(unfinished + Bytes(stream))
    ensures Consumed(pending, last, stream, patience) == (Records(last, Complete(unfinished + Bytes(stream))), false)
    decreases |stream|
  {
    hide Complete, Unfinished, Records, ShortLines, Trimmed, Regular;
    if stream == [] {
      assert unfinished + [] == unfinished;
      NoLine(unfinished);
      assert Records(last, []) == [] by { NoRecords(last); }
    } else {
      RegularRest(stream);
      var c, rest := Content(stream[0]), stream[1..];
      assert unfinished + Bytes(stream) == (unfinished + c) + Bytes(rest);
      if |unfinished| <= MAX_LINE {
        TrimmedNothing(unfinished + c);
        ShortTail(unfinished + c, Bytes(rest));
        SplitTail(unfinished + c, Bytes(rest));
        UnfinishedHasNone(unfinished + c);
        var frames := Records(last, Complete(unfinished + c));
        RecordsConcat(last, Complete(unfinished + c), Complete(Unfinished(unfinished + c) + Bytes(rest)));
        ConsumesLines(Unfinished(unfinished + c), Unfinished(unfinished + c), LastOf(last, frames), rest, patience - 1);
      } else {
        LongLineNeverEnds(unfinished, Bytes(stream));
        NoneInFront(stream);
        HasNone(pending, c);
        HasNone(unfinished, c);
        NoLine(Trimmed(pending + c));
        NoRecords(last);
        ConsumesLines(unfinished + c, Trimmed(pending + c), last, rest, patience - 1);
        var more := Consumed(Trimmed(pending + c), last, rest, patience - 1);
        assert [] + more.0 == more.0;
      }
    }
  }

  lemma NoRecords(last: nat)
    ensures Records(last, []) == [] && LastOf(last, []) == last
  {
  }

  lemma TrimmedNothing(s: seq<byte>)
    requires |s| <= MAX_PROGRESS_BUFFER
    ensures Trimmed(s) == s
  {
  }

  /** Whatever the chunks, a stream whose lines are at most 3584 bytes gives the same
      frames as splitting all of it on newlines: the strict record highs among its
      well-formed counters. */
  lemma ChunksNeverMatter(stream: seq<Read>, patience: nat)
    requires Regular(stream) && |stream| <= patience && ShortLines(Bytes(stream))
    ensures Consumed([], 0, stream, patience) == (Records(0, Complete(Bytes(stream))), false)
  {
    assert [] + Bytes(stream) == Bytes(stream);
    ConsumesLines([], [], 0, stream, patience);
  }

  // ---------------------------------------------------------------------------
  // And exactly then: one byte more can be misread
  // ---------------------------------------------------------------------------

  function OneByOne(s: seq<byte>): seq<Read>
    decreases |s|
  {
    if s == [] then [] else [Chunk([s[0]])] + OneByOne(s[1..])
  }

  lemma ReadFirst(r: Read, more: seq<Read>)
    ensures Bytes([r] + more) == Content(r) + Bytes(more)
    ensures Regular([r] + more) <==> IsRegular(r) && Regular(more)
  {
    hide Content, IsRegular;
    var stream := [r] + more;
    assert stream[0] == r && stream[1..] == more;
  }

  lemma OneByteRead(b: byte)
    ensures IsRegular(Chunk([b])) && Content(Chunk([b])) == [b]
  {
  }

  lemma {:induction false} OneByOneIs(s: seq<byte>, rest: seq<Read>)
    requires Regular(rest)
    ensures Bytes(OneByOne(s) + rest) == s + Bytes(rest) && Regular(OneByOne(s) + rest) && |OneByOne(s)| == |s|
    decreases |s|
  {
    hide Bytes, Regular, IsRegular, Content;
    if s == [] {
      assert OneByOne(s) + rest == rest && s + Bytes(rest) == Bytes(rest);
    } else {
      var r, others := Chunk([s[0]]), OneByOne(s[1..]);
      OneByOneIs(s[1..], rest);
      OneByteRead(s[0]);
      ReadFirst(r, others + rest);
      assert [r] + others + rest == [r] + (others + rest);
      assert s == [s[0]] + s[1..] && [s[0]] + s[1..] + Bytes(rest) == [s[0]] + (s[1..] + Bytes(rest));
    }
  }

  /** Bytes without a newline gather in the buffer until it is full. */
  lemma {:induction false} Gathers(pending: seq<byte>, s: seq<byte>, rest: seq<Read>, last: nat, patience: nat)
    requires NEWLINE !in pending && NEWLINE !in s && |pending| + |s| <= MAX_PROGRESS_BUFFER && |s| <= patience
    ensures Consumed(pending, last, OneByOne(s) + rest, patience) == Consumed(pending + s, last, rest, patience - |s|)
    decreases |s|
  {
    hide Consumed;
    if s == [] {
      assert OneByOne(s) + rest == rest && pending + [] == pending;
    } else {
      var p, more := pending + [s[0]], OneByOne(s[1..]) + rest;
      assert s == [s[0]] + s[1..] && OneByOne(s) + rest == [Chunk([s[0]])] + more;
      GathersOne(pending, s[0], more, last, patience);
      assert NEWLINE !in p && NEWLINE !in s[1..];
      Gathers(p, s[1..], rest, last, patience - 1);
      assert p + s[1..] == pending + s;
    }
  }

  lemma GathersOne(pending: seq<byte>, b: byte, more: seq<Read>, last: nat, patience: nat)
    requires NEWLINE !in pending && b != NEWLINE && |pending| < MAX_PROGRESS_BUFFER && 1 <= patience
    ensures Consumed(pending, last, [Chunk([b])] + more, patience) == Consumed(pending + [b], last, more, patience - 1)
  {
    hide Complete, Unfinished, Records, Trimmed;
    var stream, p := [Chunk([b])] + more, pending + [b];
    assert stream[0] == Chunk([b]) && stream[1..] == more;
    TrimmedNothing(p);
    NoLine(p);
    NoRecords(last);
    var rest := Consumed(p, last, more, patience - 1);
    assert [] + rest.0 == rest.0;
  }

  function Repeated(b: byte, n: nat): (s: seq<byte>)
    ensures |s| == n && forall i :: 0 <= i < n ==> s[i] == b
  {
    seq(n, i => b)
  }

  lemma {:induction false} ReturnsGo(text: seq<byte>, n: nat)
    requires text != [] && text[|text| - 1] != CARRIAGE_RETURN
    ensures WithoutReturns(text + Repeated(CARRIAGE_RETURN, n)) == text
  {
    var tail := Repeated(CARRIAGE_RETURN, n);
    if n == 0 {
      assert text + tail == text;
    } else {
      var line := text + tail;
      assert line[..|line| - 1] == text + Repeated(CARRIAGE_RETURN, n - 1);
      ReturnsGo(text, n - 1);
    }
  }

  const OTHER: byte := 120
  const COUNTER: seq<byte> := FRAME + [EQUALS, 55]

  /** A line of 3585 bytes that is no counter: its first byte aside, it is one. */
  function Misread(): (line: seq<byte>)
    ensures |line| == MAX_LINE + 1
  {
    [OTHER] + Tail()
  }

  function Tail(): (tail: seq<byte>)
    ensures |tail| == MAX_LINE
  {
    COUNTER + Repeated(CARRIAGE_RETURN, MAX_LINE - 7)
  }

  /** The line byte by byte, then its newline with 511 bytes of the next line. */
  function MisreadStream(): seq<Read> {
    OneByOne(Misread()) + [Chunk(LastChunk())]
  }

  function LastChunk(): (chunk: seq<byte>)
    ensures |chunk| == PROGRESS_READ_SIZE
  {
    [NEWLINE] + Repeated(OTHER, PROGRESS_READ_SIZE - 1)
  }

  lemma TailIsCounter()
    ensures FrameOf(Tail()) == Some(7) && NEWLINE !in Tail()
  {
    hide WithoutReturns;
    ReturnsGo(COUNTER, MAX_LINE - 7);
    assert FRAME + [EQUALS] <= COUNTER && COUNTER[|FRAME| + 1..] == [55];
    assert NumberOf([55]) == 7;
  }

  lemma MisreadIsNoCounter()
    ensures FrameOf(Misread()) == None && NEWLINE !in Misread()
  {
    hide WithoutReturns;
    TailIsCounter();
    assert Misread() == ([OTHER] + COUNTER) + Repeated(CARRIAGE_RETURN, MAX_LINE - 7);
    ReturnsGo([OTHER] + COUNTER, MAX_LINE - 7);
    assert ([OTHER] + COUNTER)[0] != (FRAME + [EQUALS])[0];
  }

  /** The last chunk fills the buffer by one byte too many, and the byte that goes is
      the one that made the line no counter. */
  lemma LosesFront()
    ensures Trimmed(Misread() + Bounded(LastChunk())) == Terminated(Tail()) + Repeated(OTHER, PROGRESS_READ_SIZE - 1)
  {
    var pending := Misread() + LastChunk();
    assert pending == [OTHER] + (Terminated(Tail()) + Repeated(OTHER, PROGRESS_READ_SIZE - 1));
  }

  lemma OneLine(line: seq<byte>, n: nat)
    requires NEWLINE !in line
    ensures var s := Terminated(line) + Repeated(OTHER, n); Complete(s) == [line] && Unfinished(s) == Repeated(OTHER, n)
  {
    hide Complete, Unfinished;
    FirstLine(line, Repeated(OTHER, n));
    NoLine(Repeated(OTHER, n));
    assert [line] + [] == [line];
  }

  lemma OneRecord(last: nat, line: seq<byte>)
    ensures Records(last, [line]) == (if Next(last, line) == last then [] else [Next(last, line)])
  {
    hide FrameOf;
    RecordsNext(last, [line]);
    NoRecords(Next(last, line));
  }

  lemma LastChunkGivesSeven(patience: nat)
    requires 1 <= patience
    ensures Consumed(Misread(), 0, [Chunk(LastChunk())], patience).0 == [7]
  {
    hide Complete, Unfinished, FrameOf, Trimmed, Records, Misread, Tail, LastChunk, Bounded;
    LosesFront();
    TailIsCounter();
    OneLine(Tail(), PROGRESS_READ_SIZE - 1);
    OneRecord(0, Tail());
    assert !IsEnd(Chunk(LastChunk())) && Content(Chunk(LastChunk())) == LastChunk();
    assert [7] + [] == [7];
  }

  lemma MisreadBytes()
    ensures var stream := MisreadStream();
            && Regular(stream) && |stream| == MAX_LINE + 2
            && Bytes(stream) == Terminated(Misread()) + Repeated(OTHER, PROGRESS_READ_SIZE - 1)
  {
    hide Misread;
    var line, rest := Misread(), [Chunk(LastChunk())];
    OneByOneIs(line, rest);
    assert Bytes(rest) == LastChunk() + [] == LastChunk();
    ChunkIs(line);
  }

  lemma MisreadIsSeven()
    ensures Consumed([], 0, MisreadStream(), MAX_LINE + 2).0 == [7]
  {
    hide Misread, LastChunk, Consumed;
    var line := Misread();
    MisreadIsNoCounter();
    Gathers([], line, [Chunk(LastChunk())], 0, MAX_LINE + 2);
    assert [] + line == line;
    LastChunkGivesSeven(1);
  }

  lemma MisreadHasNoRecord()
    ensures var s := Terminated(Misread()) + Repeated(OTHER, PROGRESS_READ_SIZE - 1);
            LinesWithin(s, MAX_LINE + 1) && Records(0, Complete(s)) == []
  {
    hide Complete, FrameOf, Records, Misread;
    MisreadIsNoCounter();
    OneLine(Misread(), PROGRESS_READ_SIZE - 1);
    OneRecord(0, Misread());
  }

  /** A line of 3585 bytes, shorter than the buffer, is accepted as a counter it is not. */
  lemma LineMisread()
    ensures var stream := MisreadStream();
            && Regular(stream) && LinesWithin(Bytes(stream), MAX_LINE + 1)
            && Consumed([], 0, stream, |stream|).0 == [7] && Records(0, Complete(Bytes(stream))) == []
  {
    hide Complete, Records, MisreadStream, Misread, Repeated, Consumed, Bytes, Regular, LinesWithin;
    MisreadBytes();
    MisreadIsSeven();
    MisreadHasNoRecord();
  }

  lemma ChunkIs(line: seq<byte>)
    ensures line + LastChunk() == Terminated(line) + Repeated(OTHER, PROGRESS_READ_SIZE - 1)
  {
  }

  /** However a stream is read, in chunks of at most 512 bytes, it gives the frames of
      its lines. */
  ghost predicate ReadsAsLines(stream: seq<Read>) {
    Consumed([], 0, stream, |stream|) == (Records(0, Complete(Bytes(stream))), false)
  }

  /** That is so of all streams whose lines are at most `n` bytes exactly when a line
      and one more chunk fit the buffer. */
  lemma ChunksNeverMatterExactlyWhen(n: nat)
    ensures (forall stream :: Regular(stream) && LinesWithin(Bytes(stream), n) ==> ReadsAsLines(stream)) <==> n <= MAX_LINE
  {
    hide Complete, Consumed, Records, Regular, Bytes;
    if n <= MAX_LINE {
      forall stream | Regular(stream) && LinesWithin(Bytes(stream), n)
        ensures ReadsAsLines(stream)
      {
        ChunksNeverMatter(stream, |stream|);
      }
    } else {
      LineMisread();
      assert !ReadsAsLines(MisreadStream());
    }
  }
}
