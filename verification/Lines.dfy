/** Bytes, and text files as newline-separated pieces (`bytes.split(b"\n")`). */
module Lines {

  newtype byte = x: int | 0 <= x < 256

  const NEWLINE: byte := 10

  /** The pieces between newlines; one more piece than there are newlines. */
  function Split(s: seq<byte>): (pieces: seq<seq<byte>>)
    ensures |pieces| >= 1
  {
    if s == [] then [[]]
    else
      var rest := Split(s[1..]);
      if s[0] == NEWLINE then [[]] + rest
      else Longer(s[0], rest)
  }

  function Init<T>(s: seq<T>): seq<T>
    requires s != []
  {
    s[..|s| - 1]
  }

  function Last<T>(s: seq<T>): T
    requires s != []
  {
    s[|s| - 1]
  }

  /** The lines ended by a newline, and what follows the last newline. */
  function Complete(s: seq<byte>): seq<seq<byte>> {
    Init(Split(s))
  }

  function Unfinished(s: seq<byte>): seq<byte> {
    Last(Split(s))
  }

  function Terminated(line: seq<byte>): seq<byte> {
    line + [NEWLINE]
  }

  /** Lines written one after another, each with its newline. */
  function Join(lines: seq<seq<byte>>): seq<byte> {
    if lines == [] then [] else Terminated(lines[0]) + Join(lines[1..])
  }

  function TotalBytes(lines: seq<seq<byte>>): nat {
    if lines == [] then 0 else |lines[0]| + 1 + TotalBytes(lines[1..])
  }

  /** Pieces followed by pieces: the two at the seam are one. */
  function Fuse(a: seq<seq<byte>>, b: seq<seq<byte>>): seq<seq<byte>>
    requires a != [] && b != []
  {
    Init(a) + [Last(a) + b[0]] + b[1..]
  }

  function Longer(c: byte, pieces: seq<seq<byte>>): seq<seq<byte>>
    requires pieces != []
  {
    [[c] + pieces[0]] + pieces[1..]
  }

  lemma FuseLonger(c: byte, a: seq<seq<byte>>, b: seq<seq<byte>>)
    requires a != [] && b != []
    ensures Fuse(Longer(c, a), b) == Longer(c, Fuse(a, b))
  {
    if |a| == 1 {
      assert [c] + a[0] + b[0] == [c] + (a[0] + b[0]);
    } else {
      assert Init(Longer(c, a)) == [[c] + a[0]] + Init(a)[1..];
      assert Fuse(a, b)[1..] == Init(a)[1..] + [Last(a) + b[0]] + b[1..];
    }
  }

  /** Splitting distributes over concatenation. */
  lemma {:induction false} SplitConcat(a: seq<byte>, b: seq<byte>)
    ensures Split(a + b) == Fuse(Split(a), Split(b))
  {
    if a == [] {
      assert a + b == b && [] + Split(b)[0] == Split(b)[0];
    } else {
      assert (a + b)[1..] == a[1..] + b;
      SplitConcat(a[1..], b);
      var rest := Split(a[1..]);
      if a[0] == NEWLINE {
        assert Init([[]] + rest) == [[]] + Init(rest);
      } else {
        FuseLonger(a[0], rest, Split(b));
      }
    }
  }

  lemma {:induction false} SplitOneLine(line: seq<byte>)
    requires NEWLINE !in line
    ensures Split(line) == [line]
  {
    if line != [] {
      SplitOneLine(line[1..]);
      assert line == [line[0]] + line[1..];
    }
  }

  lemma SplitFirstLine(line: seq<byte>, rest: seq<byte>)
    requires NEWLINE !in line
    ensures Split(Terminated(line) + rest) == [line] + Split(rest)
  {
    SplitOneLine(line);
    assert Terminated(line) + rest == line + ([NEWLINE] + rest);
    SplitConcat(line, [NEWLINE] + rest);
    assert ([NEWLINE] + rest)[1..] == rest;
    assert line + [] == line;
  }

  /** Newline-free lines written out split back into themselves. */
  lemma {:induction false} SplitJoin(lines: seq<seq<byte>>)
    requires forall i :: 0 <= i < |lines| ==> NEWLINE !in lines[i]
    ensures Complete(Join(lines)) == lines && Unfinished(Join(lines)) == []
    ensures |Join(lines)| == TotalBytes(lines)
  {
    if lines != [] {
      SplitJoin(lines[1..]);
      SplitFirstLine(lines[0], Join(lines[1..]));
      assert lines == [lines[0]] + lines[1..];
    }
  }

  lemma {:induction false} JoinConcat(a: seq<seq<byte>>, b: seq<seq<byte>>)
    ensures Join(a + b) == Join(a) + Join(b)
    ensures TotalBytes(a + b) == TotalBytes(a) + TotalBytes(b)
  {
    if a == [] {
      assert a + b == b;
    } else {
      assert (a + b)[1..] == a[1..] + b;
      JoinConcat(a[1..], b);
      assert Terminated(a[0]) + (Join(a[1..]) + Join(b)) == Terminated(a[0]) + Join(a[1..]) + Join(b);
    }
  }
}
