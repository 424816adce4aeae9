/** Python's `str.strip`, `str.split` and the two combined. */
module Text {

  predicate IsSpace(c: char) {
    var n := c as int;
    || 9 <= n <= 13 || 28 <= n <= 32 || n == 0x85 || n == 0xA0 || n == 0x1680
    || 0x2000 <= n <= 0x200A || n == 0x2028 || n == 0x2029 || n == 0x202F || n == 0x205F || n == 0x3000
  }

  function StripLeft(s: string): string {
    if s != [] && IsSpace(s[0]) then StripLeft(s[1..]) else s
  }

  function StripRight(s: string): string {
    if s != [] && IsSpace(s[|s| - 1]) then StripRight(s[..|s| - 1]) else s
  }

  function Strip(s: string): string {
    StripRight(StripLeft(s))
  }

  predicate IsStripped(s: string) {
    s == [] || (!IsSpace(s[0]) && !IsSpace(s[|s| - 1]))
  }

  lemma {:induction false} StripLeftEnds(s: string)
    ensures var r := StripLeft(s); |r| <= |s| && (r == [] || !IsSpace(r[0]))
  {
    if s != [] && IsSpace(s[0]) {
      StripLeftEnds(s[1..]);
    }
  }

  lemma {:induction false} StripRightEnds(s: string)
    requires s == [] || !IsSpace(s[0])
    ensures var r := StripRight(s); |r| <= |s| && IsStripped(r)
  {
    if s != [] && IsSpace(s[|s| - 1]) {
      StripRightEnds(s[..|s| - 1]);
    }
  }

  /** Stripping leaves nothing to strip, so stripping twice is stripping once. */
  lemma StripIdempotent(s: string)
    ensures IsStripped(Strip(s)) && Strip(Strip(s)) == Strip(s) && |Strip(s)| <= |s|
  {
    StripLeftEnds(s);
    StripRightEnds(StripLeft(s));
    StripFixed(Strip(s));
  }

  /** Stripping takes off whitespace and nothing else, and all of it at either end. */
  lemma {:induction false} StripTakesSpaces(s: string) returns (from: nat, to: nat)
    ensures from <= to <= |s| && Strip(s) == s[from..to] && IsStripped(Strip(s))
    ensures forall i :: 0 <= i < from || to <= i < |s| ==> IsSpace(s[i])
  {
    StripIdempotent(s);
    from := StripLeftTakes(s);
    to := StripRightTakes(s[from..]);
    forall i | from + to <= i < |s|
      ensures IsSpace(s[i])
    {
      assert s[i] == s[from..][i - from];
    }
    to := from + to;
  }

  lemma {:induction false} StripLeftTakes(s: string) returns (n: nat)
    ensures n <= |s| && StripLeft(s) == s[n..] && forall i :: 0 <= i < n ==> IsSpace(s[i])
  {
    n := 0;
    if s != [] && IsSpace(s[0]) {
      n := StripLeftTakes(s[1..]);
      n := n + 1;
    }
  }

  lemma {:induction false} StripRightTakes(s: string) returns (n: nat)
    ensures n <= |s| && StripRight(s) == s[..n] && forall i :: n <= i < |s| ==> IsSpace(s[i])
  {
    n := |s|;
    if s != [] && IsSpace(s[|s| - 1]) {
      n := StripRightTakes(s[..|s| - 1]);
    }
  }

  lemma StripFixed(s: string)
    requires IsStripped(s)
    ensures Strip(s) == s
  {
  }

  function WordLength(s: string): (n: nat)
    ensures n <= |s|
    ensures forall i :: 0 <= i < n ==> !IsSpace(s[i])
    ensures n < |s| ==> IsSpace(s[n])
    ensures s != [] && !IsSpace(s[0]) ==> 1 <= n
  {
    if s == [] || IsSpace(s[0]) then 0 else 1 + WordLength(s[1..])
  }

  /** `s.split()`: the maximal runs without whitespace. */
  function Words(s: string): seq<string>
    decreases |s|
  {
    if s == [] then []
    else if IsSpace(s[0]) then Words(s[1..])
    else [s[..WordLength(s)]] + Words(s[WordLength(s)..])
  }

  function JoinWords(words: seq<string>): string {
    if words == [] then ""
    else if |words| == 1 then words[0]
    else words[0] + " " + JoinWords(words[1..])
  }

  predicate IsWord(w: string) {
    w != [] && forall i :: 0 <= i < |w| ==> !IsSpace(w[i])
  }

  /** `" ".join(s.split())` */
  function Collapse(s: string): string {
    JoinWords(Words(s))
  }

  lemma {:induction false} WordsAreWords(s: string)
    ensures forall w :: w in Words(s) ==> IsWord(w)
    decreases |s|
  {
    if s != [] {
      if IsSpace(s[0]) {
        WordsAreWords(s[1..]);
      } else {
        WordsAreWords(s[WordLength(s)..]);
      }
    }
  }

  lemma FirstWord(w: string, rest: string)
    requires IsWord(w) && (rest == [] || IsSpace(rest[0]))
    ensures Words(w + rest) == [w] + Words(rest)
  {
    var s := w + rest;
    assert forall i :: 0 <= i < |w| ==> s[i] == w[i];
    assert rest != [] ==> s[|w|] == rest[0];
    assert WordLength(s) == |w|;
    assert s[0] == w[0] && s[..|w|] == w && s[|w|..] == rest;
  }

  lemma {:induction false} WordsOfJoin(words: seq<string>)
    requires forall w :: w in words ==> IsWord(w)
    ensures Words(JoinWords(words)) == words
  {
    if words == [] {
    } else if |words| == 1 {
      assert words[0] in words && words[0] + "" == words[0];
      FirstWord(words[0], "");
    } else {
      assert words[0] in words;
      var rest := " " + JoinWords(words[1..]);
      assert words[0] + " " + JoinWords(words[1..]) == words[0] + rest;
      FirstWord(words[0], rest);
      assert rest[1..] == JoinWords(words[1..]);
      WordsOfJoin(words[1..]);
    }
  }

  /** Text on either side of a whitespace is split on its own: with words being their own
      only word, this is all that splitting does. */
  lemma {:induction false} WordsSplitAtSpaces(a: string, c: char, b: string)
    requires IsSpace(c)
    ensures Words(a + [c] + b) == Words(a) + Words(b)
    decreases |a|
  {
    var s := a + [c] + b;
    if a == [] {
      assert s[0] == c && s[1..] == b;
    } else if IsSpace(a[0]) {
      assert s[0] == a[0] && s[1..] == a[1..] + [c] + b;
      WordsSplitAtSpaces(a[1..], c, b);
    } else {
      var n := WordLength(a);
      assert a == a[..n] + a[n..] && s == a[..n] + (a[n..] + [c] + b);
      WordsSplitAtSpaces(a[n..], c, b);
      FirstWord(a[..n], a[n..] + [c] + b);
      FirstWord(a[..n], a[n..]);
    }
  }

  lemma WordIsItsOwn(w: string)
    requires IsWord(w)
    ensures Words(w) == [w]
  {
    FirstWord(w, "");
    assert w + "" == w;
  }

  /** Collapsing whitespace a second time changes nothing. */
  lemma CollapseIdempotent(s: string)
    ensures Collapse(Collapse(s)) == Collapse(s)
  {
    WordsAreWords(s);
    WordsOfJoin(Words(s));
  }

  /** Collapsing only drops characters and puts single spaces between words. */
  lemma {:induction false} CollapseKeepsCharacters(s: string, ok: char -> bool)
    requires ok(' ') && forall i :: 0 <= i < |s| ==> ok(s[i])
    ensures forall c :: c in Collapse(s) ==> ok(c)
  {
    WordsKeepCharacters(s, ok);
    JoinKeepsCharacters(Words(s), ok);
  }

  lemma {:induction false} WordsKeepCharacters(s: string, ok: char -> bool)
    requires forall i :: 0 <= i < |s| ==> ok(s[i])
    ensures forall w, c :: w in Words(s) && c in w ==> ok(c)
    decreases |s|
  {
    if s != [] {
      if IsSpace(s[0]) {
        WordsKeepCharacters(s[1..], ok);
      } else {
        WordsKeepCharacters(s[WordLength(s)..], ok);
      }
    }
  }

  lemma {:induction false} JoinKeepsCharacters(words: seq<string>, ok: char -> bool)
    requires ok(' ') && forall w, c :: w in words && c in w ==> ok(c)
    ensures forall c :: c in JoinWords(words) ==> ok(c)
  {
    if |words| == 1 {
      assert words[0] in words;
    } else if |words| > 1 {
      assert words[0] in words;
      JoinKeepsCharacters(words[1..], ok);
    }
  }
}
