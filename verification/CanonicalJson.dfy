/** JSON text as the journal writes it: sorted keys, no spaces, UTF-8
    (`canonical_json` in flyto_robotics/device_events.py, over Python's `json.dumps`).

    It loses nothing, never contains a newline, and frames a record and a header
    with a fixed number of bytes. */
module CanonicalJson {
  import opened Decimal
  import opened Lines
  import opened DeviceEvent

  const QUOTE: byte := 0x22
  const BACKSLASH: byte := 0x5C
  const COMMA: byte := 0x2C
  const COLON: byte := 0x3A

  // ---------------------------------------------------------------------------
  // Characters
  // ---------------------------------------------------------------------------

  /** Characters JSON writes as a backslash and one letter. */
  function ShortEscape(c: char): (letter: byte) {
    if c == '\"' then QUOTE else if c == '\\' then BACKSLASH
    else if c as int == 8 then 0x62
    else if c as int == 9 then 0x74
    else if c as int == 10 then 0x6E
    else if c as int == 12 then 0x66
    else if c as int == 13 then 0x72
    else 0
  }

  function HexDigit(n: nat): byte
    requires n < 16
  {
    if n < 10 then (0x30 + n) as byte else (0x61 + n - 10) as byte
  }

  /** One continuation byte of UTF-8: six bits of the code point. */
  function Continuation(n: nat): byte {
    (0x80 + n % 64) as byte
  }

  function Utf8(n: nat): seq<byte>
    requires n <= 0x10FFFF
  {
    if n < 0x80 then [n as byte]
    else if n < 0x800 then [(0xC0 + n / 64) as byte, Continuation(n)]
    else if n < 0x10000 then [(0xE0 + n / 64 / 64) as byte, Continuation(n / 64), Continuation(n)]
    else [(0xF0 + n / 64 / 64 / 64) as byte, Continuation(n / 64 / 64), Continuation(n / 64), Continuation(n)]
  }

  /** A character of a JSON string: quote, backslash and controls are escaped, the
      rest is written as it is. */
  function CharBytes(c: char): seq<byte> {
    if ShortEscape(c) != 0 then [BACKSLASH, ShortEscape(c)]
    else if c < ' ' then [BACKSLASH, 0x75, 0x30, 0x30, HexDigit(c as int / 16), HexDigit(c as int % 16)]
    else Utf8(c as int)
  }

  function Characters(s: string): seq<byte> {
    if s == [] then [QUOTE] else CharBytes(s[0]) + Characters(s[1..])
  }

  function StringBytes(s: string): seq<byte> {
    [QUOTE] + Characters(s)
  }

  function Ascii(s: string): seq<byte>
    requires forall i :: 0 <= i < |s| ==> (s[i] as int) < 128
  {
    seq(|s|, i requires 0 <= i < |s| => s[i] as int as byte)
  }

  lemma Utf8Prefix(m: nat, n: nat, s: seq<byte>, t: seq<byte>)
    requires m <= 0x10FFFF && n <= 0x10FFFF && Utf8(m) + s == Utf8(n) + t
    ensures m == n && s == t
  {
    var a, b := Utf8(m), Utf8(n);
    var whole := a + s;
    assert whole[..|a|] == a && whole[|a|..] == s;
    assert (b + t)[..|b|] == b && (b + t)[|b|..] == t;
    assert whole[0] == a[0] == b[0];
    assert |a| == |b|;
    assert a == b;
    assert m % 64 == n % 64 by { assert a[|a| - 1] == b[|a| - 1]; }
    if m >= 0x800 {
      assert (m / 64) % 64 == (n / 64) % 64 by { assert a[|a| - 2] == b[|a| - 2]; }
    }
    if m >= 0x10000 {
      assert (m / 64 / 64) % 64 == (n / 64 / 64) % 64 by { assert a[|a| - 3] == b[|a| - 3]; }
    }
  }

  lemma FirstOfUtf8(n: nat)
    requires n <= 0x10FFFF
    ensures Utf8(n) != [] && (n < 0x80 ==> Utf8(n)[0] == n as byte) && (n >= 0x80 ==> Utf8(n)[0] >= 0x80)
    ensures n >= 0x80 ==> forall x :: x in Utf8(n) ==> x >= 0x80
  {
  }

  predicate IsEscaped(c: char) {
    ShortEscape(c) != 0 || c < ' '
  }

  /** Only an escape begins with a backslash. */
  lemma CharKind(c: char)
    ensures IsEscaped(c) <==> CharBytes(c)[0] == BACKSLASH
    ensures !IsEscaped(c) ==> CharBytes(c) == Utf8(c as int)
    ensures IsEscaped(c) ==> 2 <= |CharBytes(c)| && (CharBytes(c)[1] == 0x75 <==> ShortEscape(c) == 0)
    ensures IsEscaped(c) ==> |CharBytes(c)| == if ShortEscape(c) == 0 then 6 else 2
  {
    hide Utf8;
    FirstOfUtf8(c as int);
  }

  /** Two escapes that agree are of one character. */
  lemma EscapeInjective(a: char, b: char)
    requires IsEscaped(a) && IsEscaped(b) && CharBytes(a) == CharBytes(b)
    ensures a == b
  {
    hide Utf8;
    CharKind(a);
    if ShortEscape(a) == 0 {
      var u, v := CharBytes(a), CharBytes(b);
      assert u[4] == v[4] && u[5] == v[5];
    } else {
      assert CharBytes(a)[1] == CharBytes(b)[1];
    }
  }

  lemma CharPrefix(a: char, b: char, s: seq<byte>, t: seq<byte>)
    requires CharBytes(a) + s == CharBytes(b) + t
    ensures a == b && s == t
  {
    hide CharBytes, Utf8, ShortEscape, IsEscaped;
    var u, v := CharBytes(a), CharBytes(b);
    CharKind(a);
    CharKind(b);
    CharIsPlain(a);
    CharIsPlain(b);
    assert (u + s)[0] == u[0] && (v + t)[0] == v[0];
    if IsEscaped(a) {
      assert (u + s)[1] == u[1] && (v + t)[1] == v[1];
      SameLengthPrefix(u, v, s, t);
      EscapeInjective(a, b);
    } else {
      Utf8Prefix(a as int, b as int, s, t);
    }
  }

  lemma CharIsPlain(c: char)
    ensures var b := CharBytes(c); b != [] && b[0] != QUOTE && NEWLINE !in b
  {
    FirstOfUtf8(c as int);
  }

  lemma {:induction false} CharactersPrefix(a: string, b: string, s: seq<byte>, t: seq<byte>)
    requires Characters(a) + s == Characters(b) + t
    ensures a == b && s == t
  {
    hide CharBytes;
    var whole := Characters(a) + s;
    if a != [] {
      CharIsPlain(a[0]);
      assert whole == CharBytes(a[0]) + (Characters(a[1..]) + s);
      assert whole[0] == CharBytes(a[0])[0];
    } else {
      assert whole[0] == QUOTE && whole[1..] == s;
    }
    if b != [] {
      CharIsPlain(b[0]);
      assert Characters(b) + t == CharBytes(b[0]) + (Characters(b[1..]) + t);
      assert (Characters(b) + t)[0] == CharBytes(b[0])[0];
    } else {
      assert (Characters(b) + t)[0] == QUOTE && (Characters(b) + t)[1..] == t;
    }
    if a != [] && b != [] {
      CharPrefix(a[0], b[0], Characters(a[1..]) + s, Characters(b[1..]) + t);
      CharactersPrefix(a[1..], b[1..], s, t);
      assert a == [a[0]] + a[1..] && b == [b[0]] + b[1..];
    }
  }

  lemma StringPrefix(a: string, b: string, s: seq<byte>, t: seq<byte>)
    requires StringBytes(a) + s == StringBytes(b) + t
    ensures a == b && s == t
  {
    hide Characters;
    AfterFirst(QUOTE, Characters(a), Characters(b), s, t);
    CharactersPrefix(a, b, s, t);
  }

  lemma {:induction false} StringHasNoNewline(s: string)
    ensures NEWLINE !in Characters(s)
  {
    if s != [] {
      CharIsPlain(s[0]);
      StringHasNoNewline(s[1..]);
    }
  }

  /** Printable ASCII that needs no escape costs one byte a character. */
  predicate IsPlain(s: string) {
    forall i :: 0 <= i < |s| ==> ' ' <= s[i] < 0x7F as char && s[i] != '\"' && s[i] != '\\'
  }

  lemma {:induction false} PlainSize(s: string)
    requires IsPlain(s)
    ensures |StringBytes(s)| == |s| + 2
  {
    if s != [] {
      PlainSize(s[1..]);
    }
  }

  // ---------------------------------------------------------------------------
  // Numbers
  // ---------------------------------------------------------------------------

  function IntText(n: int): (text: string)
    ensures 1 <= |text| && (text[0] == '-' || '0' <= text[0] <= '9')
    ensures forall i :: 0 <= i < |text| ==> text[i] == '-' || IsDigit(text[i])
  {
    DecimalRoundTrip(if n < 0 then -n else n);
    if n < 0 then "-" + ToDecimal(-n) else ToDecimal(n)
  }

  predicate IsNumberByte(b: byte) {
    0x30 <= b <= 0x39 || b == 0x2B || b == 0x2D || b == 0x2E || b == 0x65
  }

  /** What follows a value: nothing, or a byte that cannot continue a number. */
  predicate Delimited(s: seq<byte>) {
    s == [] || !IsNumberByte(s[0])
  }

  function NumberBytes(text: string): (b: seq<byte>)
    requires forall i :: 0 <= i < |text| ==> IsNumberCharacter(text[i])
    ensures |b| == |text| && forall i :: 0 <= i < |b| ==> IsNumberByte(b[i]) && b[i] as int == text[i] as int
  {
    assert forall i :: 0 <= i < |text| ==> IsNumberCharacter(text[i]) && (text[i] as int) < 128;
    Ascii(text)
  }

  lemma FirstAfter(u: seq<byte>, v: seq<byte>, s: seq<byte>, t: seq<byte>)
    requires u + s == v + t && |u| < |v|
    ensures s != [] && s[0] == v[|u|]
  {
    assert |u + s| == |v| + |t| && (u + s)[|u|] == (v + t)[|u|];
  }

  /** A number ends where no more of its characters follow. */
  lemma NumberPrefix(a: string, b: string, s: seq<byte>, t: seq<byte>)
    requires (forall i :: 0 <= i < |a| ==> IsNumberCharacter(a[i])) && (forall i :: 0 <= i < |b| ==> IsNumberCharacter(b[i]))
    requires Delimited(s) && Delimited(t) && NumberBytes(a) + s == NumberBytes(b) + t
    ensures a == b && s == t
  {
    var u, v := NumberBytes(a), NumberBytes(b);
    if |u| < |v| {
      FirstAfter(u, v, s, t);
      assert false;
    } else if |v| < |u| {
      FirstAfter(v, u, t, s);
      assert false;
    }
    assert (u + s)[..|u|] == u && (u + s)[|u|..] == s && (v + t)[..|v|] == v && (v + t)[|v|..] == t;
    assert u == v;
    forall i | 0 <= i < |a|
      ensures a[i] == b[i]
    {
      assert u[i] as int == a[i] as int && v[i] as int == b[i] as int;
    }
  }

  lemma IntTextInjective(m: int, n: int)
    requires IntText(m) == IntText(n)
    ensures m == n
  {
    DecimalRoundTrip(if m < 0 then -m else m);
    DecimalRoundTrip(if n < 0 then -n else n);
    if m < 0 && n < 0 {
      assert IntText(m)[1..] == ToDecimal(-m) && IntText(n)[1..] == ToDecimal(-n);
      DecimalInjective(-m, -n);
    } else if m >= 0 && n >= 0 {
      DecimalInjective(m, n);
    }
  }

  lemma IntIsNoFloat(n: int, text: FloatText)
    ensures IntText(n) != text
  {
  }

  // ---------------------------------------------------------------------------
  // Keys, in the order of their texts
  // ---------------------------------------------------------------------------

  function KeyIndex(k: Key): (i: nat)
    requires !k.Other?
    ensures i < |KEY_TEXTS|
  {
    match k
    case Contract => 0 case EventId => 1 case ResourceId => 2 case Component => 3 case Sequence => 4
    case ObservedAtKey => 5 case Severity => 6 case Status => 7 case ReasonCode => 8 case ActionCodesKey => 9
    case CorrelationId => 10 case RunId => 11 case Message => 12 case DetailsKey => 13 case Redaction => 14
    case EventHash => 15 case Policy => 16 case FreeText => 17 case RawLogsIncluded => 18
    case CredentialsIncluded => 19 case PersonalDataIncluded => 20 case RedactedKeyCount => 21
    case JournalSequence => 22 case EventKey => 23 case Journal => 24 case JournalId => 25
  }

  function KeyText(k: Key): string {
    if k.Other? then k.name else KEY_TEXTS[KeyIndex(k)]
  }

  lemma KeyTextsDiffer(i: nat, j: nat)
    requires i < j < |KEY_TEXTS|
    ensures KEY_TEXTS[i] != KEY_TEXTS[j]
  {
  }

  lemma KeyIndexInjective(a: Key, b: Key)
    requires !a.Other? && !b.Other? && KeyIndex(a) == KeyIndex(b)
    ensures a == b
  {
  }

  lemma OtherTextDiffers(a: Key, b: Key)
    requires a.Other? && !b.Other?
    ensures KeyText(a) != KeyText(b)
  {
    hide KeyIndex;
    assert KEY_TEXTS[KeyIndex(b)] in KEY_TEXTS;
  }

  lemma KeyTextInjective(a: Key, b: Key)
    requires KeyText(a) == KeyText(b)
    ensures a == b
  {
    if a.Other? != b.Other? {
      OtherTextDiffers(if a.Other? then a else b, if a.Other? then b else a);
    } else if !a.Other? {
      NamedTextInjective(a, b);
    }
  }

  lemma NamedTextInjective(a: Key, b: Key)
    requires !a.Other? && !b.Other? && KeyText(a) == KeyText(b)
    ensures a == b
  {
    hide KeyIndex;
    if KeyIndex(a) < KeyIndex(b) {
      KeyTextsDiffer(KeyIndex(a), KeyIndex(b));
    } else if KeyIndex(b) < KeyIndex(a) {
      KeyTextsDiffer(KeyIndex(b), KeyIndex(a));
    }
    KeyIndexInjective(a, b);
  }

  /** Not after, by code points. */
  predicate Precedes(a: string, b: string) {
    a == [] || (b != [] && (a[0] < b[0] || (a[0] == b[0] && Precedes(a[1..], b[1..]))))
  }

  lemma {:induction false} PrecedesTotal(a: string, b: string)
    ensures Precedes(a, b) || Precedes(b, a)
  {
    if a != [] && b != [] {
      PrecedesTotal(a[1..], b[1..]);
    }
  }

  lemma {:induction false} PrecedesTransitive(a: string, b: string, c: string)
    requires Precedes(a, b) && Precedes(b, c)
    ensures Precedes(a, c)
  {
    if a != [] && a[0] == b[0] == c[0] {
      PrecedesTransitive(a[1..], b[1..], c[1..]);
    }
  }

  ghost predicate IsSorted(keys: seq<Key>) {
    forall i, j :: 0 <= i < j < |keys| ==> keys[i] != keys[j] && Precedes(KeyText(keys[i]), KeyText(keys[j]))
  }

  function Insert(k: Key, keys: seq<Key>): seq<Key> {
    if keys == [] || Precedes(KeyText(k), KeyText(keys[0])) then [k] + keys else [keys[0]] + Insert(k, keys[1..])
  }

  lemma {:induction false} InsertKeepsOrder(k: Key, keys: seq<Key>)
    requires IsSorted(keys) && k !in keys
    ensures IsSorted(Insert(k, keys)) && (forall x :: x in Insert(k, keys) <==> x == k || x in keys)
  {
    if keys == [] {
    } else if Precedes(KeyText(k), KeyText(keys[0])) {
      forall j | 0 < j < |keys|
        ensures Precedes(KeyText(k), KeyText(keys[j]))
      {
        PrecedesTransitive(KeyText(k), KeyText(keys[0]), KeyText(keys[j]));
      }
    } else {
      PrecedesTotal(KeyText(k), KeyText(keys[0]));
      InsertKeepsOrder(k, keys[1..]);
      var rest := Insert(k, keys[1..]);
      forall j | 0 <= j < |rest|
        ensures keys[0] != rest[j] && Precedes(KeyText(keys[0]), KeyText(rest[j]))
      {
        assert rest[j] in rest;
      }
    }
  }

  /** The keys of an object as they are written: sorted by their texts. */
  ghost function InOrder(keys: set<Key>): (s: seq<Key>)
    ensures IsSorted(s) && |s| == |keys| && forall k :: k in s <==> k in keys
  {
    if keys == {} then []
    else
      var k :| k in keys;
      var rest := InOrder(keys - {k});
      InsertKeepsOrder(k, rest);
      InsertLength(k, rest);
      Insert(k, rest)
  }

  lemma {:induction false} InsertLength(k: Key, keys: seq<Key>)
    ensures |Insert(k, keys)| == |keys| + 1
  {
    if keys != [] && !Precedes(KeyText(k), KeyText(keys[0])) {
      InsertLength(k, keys[1..]);
    }
  }

  // ---------------------------------------------------------------------------
  // Values
  // ---------------------------------------------------------------------------

  ghost function Encode(j: Json): seq<byte>
    decreases j, 1, 0
  {
    match j
    case Null => Ascii("null")
    case Bool(b) => if b then Ascii("true") else Ascii("false")
    case Int(n) => NumberBytes(IntText(n))
    case Float(text) => NumberBytes(text)
    case Str(s) => StringBytes(s)
    case List(items) => [0x5B] + Items(j, 0)
    case Object(fields) => [0x7B] + Members(j, InOrder(fields.Keys), 0)
  }

  function Separator(i: nat): seq<byte> {
    if i == 0 then [] else [COMMA]
  }

  ghost function Items(j: Json, i: nat): seq<byte>
    requires j.List? && i <= |j.items|
    decreases j, 0, |j.items| - i
  {
    if i == |j.items| then [0x5D] else Separator(i) + Encode(j.items[i]) + Items(j, i + 1)
  }

  ghost function Members(j: Json, keys: seq<Key>, i: nat): seq<byte>
    requires j.Object? && i <= |keys| && forall k :: k in keys ==> k in j.fields
    decreases j, 0, |keys| - i
  {
    if i == |keys| then [0x7D]
    else Separator(i) + StringBytes(KeyText(keys[i])) + [COLON] + Encode(j.fields[keys[i]]) + Members(j, keys, i + 1)
  }

  /** What a value can begin with tells its kind. */
  lemma FirstByte(j: Json)
    ensures var e := Encode(j);
            && e != []
            && (e[0] == 0x6E <==> j.Null?) && (e[0] == 0x74 || e[0] == 0x66 <==> j.Bool?)
            && (e[0] == QUOTE <==> j.Str?) && (e[0] == 0x5B <==> j.List?) && (e[0] == 0x7B <==> j.Object?)
            && (IsNumberByte(e[0]) <==> j.Int? || j.Float?)
            && e[0] != 0x5D && e[0] != 0x7D && e[0] != COMMA
  {
  }

  /** Nothing is lost: two values with the same encoding, whatever follows them,
      are the same value. */
  lemma {:induction false} EncodePrefix(a: Json, b: Json, s: seq<byte>, t: seq<byte>)
    requires Delimited(s) && Delimited(t) && Encode(a) + s == Encode(b) + t
    ensures a == b && s == t
    decreases a, 1, 0
  {
    hide Encode, Delimited, NumberBytes, StringBytes, Items, Members;
    SameKind(a, b, s, t);
    if a.List? {
      var u, v := Items(a, 0), Items(b, 0);
      ListBytes(a);
      ListBytes(b);
      AfterFirst(0x5B, u, v, s, t);
      ItemsPrefix(a, b, 0, s, t);
      assert a.items == b.items;
    } else if a.Object? {
      var ka, kb := InOrder(a.fields.Keys), InOrder(b.fields.Keys);
      ObjectBytes(a);
      ObjectBytes(b);
      AfterFirst(0x7B, Members(a, ka, 0), Members(b, kb, 0), s, t);
      MembersPrefix(a, b, ka, kb, 0, s, t);
      SameFields(a.fields, b.fields, ka, kb);
    } else {
      ScalarPrefix(a, b, s, t);
    }
  }

  lemma ListBytes(j: Json)
    requires j.List?
    ensures Encode(j) == [0x5B] + Items(j, 0)
  {
  }

  lemma ObjectBytes(j: Json)
    requires j.Object?
    ensures Encode(j) == [0x7B] + Members(j, InOrder(j.fields.Keys), 0)
  {
  }

  lemma AfterFirst(x: byte, u: seq<byte>, v: seq<byte>, s: seq<byte>, t: seq<byte>)
    requires [x] + u + s == [x] + v + t
    ensures u + s == v + t
  {
    assert ([x] + u + s)[1..] == u + s && ([x] + v + t)[1..] == v + t;
  }

  /** Values with one encoding are of one kind, numbers apart. */
  lemma SameKind(a: Json, b: Json, s: seq<byte>, t: seq<byte>)
    requires Encode(a) + s == Encode(b) + t
    ensures a.Null? == b.Null? && a.Bool? == b.Bool? && a.Str? == b.Str? && a.List? == b.List? && a.Object? == b.Object?
  {
    hide Encode;
    FirstByte(a);
    FirstByte(b);
    assert (Encode(a) + s)[0] == Encode(a)[0] && (Encode(b) + t)[0] == Encode(b)[0];
  }

  lemma ScalarPrefix(a: Json, b: Json, s: seq<byte>, t: seq<byte>)
    requires Delimited(s) && Delimited(t) && Encode(a) + s == Encode(b) + t
    requires !a.List? && !a.Object?
    ensures a == b && s == t
  {
    hide StringBytes, NumberBytes, Items, Members;
    SameKind(a, b, s, t);
    match a
    case Null => SameLengthPrefix(Encode(a), Encode(b), s, t);
    case Bool(x) => BoolPrefix(x, b.b, s, t);
    case Str(x) => StringPrefix(x, b.s, s, t);
    case Int(_) => NumberValuePrefix(a, b, s, t);
    case Float(_) => NumberValuePrefix(a, b, s, t);
  }

  lemma BoolPrefix(x: bool, y: bool, s: seq<byte>, t: seq<byte>)
    requires Encode(Bool(x)) + s == Encode(Bool(y)) + t
    ensures x == y && s == t
  {
    assert Encode(Bool(x))[0] == (if x then 0x74 else 0x66) && Encode(Bool(y))[0] == (if y then 0x74 else 0x66);
    assert (Encode(Bool(x)) + s)[0] == Encode(Bool(x))[0] && (Encode(Bool(y)) + t)[0] == Encode(Bool(y))[0];
    SameLengthPrefix(Encode(Bool(x)), Encode(Bool(y)), s, t);
  }

  predicate IsNumber(j: Json) {
    j.Int? || j.Float?
  }

  function NumberText(j: Json): (text: string)
    requires IsNumber(j)
    ensures forall i :: 0 <= i < |text| ==> IsNumberCharacter(text[i])
  {
    if j.Int? then IntText(j.n) else j.text
  }

  lemma NumberValuePrefix(a: Json, b: Json, s: seq<byte>, t: seq<byte>)
    requires IsNumber(a) && IsNumber(b) && Delimited(s) && Delimited(t) && Encode(a) + s == Encode(b) + t
    ensures a == b && s == t
  {
    hide NumberBytes, IntText, IsNumberCharacter, Delimited;
    NumberPrefix(NumberText(a), NumberText(b), s, t);
    if a.Int? && b.Int? {
      IntTextInjective(a.n, b.n);
    } else if a.Int? {
      IntIsNoFloat(a.n, b.text);
    } else if b.Int? {
      IntIsNoFloat(b.n, a.text);
    }
  }

  lemma SameLengthPrefix(u: seq<byte>, v: seq<byte>, s: seq<byte>, t: seq<byte>)
    requires u + s == v + t && |u| == |v|
    ensures u == v && s == t
  {
    assert (u + s)[..|u|] == u && (u + s)[|u|..] == s && (v + t)[..|v|] == v && (v + t)[|v|..] == t;
  }

  lemma SameFields(a: map<Key, Json>, b: map<Key, Json>, ka: seq<Key>, kb: seq<Key>)
    requires (forall k :: k in ka <==> k in a) && (forall k :: k in kb <==> k in b)
    requires |ka| == |kb| && forall i :: 0 <= i < |ka| ==> ka[i] == kb[i] && a[ka[i]] == b[kb[i]]
    ensures a == b
  {
    assert ka == kb;
    assert forall k :: k in a <==> k in b;
    forall k | k in a
      ensures a[k] == b[k]
    {
      var i :| 0 <= i < |ka| && ka[i] == k;
    }
  }

  lemma {:induction false} ItemsPrefix(a: Json, b: Json, i: nat, s: seq<byte>, t: seq<byte>)
    requires a.List? && b.List? && i <= |a.items| && i <= |b.items|
    requires Items(a, i) + s == Items(b, i) + t
    ensures |a.items| == |b.items| && (forall k :: i <= k < |a.items| ==> a.items[k] == b.items[k]) && s == t
    decreases a, 0, |a.items| - i
  {
    hide Encode, Items, Delimited, Separator;
    FirstOfItems(a, i, s);
    FirstOfItems(b, i, t);
    if i < |a.items| && i < |b.items| {
      var u, v := Encode(a.items[i]), Encode(b.items[i]);
      var restA, restB := Items(a, i + 1) + s, Items(b, i + 1) + t;
      ItemsStart(a, i, s);
      ItemsStart(b, i, t);
      SameLengthPrefix(Separator(i), Separator(i), u + restA, v + restB);
      FirstOfItems(a, i + 1, s);
      FirstOfItems(b, i + 1, t);
      EncodePrefix(a.items[i], b.items[i], restA, restB);
      ItemsPrefix(a, b, i + 1, s, t);
    } else {
      ItemsEnd(a, i, s);
      ItemsEnd(b, i, t);
    }
  }

  lemma ItemsStart(j: Json, i: nat, s: seq<byte>)
    requires j.List? && i < |j.items|
    ensures Items(j, i) + s == Separator(i) + (Encode(j.items[i]) + (Items(j, i + 1) + s))
  {
    hide Encode, Separator;
    var p, v, rest := Separator(i), Encode(j.items[i]), Items(j, i + 1);
    assert p + v + rest + s == p + (v + (rest + s));
  }

  lemma ItemsEnd(j: Json, i: nat, s: seq<byte>)
    requires j.List? && i == |j.items|
    ensures (Items(j, i) + s)[1..] == s
  {
  }

  lemma FirstOfItems(j: Json, i: nat, s: seq<byte>)
    requires j.List? && i <= |j.items|
    ensures var e := Items(j, i) + s;
            && e != [] && (e[0] == 0x5D <==> i == |j.items|) && (i > 0 ==> Delimited(e))
  {
    if i < |j.items| {
      FirstByte(j.items[i]);
    }
  }

  lemma FirstOfMembers(j: Json, keys: seq<Key>, i: nat, s: seq<byte>)
    requires j.Object? && i <= |keys| && forall k :: k in keys ==> k in j.fields
    ensures var e := Members(j, keys, i) + s;
            && e != [] && (e[0] == 0x7D <==> i == |keys|) && (i > 0 ==> Delimited(e))
  {
  }

  lemma {:induction false} MembersPrefix(a: Json, b: Json, ka: seq<Key>, kb: seq<Key>, i: nat, s: seq<byte>, t: seq<byte>)
    requires a.Object? && b.Object? && i <= |ka| && i <= |kb|
    requires (forall k :: k in ka ==> k in a.fields) && (forall k :: k in kb ==> k in b.fields)
    requires Members(a, ka, i) + s == Members(b, kb, i) + t
    ensures |ka| == |kb| && s == t
    ensures forall k :: i <= k < |ka| ==> ka[k] == kb[k] && a.fields[ka[k]] == b.fields[kb[k]]
    decreases a, 0, |ka| - i
  {
    hide Encode, Members, Delimited;
    FirstOfMembers(a, ka, i, s);
    FirstOfMembers(b, kb, i, t);
    if i < |ka| && i < |kb| {
      MemberPrefix(a, b, ka, kb, i, s, t);
      FirstOfMembers(a, ka, i + 1, s);
      FirstOfMembers(b, kb, i + 1, t);
      EncodePrefix(a.fields[ka[i]], b.fields[kb[i]], Members(a, ka, i + 1) + s, Members(b, kb, i + 1) + t);
      MembersPrefix(a, b, ka, kb, i + 1, s, t);
    } else {
      MembersEnd(a, ka, i, s);
      MembersEnd(b, kb, i, t);
    }
  }

  lemma MembersStart(j: Json, keys: seq<Key>, i: nat, s: seq<byte>)
    requires j.Object? && i < |keys| && forall k :: k in keys ==> k in j.fields
    ensures Members(j, keys, i) + s
            == Separator(i) + (StringBytes(KeyText(keys[i]))
                               + ([COLON] + (Encode(j.fields[keys[i]]) + (Members(j, keys, i + 1) + s))))
  {
    hide Encode, StringBytes, KeyText, Separator;
    var p, k, v, rest := Separator(i), StringBytes(KeyText(keys[i])), Encode(j.fields[keys[i]]), Members(j, keys, i + 1);
    assert p + k + [COLON] + v + rest + s == p + (k + ([COLON] + (v + (rest + s))));
  }

  lemma MembersEnd(j: Json, keys: seq<Key>, i: nat, s: seq<byte>)
    requires j.Object? && i == |keys| && forall k :: k in keys ==> k in j.fields
    ensures (Members(j, keys, i) + s)[1..] == s
  {
  }

  /** The key of a member, and what is left of it from its value on. */
  lemma MemberPrefix(a: Json, b: Json, ka: seq<Key>, kb: seq<Key>, i: nat, s: seq<byte>, t: seq<byte>)
    requires a.Object? && b.Object? && i < |ka| && i < |kb|
    requires (forall k :: k in ka ==> k in a.fields) && (forall k :: k in kb ==> k in b.fields)
    requires Members(a, ka, i) + s == Members(b, kb, i) + t
    ensures ka[i] == kb[i]
    ensures Encode(a.fields[ka[i]]) + (Members(a, ka, i + 1) + s) == Encode(b.fields[kb[i]]) + (Members(b, kb, i + 1) + t)
  {
    hide Encode, Members, StringBytes, KeyText, Separator;
    var u, v := StringBytes(KeyText(ka[i])), StringBytes(KeyText(kb[i]));
    var x := Encode(a.fields[ka[i]]) + (Members(a, ka, i + 1) + s);
    var y := Encode(b.fields[kb[i]]) + (Members(b, kb, i + 1) + t);
    MembersStart(a, ka, i, s);
    MembersStart(b, kb, i, t);
    SameLengthPrefix(Separator(i), Separator(i), u + ([COLON] + x), v + ([COLON] + y));
    StringPrefix(KeyText(ka[i]), KeyText(kb[i]), [COLON] + x, [COLON] + y);
    KeyTextInjective(ka[i], kb[i]);
    SameLengthPrefix([COLON], [COLON], x, y);
  }

  lemma EncodeInjective(a: Json, b: Json)
    requires Encode(a) == Encode(b)
    ensures a == b
  {
    EncodePrefix(a, b, [], []);
  }

  // ---------------------------------------------------------------------------
  // No newline, and exact sizes
  // ---------------------------------------------------------------------------

  lemma {:induction false} EncodeHasNoNewline(j: Json)
    ensures NEWLINE !in Encode(j)
    decreases j, 1, 0
  {
    hide Characters, Items, Members, InOrder, IntText, IsNumberCharacter;
    match j
    case Str(s) =>
      StringHasNoNewline(s);
      assert StringBytes(s) == [QUOTE] + Characters(s);
    case List(items) => ItemsHaveNoNewline(j, 0);
    case Object(fields) => MembersHaveNoNewline(j, InOrder(fields.Keys), 0);
    case _ =>
  }

  lemma {:induction false} ItemsHaveNoNewline(j: Json, i: nat)
    requires j.List? && i <= |j.items|
    ensures NEWLINE !in Items(j, i)
    decreases j, 0, |j.items| - i
  {
    hide Encode;
    if i < |j.items| {
      EncodeHasNoNewline(j.items[i]);
      ItemsHaveNoNewline(j, i + 1);
    }
  }

  lemma {:induction false} MembersHaveNoNewline(j: Json, keys: seq<Key>, i: nat)
    requires j.Object? && i <= |keys| && forall k :: k in keys ==> k in j.fields
    ensures NEWLINE !in Members(j, keys, i)
    decreases j, 0, |keys| - i
  {
    hide Encode, KeyText, Characters;
    if i < |keys| {
      StringHasNoNewline(KeyText(keys[i]));
      EncodeHasNoNewline(j.fields[keys[i]]);
      MembersHaveNoNewline(j, keys, i + 1);
    }
  }

  /** What one member costs beside its separator. */
  ghost function MemberSize(j: Json, k: Key): nat
    requires j.Object? && k in j.fields
  {
    |StringBytes(KeyText(k))| + 1 + |Encode(j.fields[k])|
  }

  lemma MembersSize(j: Json, keys: seq<Key>, i: nat)
    requires j.Object? && i <= |keys| && forall k :: k in keys ==> k in j.fields
    ensures |Members(j, keys, i)|
            == if i == |keys| then 1
               else (if i == 0 then 0 else 1) + MemberSize(j, keys[i]) + |Members(j, keys, i + 1)|
  {
    hide Encode, StringBytes, KeyText;
  }

  lemma OneMemberSize(k: Key, v: Json)
    ensures |Encode(Object(map[k := v]))| == MemberSize(Object(map[k := v]), k) + 2
  {
    var j := Object(map[k := v]);
    hide Encode, Members, MemberSize;
    ObjectBytes(j);
    var keys := InOrder(j.fields.Keys);
    assert |j.fields.Keys| == 1 && keys[0] in keys;
    MembersSize(j, keys, 0);
    MembersSize(j, keys, 1);
  }

  lemma TwoMembersSize(j: Json, x: Key, y: Key)
    requires j.Object? && j.fields.Keys == {x, y} && x != y
    ensures |Encode(j)| == MemberSize(j, x) + MemberSize(j, y) + 3
  {
    hide Encode, Members, MemberSize, InOrder;
    ObjectBytes(j);
    var keys := OrderOfTwo(j.fields.Keys, x, y);
    if keys == [x, y] {
      PairSize(j, x, y);
    } else {
      PairSize(j, y, x);
    }
  }

  lemma PairSize(j: Json, x: Key, y: Key)
    requires j.Object? && x in j.fields && y in j.fields
    ensures |Members(j, [x, y], 0)| == MemberSize(j, x) + MemberSize(j, y) + 2
  {
    hide Encode, Members, MemberSize;
    MembersSize(j, [x, y], 0);
    MembersSize(j, [x, y], 1);
    MembersSize(j, [x, y], 2);
  }

  lemma OrderOfTwo(keys: set<Key>, x: Key, y: Key) returns (order: seq<Key>)
    requires keys == {x, y} && x != y
    ensures order == InOrder(keys) && (order == [x, y] || order == [y, x])
  {
    hide InOrder, KeyText, Precedes;
    order := InOrder(keys);
    assert |keys| == 2 && order[0] in order && order[1] in order;
  }

  lemma JournalKeys()
    ensures KeyText(JournalSequence) == "journal_sequence" && KeyText(EventKey) == "event"
    ensures KeyText(Key.Journal) == "journal" && KeyText(JournalId) == "journal_id" && KeyText(Key.Contract) == "contract"
  {
  }

  lemma JournalKeySizes()
    ensures |StringBytes(KeyText(JournalSequence))| == 18 && |StringBytes(KeyText(EventKey))| == 7
    ensures |StringBytes(KeyText(Key.Journal))| == 9 && |StringBytes(KeyText(JournalId))| == 12
    ensures |StringBytes(KeyText(Key.Contract))| == 10
  {
    hide StringBytes, KeyText;
    JournalKeys();
    PlainSize("journal_sequence");
    PlainSize("event");
    PlainSize("journal");
    PlainSize("journal_id");
    PlainSize("contract");
  }

  lemma IntSize(n: nat)
    ensures |Encode(Int(n))| == |ToDecimal(n)|
  {
  }

  lemma PlainValueSize(s: string)
    requires IsPlain(s)
    ensures |Encode(Str(s))| == |s| + 2
  {
    PlainSize(s);
  }

  /** Framing an event as a record costs thirty bytes and the digits of its position. */
  lemma RecordSize(n: nat, event: Json)
    ensures |Encode(Object(map[JournalSequence := Int(n), EventKey := event]))|
            == |Encode(event)| + |ToDecimal(n)| + 30
  {
    hide Encode, StringBytes, KeyText, ToDecimal;
    var j := Object(map[JournalSequence := Int(n), EventKey := event]);
    assert j.fields.Keys == {JournalSequence, EventKey};
    TwoMembersSize(j, JournalSequence, EventKey);
    JournalKeySizes();
    IntSize(n);
  }

  /** What keeps a journal's identity costs contract and identity and 43 bytes more. */
  lemma HeaderSize(contract: string, id: string)
    requires IsPlain(contract) && IsPlain(id)
    ensures |Encode(Object(map[Key.Journal := Object(map[Key.Contract := Str(contract), JournalId := Str(id)])]))|
            == |contract| + |id| + 43
  {
    hide Encode, StringBytes, KeyText, IsPlain;
    var inner := Object(map[Key.Contract := Str(contract), JournalId := Str(id)]);
    assert inner.fields.Keys == {Key.Contract, JournalId};
    TwoMembersSize(inner, Key.Contract, JournalId);
    OneMemberSize(Key.Journal, inner);
    JournalKeySizes();
    PlainValueSize(contract);
    PlainValueSize(id);
  }

  /** An object of small members is small. */
  lemma {:induction false} MembersAtMost(j: Json, keys: seq<Key>, i: nat, bound: nat)
    requires j.Object? && i <= |keys| && forall k :: k in keys ==> k in j.fields
    requires forall k :: k in keys ==> MemberSize(j, k) < bound
    ensures |Members(j, keys, i)| <= 1 + (|keys| - i) * bound
    decreases |keys| - i
  {
    hide Encode, Members, MemberSize;
    MembersSize(j, keys, i);
    if i < |keys| {
      MembersAtMost(j, keys, i + 1, bound);
      assert keys[i] in keys;
      assert (|keys| - i) * bound == bound + (|keys| - (i + 1)) * bound;
    }
  }

  lemma ProductGrows(a: nat, b: nat, c: nat)
    requires a <= b
    ensures a * c <= b * c
  {
  }

  lemma ObjectAtMost(j: Json, count: nat, bound: nat)
    requires j.Object? && |j.fields.Keys| <= count && forall k :: k in j.fields ==> MemberSize(j, k) < bound
    ensures |Encode(j)| <= 2 + count * bound
  {
    hide Encode, Members, MemberSize;
    ObjectBytes(j);
    var keys := InOrder(j.fields.Keys);
    MembersAtMost(j, keys, 0, bound);
    ProductGrows(|keys|, count, bound);
  }
}
