/** The anchored commitment: what its preimage determines, and what a passing
    anchoring check therefore means. */
module Commitment {
  import opened Json
  import opened Serialisers
  import opened Wrappers

  type Byte = b: int | 0 <= b < 256

  // ------------------------------------------------------------------------ UTF-8

  predicate WellFormed(t: Text) {
    t == [] || (if StartsPair(t) then WellFormed(t[2..]) else !IsHigh(t[0]) && !IsLow(t[0]) && WellFormed(t[1..]))
  }

  function HeadLength(t: Text): nat
    requires t != []
  {
    if StartsPair(t) then 2 else 1
  }

  function CodePoint(high: int, low: int): int {
    0x1_0000 + 0x400 * (high - 0xD800) + (low - 0xDC00)
  }

  function PairBytes(high: int, low: int): (bs: seq<Byte>)
    requires 0xD800 <= high <= 0xDBFF && 0xDC00 <= low <= 0xDFFF
    ensures |bs| == 4
  {
    var c := CodePoint(high, low);
    [0xF0 + c / 0x4_0000, 0x80 + c / 0x1000 % 0x40, 0x80 + c / 0x40 % 0x40, 0x80 + c % 0x40]
  }

  /** A lone surrogate becomes U+FFFD. */
  function UnitBytes(u: Unit): (bs: seq<Byte>)
    ensures 1 <= |bs| <= 3
  {
    if u < 0x80 then [u]
    else if u < 0x800 then [0xC0 + u / 0x40, 0x80 + u % 0x40]
    else if IsHigh(u) || IsLow(u) then [0xEF, 0xBF, 0xBD]
    else [0xE0 + u / 0x1000, 0x80 + u / 0x40 % 0x40, 0x80 + u % 0x40]
  }

  /** The bytes of the first code point. */
  function HeadBytes(t: Text): (bs: seq<Byte>)
    requires t != []
    ensures 1 <= |bs| <= 4
  {
    if StartsPair(t) then PairBytes(t[0], t[1]) else UnitBytes(t[0])
  }

  function Utf8(t: Text): seq<Byte> {
    if t == [] then [] else HeadBytes(t) + Utf8(t[HeadLength(t)..])
  }

  /** How many bytes a lead byte announces. */
  function Announced(b: Byte): nat {
    if b < 0x80 then 1 else if b < 0xE0 then 2 else if b < 0xF0 then 3 else 4
  }

  lemma LeadAnnounces(t: Text)
    requires t != []
    ensures |HeadBytes(t)| == Announced(HeadBytes(t)[0])
  {
  }

  lemma PairSplit(u: Unit, v: Unit)
    requires IsHigh(u) && IsLow(v)
    ensures var c := CodePoint(u, v);
      0x4_0000 * (c / 0x4_0000) + 0x1000 * (c / 0x1000 % 0x40) + 0x40 * (c / 0x40 % 0x40) + c % 0x40 == c
  {
    var c := CodePoint(u, v);
    DivideTwice(c, 0x1000);
    DivideTwice(c, 0x40);
  }

  lemma DivideTwice(c: nat, n: nat)
    requires n == 0x40 || n == 0x1000
    ensures c / (0x40 * n) == c / n / 0x40
  {
  }

  lemma UnitSplit(u: Unit)
    ensures 0x1000 * (u / 0x1000) + 0x40 * (u / 0x40 % 0x40) + u % 0x40 == u
    ensures 0x40 * (u / 0x40) + u % 0x40 == u
  {
  }

  lemma PairsAgree(s: Text, t: Text)
    requires StartsPair(s) && StartsPair(t) && HeadBytes(s) == HeadBytes(t)
    ensures s[0] == t[0] && s[1] == t[1]
  {
    PairSplit(s[0], s[1]);
    PairSplit(t[0], t[1]);
    var b, c := HeadBytes(s), HeadBytes(t);
    assert b[0] == c[0] && b[1] == c[1] && b[2] == c[2] && b[3] == c[3];
  }

  /** In well-formed text the bytes of a code point determine it. */
  lemma HeadsAgree(s: Text, t: Text)
    requires s != [] && t != [] && WellFormed(s) && WellFormed(t) && HeadBytes(s) == HeadBytes(t)
    ensures HeadLength(s) == HeadLength(t) && s[..HeadLength(s)] == t[..HeadLength(t)]
  {
    LeadAnnounces(s);
    LeadAnnounces(t);
    if StartsPair(s) || StartsPair(t) {
      assert |HeadBytes(s)| == 4;
      PairsAgree(s, t);
    } else {
      UnitSplit(s[0]);
      UnitSplit(t[0]);
      var b, c := HeadBytes(s), HeadBytes(t);
      assert b[0] == c[0];
      assert |b| > 1 ==> b[1] == c[1];
      assert |b| > 2 ==> b[2] == c[2];
    }
  }

  /** UTF-8 loses nothing of a well-formed text. */
  lemma {:induction false} Utf8Injective(s: Text, t: Text)
    requires WellFormed(s) && WellFormed(t) && Utf8(s) == Utf8(t)
    ensures s == t
    decreases |s|
  {
    if s != [] && t != [] {
      LeadAnnounces(s);
      LeadAnnounces(t);
      var n := |HeadBytes(s)|;
      assert Utf8(s)[0] == HeadBytes(s)[0] && Utf8(t)[0] == HeadBytes(t)[0];
      assert HeadBytes(s) == Utf8(s)[..n] && HeadBytes(t) == Utf8(t)[..n];
      HeadsAgree(s, t);
      var l := HeadLength(s);
      assert Utf8(s[l..]) == Utf8(s)[n..] && Utf8(t[l..]) == Utf8(t)[n..];
      Utf8Injective(s[l..], t[l..]);
      assert s == s[..l] + s[l..] && t == t[..l] + t[l..];
    }
  }

  /** Six bits in a byte that continues a code point. */
  predicate Continues(b: Byte) {
    128 <= b < 192
  }

  /** The bytes of one code point, as section 3 of RFC 3629 lays them out: a lead
      byte that tells how many follow, six bits in each of those, and the shortest
      form that holds the number. */
  predicate Encodes(bs: seq<Byte>, c: int) {
    if c < 0x80 then |bs| == 1 && bs[0] == c
    else if c < 0x800 then
      |bs| == 2 && 192 <= bs[0] < 224 && Continues(bs[1]) && c == 64 * (bs[0] as int - 192) + (bs[1] as int - 128)
    else if c < 0x1_0000 then
      && |bs| == 3 && 224 <= bs[0] < 240 && Continues(bs[1]) && Continues(bs[2])
      && c == 4096 * (bs[0] as int - 224) + 64 * (bs[1] as int - 128) + (bs[2] as int - 128)
    else
      && |bs| == 4 && 240 <= bs[0] < 248 && Continues(bs[1]) && Continues(bs[2]) && Continues(bs[3])
      && c == 262144 * (bs[0] as int - 240) + 4096 * (bs[1] as int - 128) + 64 * (bs[2] as int - 128) + (bs[3] as int - 128)
  }

  /** Two surrogates make one code point, a lone one stands as U+FFFD. */
  function FirstCodePoint(t: Text): int
    requires t != []
  {
    var first: int := t[0];
    if |t| > 1 && 0xD800 <= first <= 0xDBFF && 0xDC00 <= t[1] <= 0xDFFF then 0x1_0000 + 1024 * (first - 0xD800) + (t[1] as int - 0xDC00)
    else if 0xD800 <= first <= 0xDFFF then 0xFFFD
    else first
  }

  /** A text's bytes are those of its code points, one after the other. */
  lemma Utf8Spelled(t: Text)
    requires t != []
    ensures exists head :: Encodes(head, FirstCodePoint(t)) && Utf8(t) == head + Utf8(t[if FirstCodePoint(t) > 0xFFFF then 2 else 1..])
  {
    assert Utf8(t) == HeadBytes(t) + Utf8(t[HeadLength(t)..]);
    if StartsPair(t) {
      PairEncodes(t[0], t[1]);
    } else {
      UnitEncodes(t[0]);
    }
    assert Encodes(HeadBytes(t), FirstCodePoint(t));
  }

  lemma PairEncodes(u: Unit, v: Unit)
    requires IsHigh(u) && IsLow(v)
    ensures Encodes(PairBytes(u, v), CodePoint(u, v))
  {
    PairSplit(u, v);
  }

  lemma UnitEncodes(u: Unit)
    ensures Encodes(UnitBytes(u), if IsHigh(u) || IsLow(u) then 0xFFFD else u)
  {
    UnitSplit(u);
  }

  // ------------------------------------------------- canonical texts are well formed

  lemma {:induction false} WellFormedConcat(s: Text, t: Text)
    requires WellFormed(s) && WellFormed(t)
    ensures WellFormed(s + t)
    decreases |s|
  {
    if s == [] {
      assert s + t == t;
    } else {
      var l := HeadLength(s);
      WellFormedConcat(s[l..], t);
      assert (s + t)[l..] == s[l..] + t;
      assert (s + t)[0] == s[0];
      if l == 2 {
        assert StartsPair(s + t);
      }
    }
  }

  predicate PlainText(t: Text) {
    forall i :: 0 <= i < |t| ==> !IsHigh(t[i]) && !IsLow(t[i])
  }

  lemma {:induction false} PlainIsWellFormed(t: Text)
    requires PlainText(t)
    ensures WellFormed(t)
  {
    if t != [] {
      PlainIsWellFormed(t[1..]);
    }
  }

  lemma {:induction false} EscapedIsWellFormed(s: Text)
    ensures WellFormed(Escaped(s))
    decreases |s|
  {
    if s == [] {
    } else if StartsPair(s) {
      EscapedIsWellFormed(s[2..]);
      WellFormedConcat([s[0], s[1]], Escaped(s[2..]));
    } else {
      EscapedIsWellFormed(s[1..]);
      UnitTextIsPlain(s[0]);
      PlainIsWellFormed(UnitText(s[0]));
      WellFormedConcat(UnitText(s[0]), Escaped(s[1..]));
    }
  }

  lemma UnitTextIsPlain(u: Unit)
    ensures PlainText(UnitText(u))
  {
  }

  lemma QuotedIsWellFormed(s: Text)
    ensures WellFormed(Quoted(s))
  {
    EscapedIsWellFormed(s);
    PlainIsWellFormed([QUOTE]);
    WellFormedConcat([QUOTE], Escaped(s));
    WellFormedConcat([QUOTE] + Escaped(s), [QUOTE]);
  }

  lemma BracketsWellFormed(open: Unit, body: Text, close: Unit)
    requires WellFormed(body) && PlainText([open]) && PlainText([close])
    ensures WellFormed([open] + body + [close])
  {
    PlainIsWellFormed([open]);
    PlainIsWellFormed([close]);
    WellFormedConcat([open], body);
    WellFormedConcat([open] + body, [close]);
  }

  lemma SeparatedWellFormed(first: Text, separator: Unit, rest: Text)
    requires WellFormed(first) && WellFormed(rest) && PlainText([separator])
    ensures WellFormed(first + [separator] + rest)
  {
    PlainIsWellFormed([separator]);
    WellFormedConcat(first, [separator]);
    WellFormedConcat(first + [separator], rest);
  }

  lemma {:induction false} ItemsWellFormed(items: seq<Data>)
    ensures WellFormed(ItemsText(items))
    decreases items
  {
    if |items| >= 1 {
      TextIsWellFormed(items[0]);
      if |items| > 1 {
        ItemsWellFormed(items[1..]);
        SeparatedWellFormed(Stringify(items[0]), COMMA, ItemsText(items[1..]));
      }
    }
  }

  lemma {:induction false} MembersWellFormed(members: seq<Member>)
    ensures WellFormed(MembersText(members))
    decreases members
  {
    if |members| >= 1 {
      TextIsWellFormed(members[0].value);
      QuotedIsWellFormed(members[0].key);
      SeparatedWellFormed(Quoted(members[0].key), COLON, Stringify(members[0].value));
      if |members| > 1 {
        MembersWellFormed(members[1..]);
        SeparatedWellFormed(MemberText(members[0]), COMMA, MembersText(members[1..]));
      }
    }
  }

  /** No text holds half a surrogate pair, whatever the strings hold. */
  lemma {:induction false} TextIsWellFormed(v: Data)
    ensures WellFormed(Stringify(v))
    decreases v
  {
    match v {
      case Null => PlainIsWellFormed(Stringify(v));
      case Bool(_) => PlainIsWellFormed(Stringify(v));
      case Num(n) => PlainIsWellFormed(NumberText(n));
      case Str(s) => QuotedIsWellFormed(s);
      case Arr(items) =>
        ItemsWellFormed(items);
        BracketsWellFormed(OPEN_ARRAY, ItemsText(items), CLOSE_ARRAY);
      case Obj(members) =>
        MembersWellFormed(members);
        BracketsWellFormed(OPEN_OBJECT, MembersText(members), CLOSE_OBJECT);
    }
  }

  // ------------------------------------------------------------ scanning JSON text

  /** A reader of canonical text that only follows strings and brackets: outside
      strings at some depth, inside a string, after its backslash, or lost. */
  datatype Scan = Out(depth: int) | In(depth: int) | Esc(depth: int) | Lost

  /** One character, or one byte of it, with brackets never closing below `floor`. */
  function Read(s: Scan, c: int, floor: int): Scan {
    match s
    case Lost => Lost
    case Esc(d) => if c == OPEN_OBJECT then Lost else In(d)
    case In(d) => if c == QUOTE then Out(d) else if c == BACKSLASH then Esc(d) else In(d)
    case Out(d) =>
      if c == QUOTE then In(d)
      else if c == BACKSLASH then Lost
      else if c == OPEN_OBJECT || c == OPEN_ARRAY then Out(d + 1)
      else if c == CLOSE_OBJECT || c == CLOSE_ARRAY then (if d <= floor then Lost else Out(d - 1))
      else Out(d)
  }

  function ReadAll(s: Scan, cs: seq<int>, floor: int): Scan
    decreases |cs|
  {
    if cs == [] then s else ReadAll(Read(s, cs[0], floor), cs[1..], floor)
  }

  lemma {:induction false} ReadConcat(s: Scan, a: seq<int>, b: seq<int>, floor: int)
    ensures ReadAll(s, a + b, floor) == ReadAll(ReadAll(s, a, floor), b, floor)
    decreases |a|
  {
    if a == [] {
      assert a + b == b;
    } else {
      assert (a + b)[1..] == a[1..] + b;
      ReadConcat(Read(s, a[0], floor), a[1..], b, floor);
    }
  }

  /** Characters that move nothing outside or inside strings. */
  predicate Inert(cs: seq<int>) {
    forall i :: 0 <= i < |cs| ==>
      cs[i] != QUOTE && cs[i] != BACKSLASH && cs[i] != OPEN_OBJECT && cs[i] != OPEN_ARRAY && cs[i] != CLOSE_OBJECT && cs[i] != CLOSE_ARRAY
  }

  lemma {:induction false} ReadInert(s: Scan, cs: seq<int>, floor: int)
    requires Inert(cs) && (s.Out? || s.In?)
    ensures ReadAll(s, cs, floor) == s
  {
    if cs != [] {
      ReadInert(s, cs[1..], floor);
    }
  }

  lemma ReadOne(s: Scan, c: int, floor: int)
    ensures ReadAll(s, [c], floor) == Read(s, c, floor)
  {
    assert ReadAll(Read(s, c, floor), [c][1..], floor) == Read(s, c, floor);
  }

  lemma ReadUnit(u: Unit, d: int, floor: int)
    ensures ReadAll(In(d), UnitText(u), floor) == In(d)
  {
    var t := UnitText(u);
    if ShortEscape(u).Some? {
      assert t == [BACKSLASH] + [t[1]];
      ReadConcat(In(d), [BACKSLASH], [t[1]], floor);
      ReadOne(In(d), BACKSLASH, floor);
      ReadOne(Esc(d), t[1], floor);
    } else if u < 0x20 || IsHigh(u) || IsLow(u) {
      assert t == [BACKSLASH] + ([LETTER_U] + t[2..]);
      ReadConcat(In(d), [BACKSLASH], [LETTER_U] + t[2..], floor);
      ReadOne(In(d), BACKSLASH, floor);
      ReadConcat(Esc(d), [LETTER_U], t[2..], floor);
      ReadOne(Esc(d), LETTER_U, floor);
      ReadInert(In(d), t[2..], floor);
    } else {
      ReadOne(In(d), u, floor);
    }
  }

  lemma {:induction false} ReadEscaped(s: Text, d: int, floor: int)
    ensures ReadAll(In(d), Escaped(s), floor) == In(d)
    decreases |s|
  {
    if s == [] {
    } else if StartsPair(s) {
      ReadInert(In(d), [s[0], s[1]], floor);
      ReadConcat(In(d), [s[0], s[1]], Escaped(s[2..]), floor);
      ReadEscaped(s[2..], d, floor);
    } else {
      ReadUnit(s[0], d, floor);
      ReadConcat(In(d), UnitText(s[0]), Escaped(s[1..]), floor);
      ReadEscaped(s[1..], d, floor);
    }
  }

  lemma ReadQuoted(s: Text, d: int, floor: int)
    ensures ReadAll(Out(d), Quoted(s), floor) == Out(d)
  {
    ReadConcat(Out(d), [QUOTE] + Escaped(s), [QUOTE], floor);
    ReadConcat(Out(d), [QUOTE], Escaped(s), floor);
    ReadOne(Out(d), QUOTE, floor);
    ReadEscaped(s, d, floor);
    ReadOne(In(d), QUOTE, floor);
  }

  lemma ReadSeparated(a: Text, c: Unit, b: Text, d: int, floor: int)
    requires ReadAll(Out(d), a, floor) == Out(d) && ReadAll(Out(d), b, floor) == Out(d) && (c == COMMA || c == COLON)
    ensures ReadAll(Out(d), a + [c] + b, floor) == Out(d)
  {
    ReadConcat(Out(d), a + [c], b, floor);
    ReadConcat(Out(d), a, [c], floor);
    ReadOne(Out(d), c, floor);
  }

  lemma ReadBracketed(open: Unit, a: Text, close: Unit, d: int, floor: int)
    requires (open == OPEN_OBJECT && close == CLOSE_OBJECT) || (open == OPEN_ARRAY && close == CLOSE_ARRAY)
    requires ReadAll(Out(d + 1), a, floor) == Out(d + 1) && d >= floor
    ensures ReadAll(Out(d), [open] + a + [close], floor) == Out(d)
  {
    ReadConcat(Out(d), [open] + a, [close], floor);
    ReadConcat(Out(d), [open], a, floor);
    ReadOne(Out(d), open, floor);
    ReadOne(Out(d + 1), close, floor);
  }

  lemma {:induction false} ReadItems(items: seq<Data>, d: int, floor: int)
    requires d >= floor
    ensures ReadAll(Out(d), ItemsText(items), floor) == Out(d)
    decreases items
  {
    if |items| >= 1 {
      ReadValue(items[0], d, floor);
      if |items| > 1 {
        ReadItems(items[1..], d, floor);
        ReadSeparated(Stringify(items[0]), COMMA, ItemsText(items[1..]), d, floor);
      }
    }
  }

  lemma {:induction false} ReadMembers(members: seq<Member>, d: int, floor: int)
    requires d >= floor
    ensures ReadAll(Out(d), MembersText(members), floor) == Out(d)
    decreases members
  {
    if |members| >= 1 {
      ReadValue(members[0].value, d, floor);
      ReadQuoted(members[0].key, d, floor);
      ReadSeparated(Quoted(members[0].key), COLON, Stringify(members[0].value), d, floor);
      if |members| > 1 {
        ReadMembers(members[1..], d, floor);
        ReadSeparated(MemberText(members[0]), COMMA, MembersText(members[1..]), d, floor);
      }
    }
  }

  /** A whole value brings the reader back where it was, and never below. */
  lemma {:induction false} ReadValue(v: Data, d: int, floor: int)
    requires d >= floor
    ensures ReadAll(Out(d), Stringify(v), floor) == Out(d)
    decreases v
  {
    match v {
      case Null => ReadInert(Out(d), Stringify(v), floor);
      case Bool(_) => ReadInert(Out(d), Stringify(v), floor);
      case Num(n) => ReadInert(Out(d), NumberText(n), floor);
      case Str(s) => ReadQuoted(s, d, floor);
      case Arr(items) =>
        ReadItems(items, d + 1, floor);
        ReadBracketed(OPEN_ARRAY, ItemsText(items), CLOSE_ARRAY, d, floor);
      case Obj(members) =>
        ReadMembers(members, d + 1, floor);
        ReadBracketed(OPEN_OBJECT, MembersText(members), CLOSE_OBJECT, d, floor);
    }
  }

  lemma ReadHeadBytes(s: Scan, t: Text, floor: int)
    requires t != [] && WellFormed(t)
    ensures ReadAll(s, HeadBytes(t), floor) == ReadAll(s, t[..HeadLength(t)], floor)
  {
    if StartsPair(t) || t[0] >= 0x80 {
      ReadForeign(s, HeadBytes(t), floor);
      ReadForeign(s, t[..HeadLength(t)], floor);
    } else {
      assert HeadBytes(t) == t[..1];
    }
  }

  /** Everything outside ASCII is read alike, in whatever pieces. */
  lemma {:induction false} ReadForeign(s: Scan, cs: seq<int>, floor: int)
    requires cs != [] && forall i :: 0 <= i < |cs| ==> cs[i] >= 0x80
    ensures ReadAll(s, cs, floor) == if s.Esc? then In(s.depth) else s
    decreases |cs|
  {
    if |cs| == 1 {
      ReadOne(s, cs[0], floor);
      assert cs == [cs[0]];
    } else {
      ReadForeign(Read(s, cs[0], floor), cs[1..], floor);
    }
  }

  /** Reading the bytes is reading the characters. */
  lemma {:induction false} ReadUtf8(s: Scan, t: Text, floor: int)
    requires WellFormed(t)
    ensures ReadAll(s, Utf8(t), floor) == ReadAll(s, t, floor)
    decreases |t|
  {
    if t != [] {
      var l := HeadLength(t);
      ReadConcat(s, HeadBytes(t), Utf8(t[l..]), floor);
      ReadHeadBytes(s, t, floor);
      ReadUtf8(ReadAll(s, t[..l], floor), t[l..], floor);
      ReadConcat(s, t[..l], t[l..], floor);
      assert t == t[..l] + t[l..];
    }
  }

  // -------------------------------------------------- no object ends in another

  lemma {:induction false} LostStays(cs: seq<int>, floor: int)
    ensures ReadAll(Lost, cs, floor) == Lost
    decreases |cs|
  {
    if cs != [] {
      LostStays(cs[1..], floor);
    }
  }

  /** The floor holds. */
  lemma {:induction false} DepthStays(s: Scan, cs: seq<int>, floor: int)
    requires s.Lost? || s.depth >= floor
    ensures ReadAll(s, cs, floor).Lost? || ReadAll(s, cs, floor).depth >= floor
    decreases |cs|
  {
    if cs != [] {
      DepthStays(Read(s, cs[0], floor), cs[1..], floor);
    }
  }

  /** One reader is inside a string where the other is outside. */
  predicate Opposite(s: Scan, t: Scan) {
    (s.In? && t.Out?) || (s.Out? && t.In?)
  }

  /** Opposite readers of the same text stay opposite or one of them is lost. */
  lemma {:induction false} OppositesStay(s: Scan, f: int, t: Scan, g: int, cs: seq<int>)
    requires Opposite(s, t)
    ensures var a, b := ReadAll(s, cs, f), ReadAll(t, cs, g);
      a.Lost? || b.Lost? || Opposite(a, b)
    decreases |cs|
  {
    if cs != [] {
      var a, b := Read(s, cs[0], f), Read(t, cs[0], g);
      if a.Lost? {
        LostStays(cs[1..], f);
      } else if b.Lost? {
        LostStays(cs[1..], g);
      } else {
        OppositesStay(a, f, b, g, cs[1..]);
      }
    }
  }

  /** Wherever a reader of one object's inside has come, what follows is not the
      rest of a whole object. */
  lemma NotAnObjectFrom(s: Scan, y: seq<int>, body: seq<int>)
    requires s == ReadAll(Out(1), y, 1)
    requires forall d, f :: d >= f ==> ReadAll(Out(d), body, f) == Out(d)
    ensures ReadAll(s, [OPEN_OBJECT] + body, 1) != Out(1)
  {
    DepthStays(Out(1), y, 1);
    ReadConcat(s, [OPEN_OBJECT], body, 1);
    ReadOne(s, OPEN_OBJECT, 1);
    match s {
      case Lost => LostStays(body, 1);
      case Esc(_) => LostStays(body, 1);
      case Out(d) => assert ReadAll(Out(d + 1), body, 1) == Out(d + 1);
      case In(d) =>
        OppositesStay(In(d), 1, Out(1), 0, body);
        assert ReadAll(Out(1), body, 0) == Out(1);
    }
  }

  lemma {:induction false} Utf8Concat(s: Text, t: Text)
    requires WellFormed(s)
    ensures Utf8(s + t) == Utf8(s) + Utf8(t)
    decreases |s|
  {
    if s == [] {
      assert s + t == t;
    } else {
      HeadOfConcat(s, t);
      Utf8Concat(s[HeadLength(s)..], t);
    }
  }

  lemma HeadOfConcat(s: Text, t: Text)
    requires s != [] && WellFormed(s)
    ensures HeadLength(s + t) == HeadLength(s) && HeadBytes(s + t) == HeadBytes(s)
    ensures (s + t)[HeadLength(s)..] == s[HeadLength(s)..] + t
  {
    var whole := s + t;
    assert whole[0] == s[0];
    if StartsPair(s) {
      assert whole[1] == s[1];
    } else {
      assert !IsHigh(s[0]);
    }
    SameHeads(whole, s);
  }

  lemma SameHeads(s: Text, t: Text)
    requires s != [] && t != [] && s[0] == t[0] && (StartsPair(s) <==> StartsPair(t)) && (StartsPair(s) ==> s[1] == t[1])
    ensures HeadLength(s) == HeadLength(t) && HeadBytes(s) == HeadBytes(t)
  {
  }

  lemma Utf8OfOne(u: Unit)
    requires u < 0x80
    ensures Utf8([u]) == [u]
  {
    assert Utf8([u][1..]) == [];
  }

  function ObjectBody(v: Data): seq<Byte>
    requires v.Obj?
  {
    Utf8(MembersText(v.members))
  }

  lemma ObjectBytes(v: Data)
    requires v.Obj?
    ensures Utf8(Stringify(v)) == [OPEN_OBJECT as Byte] + ObjectBody(v) + [CLOSE_OBJECT as Byte]
    ensures forall d, f :: d >= f ==> ReadAll(Out(d), ObjectBody(v), f) == Out(d)
  {
    var body := MembersText(v.members);
    MembersWellFormed(v.members);
    PlainIsWellFormed([OPEN_OBJECT]);
    WellFormedConcat([OPEN_OBJECT], body);
    Utf8Concat([OPEN_OBJECT] + body, [CLOSE_OBJECT]);
    Utf8Concat([OPEN_OBJECT], body);
    Utf8OfOne(OPEN_OBJECT);
    Utf8OfOne(CLOSE_OBJECT);
    forall d, f | d >= f
      ensures ReadAll(Out(d), ObjectBody(v), f) == Out(d)
    {
      ReadMembers(v.members, d, f);
      ReadUtf8(Out(d), body, f);
    }
  }

  lemma StripBrackets(a: seq<int>, x: seq<int>, b: seq<int>) returns (y: seq<int>)
    requires x != [] && [OPEN_OBJECT] + a + [CLOSE_OBJECT] == x + ([OPEN_OBJECT] + b + [CLOSE_OBJECT])
    ensures a == y + ([OPEN_OBJECT] + b)
  {
    y := x[1..];
    var whole := x + ([OPEN_OBJECT] + b + [CLOSE_OBJECT]);
    assert whole[1..|whole| - 1] == y + ([OPEN_OBJECT] + b);
    assert ([OPEN_OBJECT] + a + [CLOSE_OBJECT])[1..|a| + 1] == a;
  }

  /** The text of an object is never the tail of a longer one. */
  lemma NoObjectEndsInAnother(v: Data, w: Data, x: seq<Byte>)
    requires v.Obj? && w.Obj? && Utf8(Stringify(v)) == x + Utf8(Stringify(w))
    ensures x == []
  {
    ObjectBytes(v);
    ObjectBytes(w);
    assert ReadAll(Out(1), ObjectBody(v), 1) == Out(1);
    if x != [] {
      var y := StripBrackets(ObjectBody(v), x, ObjectBody(w));
      ReadConcat(Out(1), y, [OPEN_OBJECT] + ObjectBody(w), 1);
      NotAnObjectFrom(ReadAll(Out(1), y, 1), y, ObjectBody(w));
    }
  }

  // ------------------------------------------------------------------- the preimage

  /** A domain string: it ends at its only NUL. */
  predicate IsDomain(d: seq<Byte>) {
    d != [] && d[|d| - 1] == 0 && forall i :: 0 <= i < |d| - 1 ==> d[i] != 0
  }

  /** "printwright:license-certificate:v1", NUL. */
  const DOMAIN: seq<Byte> :=
    [0x70, 0x72, 0x69, 0x6E, 0x74, 0x77, 0x72, 0x69, 0x67, 0x68, 0x74, 0x3A,
     0x6C, 0x69, 0x63, 0x65, 0x6E, 0x73, 0x65, 0x2D,
     0x63, 0x65, 0x72, 0x74, 0x69, 0x66, 0x69, 0x63, 0x61, 0x74, 0x65, 0x3A, 0x76, 0x31, 0x00]

  function Preimage(domain: seq<Byte>, nonce: seq<Byte>, text: Text): seq<Byte> {
    domain + nonce + Utf8(text)
  }

  /** Uint8Array.prototype.set */
  method SetBytes(a: array<Byte>, bs: seq<Byte>, at: nat)
    requires at + |bs| <= a.Length
    modifies a
    ensures a[..] == old(a[..at]) + bs + old(a[at + |bs|..])
  {
    var i := 0;
    while i < |bs|
      invariant i <= |bs|
      invariant a[..] == old(a[..at]) + bs[..i] + old(a[at + i..])
    {
      a[at + i] := bs[i];
      i := i + 1;
    }
    assert bs[..|bs|] == bs;
  }

  /** The widget's preimage, filled in place. */
  method FillPreimage(domain: seq<Byte>, nonce: seq<Byte>, text: Text) returns (a: array<Byte>)
    ensures fresh(a) && a[..] == Preimage(domain, nonce, text) == domain + nonce + Utf8(text)
  {
    var bytes := Utf8(text);
    a := new Byte[|domain| + |nonce| + |bytes|](_ => 0);
    SetBytes(a, domain, 0);
    assert a[..|domain|] == domain;
    SetBytes(a, nonce, |domain|);
    assert a[..|domain| + |nonce|] == domain + nonce;
    SetBytes(a, bytes, |domain| + |nonce|);
  }

  lemma DomainFirst(d: seq<Byte>, e: seq<Byte>, x: seq<Byte>, y: seq<Byte>)
    requires IsDomain(d) && IsDomain(e) && d + x == e + y
    ensures d == e && x == y
  {
    FirstNul(d, x);
    FirstNul(e, y);
    assert |d| == |e|;
    assert d == (d + x)[..|d|] && e == (e + y)[..|d|];
    assert x == (d + x)[|d|..] && y == (e + y)[|d|..];
  }

  lemma FirstNul(d: seq<Byte>, x: seq<Byte>)
    requires IsDomain(d)
    ensures (d + x)[|d| - 1] == 0 && forall i :: 0 <= i < |d| - 1 ==> (d + x)[i] != 0
  {
  }

  lemma NonceFirst(m: seq<Byte>, n: seq<Byte>, v: Data, w: Data)
    requires v.Obj? && w.Obj? && |m| <= |n| && m + Utf8(Stringify(v)) == n + Utf8(Stringify(w))
    ensures m == n && Utf8(Stringify(v)) == Utf8(Stringify(w))
  {
    var a, b := Utf8(Stringify(v)), Utf8(Stringify(w));
    var x := n[|m|..];
    assert m == (m + a)[..|m|] == (n + b)[..|m|] == n[..|m|];
    assert a == (m + a)[|m|..] == (n + b)[|m|..] == x + b;
    NoObjectEndsInAnother(v, w, x);
    assert n == m + x && x + b == b;
  }

  /** A preimage determines its domain, its nonce and its certificate, whatever the
      lengths of the nonces. */
  lemma PreimageDetermines(d: seq<Byte>, m: seq<Byte>, v: Data, e: seq<Byte>, n: seq<Byte>, w: Data)
    requires IsDomain(d) && IsDomain(e) && v.Obj? && w.Obj?
    requires Preimage(d, m, Stringify(v)) == Preimage(e, n, Stringify(w))
    ensures d == e && m == n && v == w
  {
    var a, b := Utf8(Stringify(v)), Utf8(Stringify(w));
    assert d + m + a == d + (m + a) && e + n + b == e + (n + b);
    DomainFirst(d, e, m + a, n + b);
    if |m| <= |n| {
      NonceFirst(m, n, v, w);
    } else {
      NonceFirst(n, m, w, v);
    }
    TextIsWellFormed(v);
    TextIsWellFormed(w);
    Utf8Injective(Stringify(v), Stringify(w));
    StringifyInjective(v, w);
  }

  // ------------------------------------------------------------------- anchoring

  /** A hash no two inputs share. */
  ghost predicate Injective(sha: seq<Byte> -> nat) {
    forall x, y :: sha(x) == sha(y) ==> x == y
  }

  /** /^(?:[0-9a-f]{2})+$/i */
  function NonceBytes(hex: Text): (r: Option<seq<Byte>>)
    ensures r.Some? ==> 2 * |r.value| == |hex|
  {
    if hex == [] then None
    else HexBytes(hex)
  }

  function HexBytes(hex: Text): (r: Option<seq<Byte>>)
    ensures r.Some? ==> 2 * |r.value| == |hex|
  {
    if hex == [] then Some([])
    else if |hex| == 1 then None
    else
      match (HexValue(hex[0]), HexValue(hex[1]), HexBytes(hex[2..]))
      case (Some(a), Some(b), Some(rest)) => if 0x10 * a + b < 0x100 then Some([0x10 * a + b] + rest) else None
      case _ => None
  }

  /** computeCommitment of the verifier and the widget. */
  function ComputeCommitment(sha: seq<Byte> -> nat, certificate: Data, nonceHex: Text): Option<nat> {
    match NonceBytes(nonceHex)
    case None => None
    case Some(nonce) => Some(sha(Preimage(DOMAIN, nonce, CanonicalText(certificate, true))))
  }

  datatype Envelope = Envelope(ours: bool, commitment: nat)

  /** Certificates::Commitment.envelope. */
  function AnchoredEnvelope(sha: seq<Byte> -> nat, certificate: Data, nonce: seq<Byte>): Envelope {
    Envelope(true, sha(Preimage(DOMAIN, nonce, CanonicalText(certificate, false))))
  }

  type Topic = nat

  datatype Bundle = Bundle(certificate: Data, nonce: Text, commitment: nat, minting: bool, topic: Option<Topic>)

  datatype Verdict = Verified | Failed | Pending

  /** The integrity and anchoring checks of verifyBundle, for a bundle whose
      certificate is an object; None is invalid input. `onChain` is what the mirror
      returns for a topic's message. */
  function CheckBundle(sha: seq<Byte> -> nat, b: Bundle, expectedTopic: Option<Topic>, onChain: Topic -> Option<Envelope>)
    : Option<(Verdict, Verdict)>
  {
    match ComputeCommitment(sha, b.certificate, b.nonce)
    case None => None
    case Some(recomputed) =>
      var integrity := if recomputed == b.commitment then Verified else Failed;
      var anchoring :=
        if b.minting || b.topic.None? then Pending
        else if expectedTopic.Some? && b.topic != expectedTopic then Failed
        else
          match onChain(b.topic.value)
          case None => Failed
          case Some(e) => if !e.ours then Failed else if e.commitment == recomputed then Verified else Failed;
      Some((integrity, anchoring))
  }

  lemma DomainIsOne()
    ensures IsDomain(DOMAIN)
  {
  }

  lemma SameCommitment(sha: seq<Byte> -> nat, d: seq<Byte>, v: Data, m: seq<Byte>, w: Data, n: seq<Byte>)
    requires IsDomain(d) && Injective(sha) && Distinct(v) && Distinct(w) && v.Obj? && w.Obj?
    requires sha(Preimage(d, m, CanonicalText(v, true))) == sha(Preimage(d, n, CanonicalText(w, false)))
    ensures Same(v, w) && m == n
  {
    CanonicalTextIsStringify(v, true);
    CanonicalTextIsStringify(w, false);
    WalletOrder(w);
    PreimageDetermines(d, m, Ordered(v, true), d, n, SortAll(w));
    OrderedSortsAlike(v, true);
    OrderedSortsAlike(w, false);
    SortAllExactly(v, w);
  }

  /** If the message was anchored for a certificate, a passing anchoring check means
      the bundle holds that very certificate — the same value up to the order of
      members — and that nonce. */
  lemma AnchoringMeansThisCertificate(sha: seq<Byte> -> nat, b: Bundle, expectedTopic: Option<Topic>,
                                      onChain: Topic -> Option<Envelope>, certificate: Data, nonce: seq<Byte>)
    requires Injective(sha) && Distinct(b.certificate) && Distinct(certificate) && b.certificate.Obj? && certificate.Obj?
    requires b.topic.Some? ==> onChain(b.topic.value) == Some(AnchoredEnvelope(sha, certificate, nonce))
    requires CheckBundle(sha, b, expectedTopic, onChain).Some?
    requires CheckBundle(sha, b, expectedTopic, onChain).value.1 == Verified
    ensures Same(b.certificate, certificate) && NonceBytes(b.nonce) == Some(nonce)
    ensures b.topic.Some? && (expectedTopic.Some? ==> b.topic == expectedTopic)
  {
    DomainIsOne();
    SameCommitment(sha, DOMAIN, b.certificate, NonceBytes(b.nonce).value, certificate, nonce);
  }

  lemma SameText(v: Data, w: Data)
    requires Distinct(v) && Distinct(w) && Same(v, w) && ToJsonInOrder(v)
    ensures CanonicalText(v, true) == CanonicalText(w, false)
  {
    SerialisersAgreeExactly(v);
    CanonicalTextExactly(v, w);
  }

  /** An honest bundle passes: the same certificate with its nonce and commitment, as
      long as no toJSON member hides disorder. */
  lemma HonestBundlePasses(sha: seq<Byte> -> nat, b: Bundle, expectedTopic: Option<Topic>,
                           onChain: Topic -> Option<Envelope>, certificate: Data, nonce: seq<Byte>)
    requires Distinct(b.certificate) && Distinct(certificate) && Same(b.certificate, certificate) && ToJsonInOrder(b.certificate)
    requires NonceBytes(b.nonce) == Some(nonce) && !b.minting && b.topic.Some?
    requires expectedTopic.Some? ==> b.topic == expectedTopic
    requires onChain(b.topic.value) == Some(AnchoredEnvelope(sha, certificate, nonce))
    requires b.commitment == AnchoredEnvelope(sha, certificate, nonce).commitment
    ensures CheckBundle(sha, b, expectedTopic, onChain) == Some((Verified, Verified))
  {
    SameText(b.certificate, certificate);
  }

  // ------------------------------------------------- what each verdict means

  /** Integrity is judged whenever the nonce is hexadecimal. If the commitment is
      that of some certificate and nonce, integrity is verified exactly when the
      bundle holds that certificate, up to the order of members, and that nonce —
      toJSON members aside, which can only fail it — and failed otherwise. */
  lemma IntegrityExactly(sha: seq<Byte> -> nat, b: Bundle, expectedTopic: Option<Topic>,
                         onChain: Topic -> Option<Envelope>, certificate: Data, nonce: seq<Byte>)
    requires Injective(sha) && Distinct(b.certificate) && Distinct(certificate) && b.certificate.Obj? && certificate.Obj?
    requires b.commitment == sha(DOMAIN + nonce + Utf8(CanonicalText(certificate, false)))
    ensures var verdict := CheckBundle(sha, b, expectedTopic, onChain);
      && (verdict.None? <==> NonceBytes(b.nonce).None?)
      && (verdict.Some? ==>
            && (verdict.value.0 == Verified || verdict.value.0 == Failed)
            && (verdict.value.0 == Verified ==> Same(b.certificate, certificate) && NonceBytes(b.nonce) == Some(nonce))
            && (Same(b.certificate, certificate) && NonceBytes(b.nonce) == Some(nonce) && ToJsonInOrder(b.certificate) ==>
                  verdict.value.0 == Verified))
  {
    DomainIsOne();
    match NonceBytes(b.nonce) {
      case None =>
      case Some(read) =>
        if sha(Preimage(DOMAIN, read, CanonicalText(b.certificate, true))) == b.commitment {
          SameCommitment(sha, DOMAIN, b.certificate, read, certificate, nonce);
        } else if Same(b.certificate, certificate) && read == nonce && ToJsonInOrder(b.certificate) {
          SameText(b.certificate, certificate);
        }
    }
  }

  /** The message on the expected topic is a commitment of ours to this very text. */
  ghost predicate AnchoredHere(sha: seq<Byte> -> nat, b: Bundle, expectedTopic: Option<Topic>, onChain: Topic -> Option<Envelope>) {
    && b.topic.Some? && (expectedTopic.Some? ==> b.topic == expectedTopic)
    && onChain(b.topic.value).Some? && onChain(b.topic.value).value.ours
    && NonceBytes(b.nonce).Some?
    && onChain(b.topic.value).value.commitment
         == sha(DOMAIN + NonceBytes(b.nonce).value + Utf8(CanonicalText(b.certificate, true)))
  }

  /** Anchoring is pending exactly while minting or without a topic; otherwise it is
      verified exactly for our envelope of this commitment on the expected topic, and
      failed for another kind, another topic, another commitment or no message. */
  lemma AnchoringExactly(sha: seq<Byte> -> nat, b: Bundle, expectedTopic: Option<Topic>, onChain: Topic -> Option<Envelope>)
    requires NonceBytes(b.nonce).Some?
    ensures var verdict := CheckBundle(sha, b, expectedTopic, onChain);
      && verdict.Some?
      && (verdict.value.1 == Pending <==> b.minting || b.topic.None?)
      && (verdict.value.1 == Verified <==> !b.minting && AnchoredHere(sha, b, expectedTopic, onChain))
      && (verdict.value.1 == Failed <==> !b.minting && b.topic.Some? && !AnchoredHere(sha, b, expectedTopic, onChain))
  {
  }

  /** The domain is the program's own name for a licence certificate, and a NUL. */
  lemma DomainIsNamed()
    ensures var name := "printwright:license-certificate:v1";
      |DOMAIN| == |name| + 1 && DOMAIN[|name|] == 0 && forall i :: 0 <= i < |name| ==> DOMAIN[i] == name[i] as int
  {
  }

  ghost predicate IsHexDigit(u: int) {
    0x30 <= u <= 0x39 || 0x41 <= u <= 0x46 || 0x61 <= u <= 0x66
  }

  ghost function DigitOf(u: int): int {
    if u <= 0x39 then u - 0x30 else if u <= 0x46 then u - 0x41 + 10 else u - 0x61 + 10
  }

  /** A nonce is a non-empty even number of hexadecimal digits of either case, and
      each pair of them is one byte, the higher digit first. */
  lemma NonceIsHex(hex: Text)
    ensures NonceBytes(hex).Some? <==> hex != [] && |hex| % 2 == 0 && forall i :: 0 <= i < |hex| ==> IsHexDigit(hex[i])
    ensures NonceBytes(hex).Some? ==>
      var bytes := NonceBytes(hex).value;
      2 * |bytes| == |hex| && forall i :: 0 <= i < |bytes| ==> bytes[i] == 0x10 * DigitOf(hex[2 * i]) + DigitOf(hex[2 * i + 1])
  {
    HexBytesRead(hex);
  }

  lemma {:induction false} HexBytesRead(hex: Text)
    ensures HexBytes(hex).Some? <==> |hex| % 2 == 0 && forall i :: 0 <= i < |hex| ==> IsHexDigit(hex[i])
    ensures HexBytes(hex).Some? ==>
      var bytes := HexBytes(hex).value;
      2 * |bytes| == |hex| && forall i :: 0 <= i < |bytes| ==> bytes[i] == 0x10 * DigitOf(hex[2 * i]) + DigitOf(hex[2 * i + 1])
  {
    if |hex| >= 2 {
      var rest := hex[2..];
      HexBytesRead(rest);
      forall i | 0 <= i < |rest|
        ensures rest[i] == hex[i + 2]
      {
      }
      assert HexValue(hex[0]).Some? <==> IsHexDigit(hex[0]);
      assert HexValue(hex[1]).Some? <==> IsHexDigit(hex[1]);
      if HexBytes(hex).Some? {
        var bytes := HexBytes(hex).value;
        forall i | 0 <= i < |bytes|
          ensures bytes[i] == 0x10 * DigitOf(hex[2 * i]) + DigitOf(hex[2 * i + 1])
        {
          if i > 0 {
            assert bytes[i] == HexBytes(rest).value[i - 1] && rest[2 * (i - 1)] == hex[2 * i] && rest[2 * (i - 1) + 1] == hex[2 * i + 1];
          }
        }
      }
      if forall i :: 0 <= i < |hex| ==> IsHexDigit(hex[i]) {
        assert forall i :: 0 <= i < |rest| ==> IsHexDigit(rest[i]);
      }
    }
  }
}
