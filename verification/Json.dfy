/** JSON values, the text JSON.stringify writes for them, and a parser that reads
    it back. Strings and texts are sequences of UTF-16 code units; numbers are
    integers; an object keeps its members in own-property order. */
module Json {
  import opened Decimal
  import opened Wrappers

  type Unit = u: int | 0 <= u < 0x1_0000

  type Text = seq<Unit>

  datatype Member = Member(key: Text, value: Data)

  datatype Data = Null | Bool(b: bool) | Num(n: int) | Str(s: Text) | Arr(items: seq<Data>) | Obj(members: seq<Member>)

  const QUOTE: Unit := 0x22
  const BACKSLASH: Unit := 0x5C
  const COMMA: Unit := 0x2C
  const COLON: Unit := 0x3A
  const OPEN_ARRAY: Unit := 0x5B
  const CLOSE_ARRAY: Unit := 0x5D
  const OPEN_OBJECT: Unit := 0x7B
  const CLOSE_OBJECT: Unit := 0x7D
  const MINUS: Unit := 0x2D
  const LETTER_U: Unit := 0x75

  /** The text of an ASCII string. */
  function Ascii(s: string): (t: Text)
    requires forall i :: 0 <= i < |s| ==> s[i] < 128 as char
    ensures |t| == |s| && forall i :: 0 <= i < |s| ==> t[i] == s[i] as int
  {
    if s == "" then [] else [s[0] as int] + Ascii(s[1..])
  }

  const NULL_TEXT: Text := [0x6E, 0x75, 0x6C, 0x6C]
  const TRUE_TEXT: Text := [0x74, 0x72, 0x75, 0x65]
  const FALSE_TEXT: Text := [0x66, 0x61, 0x6C, 0x73, 0x65]

  // ------------------------------------------------------------------ strings

  predicate IsHigh(u: Unit) {
    0xD800 <= u <= 0xDBFF
  }

  predicate IsLow(u: Unit) {
    0xDC00 <= u <= 0xDFFF
  }

  predicate StartsPair(s: Text) {
    |s| >= 2 && IsHigh(s[0]) && IsLow(s[1])
  }

  function HexDigit(n: nat): Unit
    requires n < 16
  {
    if n < 10 then 0x30 + n else 0x61 + (n - 10)
  }

  function HexValue(u: Unit): Option<nat> {
    if 0x30 <= u <= 0x39 then Some(u - 0x30)
    else if 0x61 <= u <= 0x66 then Some(u - 0x61 + 10)
    else if 0x41 <= u <= 0x46 then Some(u - 0x41 + 10)
    else None
  }

  /** \uXXXX */
  function UnicodeEscape(u: Unit): Text {
    [BACKSLASH, LETTER_U, HexDigit(u / 0x1000), HexDigit(u / 0x100 % 0x10), HexDigit(u / 0x10 % 0x10), HexDigit(u % 0x10)]
  }

  /** The letter of a two-character escape. */
  function ShortEscape(u: Unit): Option<Unit> {
    match u
    case 0x22 => Some(0x22)
    case 0x5C => Some(0x5C)
    case 0x08 => Some(0x62)
    case 0x09 => Some(0x74)
    case 0x0A => Some(0x6E)
    case 0x0C => Some(0x66)
    case 0x0D => Some(0x72)
    case _ => None
  }

  function ShortMeaning(letter: Unit): Option<Unit> {
    match letter
    case 0x22 => Some(0x22)
    case 0x5C => Some(0x5C)
    case 0x2F => Some(0x2F)
    case 0x62 => Some(0x08)
    case 0x74 => Some(0x09)
    case 0x6E => Some(0x0A)
    case 0x66 => Some(0x0C)
    case 0x72 => Some(0x0D)
    case _ => None
  }

  /** One code unit that is not half of a pair. */
  function UnitText(u: Unit): Text {
    if ShortEscape(u).Some? then [BACKSLASH, ShortEscape(u).value]
    else if u < 0x20 || IsHigh(u) || IsLow(u) then UnicodeEscape(u)
    else [u]
  }

  /** Surrogate pairs stand as they are, lone surrogates are escaped. */
  function Escaped(s: Text): Text {
    if s == [] then []
    else if StartsPair(s) then [s[0], s[1]] + Escaped(s[2..])
    else UnitText(s[0]) + Escaped(s[1..])
  }

  function Quoted(s: Text): Text {
    [QUOTE] + Escaped(s) + [QUOTE]
  }

  // ------------------------------------------------------------------- writing

  function NumberText(n: int): Text {
    assert forall i :: 0 <= i < |SignedText(n)| ==> SignedText(n)[i] < 128 as char;
    Ascii(SignedText(n))
  }

  /** JSON.stringify of plain data, in own-property order. */
  function Stringify(v: Data): Text
    decreases v
  {
    match v
    case Null => NULL_TEXT
    case Bool(b) => if b then TRUE_TEXT else FALSE_TEXT
    case Num(n) => NumberText(n)
    case Str(s) => Quoted(s)
    case Arr(items) => [OPEN_ARRAY] + ItemsText(items) + [CLOSE_ARRAY]
    case Obj(members) => [OPEN_OBJECT] + MembersText(members) + [CLOSE_OBJECT]
  }

  function ItemsText(items: seq<Data>): Text
    decreases items
  {
    if items == [] then []
    else if |items| == 1 then Stringify(items[0])
    else Stringify(items[0]) + [COMMA] + ItemsText(items[1..])
  }

  function MemberText(m: Member): Text
    decreases m
  {
    Quoted(m.key) + [COLON] + Stringify(m.value)
  }

  function MembersText(members: seq<Member>): Text
    decreases members
  {
    if members == [] then []
    else if |members| == 1 then MemberText(members[0])
    else MemberText(members[0]) + [COMMA] + MembersText(members[1..])
  }

  // ------------------------------------------------------------------- reading

  function ParseHex(t: Text): Option<Unit> {
    if |t| < 4 then None
    else
      match (HexValue(t[0]), HexValue(t[1]), HexValue(t[2]), HexValue(t[3]))
      case (Some(a), Some(b), Some(c), Some(d)) =>
        var u := 0x1000 * a + 0x100 * b + 0x10 * c + d;
        if u < 0x1_0000 then Some(u) else None
      case _ => None
  }

  /** The characters up to the closing quote, and what follows it. */
  function ParseString(t: Text): (r: Option<(Text, Text)>)
    ensures r.Some? ==> |r.value.1| < |t|
  {
    if t == [] then None
    else if t[0] == QUOTE then Some(([], t[1..]))
    else if t[0] == BACKSLASH then
      if |t| < 2 then None
      else if t[1] == LETTER_U then
        match ParseHex(t[2..])
        case None => None
        case Some(u) =>
          match ParseString(t[6..])
          case None => None
          case Some(p) => Some(([u] + p.0, p.1))
      else
        match ShortMeaning(t[1])
        case None => None
        case Some(u) =>
          match ParseString(t[2..])
          case None => None
          case Some(p) => Some(([u] + p.0, p.1))
    else if t[0] < 0x20 then None
    else
      match ParseString(t[1..])
      case None => None
      case Some(p) => Some(([t[0]] + p.0, p.1))
  }

  predicate IsDigitUnit(u: Unit) {
    0x30 <= u <= 0x39
  }

  function TakeDigits(t: Text): (s: string)
    ensures AllDigits(s) && |s| <= |t|
  {
    if t == [] || !IsDigitUnit(t[0]) then "" else ['0' + (t[0] - 0x30) as char] + TakeDigits(t[1..])
  }

  function ParseNumber(t: Text): (r: Option<(Data, Text)>)
    ensures r.Some? ==> |r.value.1| < |t|
  {
    var negative := t != [] && t[0] == MINUS;
    var from := if negative then 1 else 0;
    var digits := TakeDigits(t[from..]);
    if digits == "" then None
    else
      var n: int := Value(digits);
      Some((Num(if negative then -n else n), t[from + |digits|..]))
  }

  function ParseWord(t: Text, word: Text, v: Data): (r: Option<(Data, Text)>)
    requires word != []
    ensures r.Some? ==> |r.value.1| < |t|
  {
    if word <= t then Some((v, t[|word|..])) else None
  }

  function ParseValue(t: Text): (r: Option<(Data, Text)>)
    ensures r.Some? ==> |r.value.1| < |t|
    decreases |t|, 0
  {
    if t == [] then None
    else if t[0] == NULL_TEXT[0] then ParseWord(t, NULL_TEXT, Null)
    else if t[0] == TRUE_TEXT[0] then ParseWord(t, TRUE_TEXT, Bool(true))
    else if t[0] == FALSE_TEXT[0] then ParseWord(t, FALSE_TEXT, Bool(false))
    else if t[0] == QUOTE then
      match ParseString(t[1..])
      case None => None
      case Some(p) => Some((Str(p.0), p.1))
    else if t[0] == OPEN_ARRAY then
      if |t| > 1 && t[1] == CLOSE_ARRAY then Some((Arr([]), t[2..]))
      else
        match ParseItems(t[1..])
        case None => None
        case Some(p) => Some((Arr(p.0), p.1))
    else if t[0] == OPEN_OBJECT then
      if |t| > 1 && t[1] == CLOSE_OBJECT then Some((Obj([]), t[2..]))
      else
        match ParseMembers(t[1..])
        case None => None
        case Some(p) => Some((Obj(p.0), p.1))
    else ParseNumber(t)
  }

  function ParseItems(t: Text): (r: Option<(seq<Data>, Text)>)
    ensures r.Some? ==> |r.value.1| < |t|
    decreases |t|, 1
  {
    match ParseValue(t)
    case None => None
    case Some(p) =>
      if p.1 == [] then None
      else if p.1[0] == CLOSE_ARRAY then Some(([p.0], p.1[1..]))
      else if p.1[0] == COMMA then
        match ParseItems(p.1[1..])
        case None => None
        case Some(q) => Some(([p.0] + q.0, q.1))
      else None
  }

  function ParseMembers(t: Text): (r: Option<(seq<Member>, Text)>)
    ensures r.Some? ==> |r.value.1| < |t|
    decreases |t|, 1
  {
    if t == [] || t[0] != QUOTE then None
    else
      match ParseString(t[1..])
      case None => None
      case Some(k) =>
        if k.1 == [] || k.1[0] != COLON then None
        else
          match ParseValue(k.1[1..])
          case None => None
          case Some(p) =>
            if p.1 == [] then None
            else if p.1[0] == CLOSE_OBJECT then Some(([Member(k.0, p.0)], p.1[1..]))
            else if p.1[0] == COMMA then
              match ParseMembers(p.1[1..])
              case None => None
              case Some(q) => Some(([Member(k.0, p.0)] + q.0, q.1))
            else None
  }

  // ---------------------------------------------------------------- round trips

  lemma Assoc(a: Text, b: Text, c: Text)
    ensures (a + b) + c == a + (b + c)
  {
  }

  lemma TailOf(u: Unit, rest: Text)
    ensures ([u] + rest)[0] == u && ([u] + rest)[1..] == rest
  {
  }

  /** Brackets or quotes round a text, and what follows them. */
  lemma Enclosed(open: Unit, body: Text, close: Unit, rest: Text)
    ensures [open] + body + [close] + rest == [open] + (body + ([close] + rest))
  {
    Assoc([open] + body, [close], rest);
    Assoc([open], body, [close] + rest);
  }

  lemma HexDigitRoundTrip(n: nat)
    requires n < 16
    ensures HexValue(HexDigit(n)) == Some(n)
  {
  }

  lemma HexSplit(u: Unit)
    ensures u / 0x1000 < 16 && u / 0x100 % 0x10 < 16 && u / 0x10 % 0x10 < 16 && u % 0x10 < 16
    ensures 0x1000 * (u / 0x1000) + 0x100 * (u / 0x100 % 0x10) + 0x10 * (u / 0x10 % 0x10) + u % 0x10 == u
  {
    assert u / 0x100 == u / 0x10 / 0x10;
    assert u / 0x1000 == u / 0x100 / 0x10;
  }

  lemma ParseHexDigits(t: Text, a: nat, b: nat, c: nat, d: nat)
    requires a < 16 && b < 16 && c < 16 && d < 16 && 0x1000 * a + 0x100 * b + 0x10 * c + d < 0x1_0000
    requires |t| >= 4 && t[0] == HexDigit(a) && t[1] == HexDigit(b) && t[2] == HexDigit(c) && t[3] == HexDigit(d)
    ensures ParseHex(t) == Some(0x1000 * a + 0x100 * b + 0x10 * c + d)
  {
    HexDigitRoundTrip(a);
    HexDigitRoundTrip(b);
    HexDigitRoundTrip(c);
    HexDigitRoundTrip(d);
  }

  lemma HexRoundTrip(u: Unit, rest: Text)
    ensures ParseHex((UnicodeEscape(u) + rest)[2..]) == Some(u)
    ensures (UnicodeEscape(u) + rest)[6..] == rest
  {
    HexSplit(u);
    ParseHexDigits((UnicodeEscape(u) + rest)[2..], u / 0x1000, u / 0x100 % 0x10, u / 0x10 % 0x10, u % 0x10);
  }

  lemma UnicodeRoundTrip(u: Unit, t: Text, rest: Text)
    requires t == UnicodeEscape(u) + rest && ParseString(rest).Some?
    ensures ParseString(t) == Some(([u] + ParseString(rest).value.0, ParseString(rest).value.1))
  {
    HexRoundTrip(u, rest);
    assert t[0] == BACKSLASH && t[1] == LETTER_U;
  }

  lemma ShortRoundTrip(u: Unit, t: Text, rest: Text)
    requires ShortEscape(u).Some? && t == [BACKSLASH, ShortEscape(u).value] + rest && ParseString(rest).Some?
    ensures ParseString(t) == Some(([u] + ParseString(rest).value.0, ParseString(rest).value.1))
  {
    assert t[0] == BACKSLASH && t[1] == ShortEscape(u).value && t[2..] == rest;
  }

  lemma RawRoundTrip(u: Unit, t: Text, rest: Text)
    requires u >= 0x20 && u != QUOTE && u != BACKSLASH && t == [u] + rest && ParseString(rest).Some?
    ensures ParseString(t) == Some(([u] + ParseString(rest).value.0, ParseString(rest).value.1))
  {
    assert t[0] == u && t[1..] == rest;
  }

  lemma UnitRoundTrip(u: Unit, t: Text, rest: Text)
    requires t == UnitText(u) + rest && ParseString(rest).Some?
    ensures ParseString(t) == Some(([u] + ParseString(rest).value.0, ParseString(rest).value.1))
  {
    if ShortEscape(u).Some? {
      ShortRoundTrip(u, t, rest);
    } else if u < 0x20 || IsHigh(u) || IsLow(u) {
      UnicodeRoundTrip(u, t, rest);
    } else {
      RawRoundTrip(u, t, rest);
    }
  }

  lemma PairFirst(s: Text, more: Text, end: Text)
    requires |s| >= 2
    ensures ([s[0], s[1]] + more) + end == [s[0]] + ([s[1]] + (more + end))
    ensures [s[0]] + ([s[1]] + s[2..]) == s
  {
    Assoc([s[0], s[1]], more, end);
    assert [s[0], s[1]] == [s[0]] + [s[1]];
    Assoc([s[0]], [s[1]], more + end);
  }

  /** The closing quote ends the string wherever its text stops. */
  lemma {:induction false} StringRoundTrip(s: Text, end: Text, rest: Text)
    requires end == [QUOTE] + rest
    ensures ParseString(Escaped(s) + end) == Some((s, rest))
    decreases |s|
  {
    if s == [] {
      TailOf(QUOTE, rest);
      assert Escaped(s) + end == end;
    } else if StartsPair(s) {
      var tail := Escaped(s[2..]) + end;
      StringRoundTrip(s[2..], end, rest);
      RawRoundTrip(s[1], [s[1]] + tail, tail);
      RawRoundTrip(s[0], [s[0]] + ([s[1]] + tail), [s[1]] + tail);
      PairFirst(s, Escaped(s[2..]), end);
    } else {
      var tail := Escaped(s[1..]) + end;
      StringRoundTrip(s[1..], end, rest);
      UnitRoundTrip(s[0], UnitText(s[0]) + tail, tail);
      Assoc(UnitText(s[0]), Escaped(s[1..]), end);
      assert [s[0]] + s[1..] == s;
    }
  }

  /** A number ends where no digit follows. */
  predicate NoDigitFollows(rest: Text) {
    rest == [] || !IsDigitUnit(rest[0])
  }

  lemma {:induction false} DigitsRoundTrip(s: string, rest: Text)
    requires AllDigits(s) && NoDigitFollows(rest)
    ensures TakeDigits(Ascii(s) + rest) == s
  {
    if s == "" {
      assert Ascii(s) + rest == rest;
    } else {
      DigitsRoundTrip(s[1..], rest);
      assert (Ascii(s) + rest)[1..] == Ascii(s[1..]) + rest;
    }
  }

  lemma NaturalRoundTrip(n: nat, t: Text, rest: Text)
    requires t == Ascii(Decimal.Text(n)) + rest && NoDigitFollows(rest)
    ensures t != [] && IsDigitUnit(t[0]) && TakeDigits(t) == Decimal.Text(n) && Value(TakeDigits(t)) == n
    ensures t[|TakeDigits(t)|..] == rest
  {
    DigitsRoundTrip(Decimal.Text(n), rest);
    ValueOfText(n);
    assert IsDigit(Decimal.Text(n)[0]);
  }

  lemma NegativeText(n: int, rest: Text)
    requires n < 0
    ensures NumberText(n) + rest == [MINUS] + (Ascii(Decimal.Text(-n)) + rest)
  {
    assert SignedText(n)[0] == '-' && SignedText(n)[1..] == Decimal.Text(-n);
    Assoc([MINUS], Ascii(Decimal.Text(-n)), rest);
  }

  lemma NegativeIsRead(n: int, t: Text, u: Text, rest: Text)
    requires n < 0 && t == [MINUS] + u && u == Ascii(Decimal.Text(-n)) + rest && NoDigitFollows(rest)
    ensures ParseNumber(t) == Some((Num(n), rest))
  {
    TailOf(MINUS, u);
    NaturalRoundTrip(-n, u, rest);
    assert t[1 + |TakeDigits(u)|..] == t[1..][|TakeDigits(u)|..];
  }

  lemma NaturalIsRead(n: nat, t: Text, rest: Text)
    requires t == Ascii(Decimal.Text(n)) + rest && NoDigitFollows(rest)
    ensures t != [] && IsDigitUnit(t[0]) && ParseNumber(t) == Some((Num(n), rest))
  {
    NaturalRoundTrip(n, t, rest);
    assert t[0..] == t;
  }

  lemma NumberRoundTrip(n: int, t: Text, rest: Text)
    requires t == NumberText(n) + rest && NoDigitFollows(rest)
    ensures t != [] && (t[0] == MINUS || IsDigitUnit(t[0])) && ParseNumber(t) == Some((Num(n), rest))
  {
    if n < 0 {
      NegativeText(n, rest);
      NegativeIsRead(n, t, Ascii(Decimal.Text(-n)) + rest, rest);
    } else {
      NaturalIsRead(n, t, rest);
    }
  }

  lemma NumberStarts(n: int)
    ensures NumberText(n) != [] && (NumberText(n)[0] == MINUS || IsDigitUnit(NumberText(n)[0]))
  {
    NumberRoundTrip(n, NumberText(n) + [], []);
  }

  lemma NeverStartsWithBracket(v: Data)
    ensures Stringify(v) != [] && Stringify(v)[0] != CLOSE_ARRAY
  {
    if v.Num? {
      NumberStarts(v.n);
    }
  }

  lemma WordsRoundTrip(v: Data, t: Text, rest: Text)
    requires (v.Null? || v.Bool?) && t == Stringify(v) + rest
    ensures ParseValue(t) == Some((v, rest))
  {
    assert t[|Stringify(v)|..] == rest;
  }

  lemma LastItem(t: Text, v: Data, end: Text, rest: Text)
    requires end == [CLOSE_ARRAY] + rest && ParseValue(t) == Some((v, end))
    ensures ParseItems(t) == Some(([v], rest))
  {
    assert end[1..] == rest;
  }

  lemma MoreItems(t: Text, v: Data, more: Text, tail: Text, items: seq<Data>, rest: Text)
    requires more == [COMMA] + tail && ParseValue(t) == Some((v, more)) && ParseItems(tail) == Some((items, rest))
    ensures ParseItems(t) == Some(([v] + items, rest))
  {
    assert more[1..] == tail;
  }

  lemma {:induction false} ItemsRoundTrip(items: seq<Data>, end: Text, rest: Text)
    requires items != [] && end == [CLOSE_ARRAY] + rest
    ensures ParseItems(ItemsText(items) + end) == Some((items, rest))
    decreases items
  {
    var t := ItemsText(items) + end;
    TailOf(CLOSE_ARRAY, rest);
    if |items| == 1 {
      RoundTrip(items[0], end);
      assert [items[0]] == items;
      LastItem(t, items[0], end, rest);
    } else {
      var tail := ItemsText(items[1..]) + end;
      TailOf(COMMA, tail);
      RoundTrip(items[0], [COMMA] + tail);
      ItemsRoundTrip(items[1..], end, rest);
      Assoc(Stringify(items[0]) + [COMMA], ItemsText(items[1..]), end);
      Assoc(Stringify(items[0]), [COMMA], tail);
      MoreItems(t, items[0], [COMMA] + tail, tail, items[1..], rest);
      assert [items[0]] + items[1..] == items;
    }
  }

  lemma MemberShape(key: Text, value: Text, after: Text)
    ensures ([QUOTE] + key + [QUOTE]) + [COLON] + value + after == [QUOTE] + (key + ([QUOTE] + ([COLON] + (value + after))))
  {
    var quoted := [QUOTE] + key + [QUOTE];
    Assoc(quoted + [COLON], value, after);
    Assoc(quoted, [COLON], value + after);
    Enclosed(QUOTE, key, QUOTE, [COLON] + (value + after));
  }

  lemma KeyAndValue(t: Text, m: Member, after: Text)
    requires t == MemberText(m) + after && ParseValue(Stringify(m.value) + after) == Some((m.value, after))
    ensures t != [] && t[0] == QUOTE && ParseString(t[1..]) == Some((m.key, [COLON] + (Stringify(m.value) + after)))
    ensures ([COLON] + (Stringify(m.value) + after))[1..] == Stringify(m.value) + after
  {
    var colon := [COLON] + (Stringify(m.value) + after);
    StringRoundTrip(m.key, [QUOTE] + colon, colon);
    MemberShape(Escaped(m.key), Stringify(m.value), after);
    TailOf(QUOTE, Escaped(m.key) + ([QUOTE] + colon));
    TailOf(COLON, Stringify(m.value) + after);
  }

  lemma LastMember(t: Text, m: Member, end: Text, rest: Text)
    requires t == MemberText(m) + end && end == [CLOSE_OBJECT] + rest && ParseValue(Stringify(m.value) + end) == Some((m.value, end))
    ensures ParseMembers(t) == Some(([m], rest))
  {
    KeyAndValue(t, m, end);
    assert end[1..] == rest;
  }

  lemma MoreMembers(t: Text, m: Member, more: Text, tail: Text, members: seq<Member>, rest: Text)
    requires t == MemberText(m) + more && more == [COMMA] + tail
    requires ParseValue(Stringify(m.value) + more) == Some((m.value, more)) && ParseMembers(tail) == Some((members, rest))
    ensures ParseMembers(t) == Some(([m] + members, rest))
  {
    KeyAndValue(t, m, more);
    assert more[1..] == tail;
  }

  lemma {:induction false} MembersRoundTrip(members: seq<Member>, end: Text, rest: Text)
    requires members != [] && end == [CLOSE_OBJECT] + rest
    ensures ParseMembers(MembersText(members) + end) == Some((members, rest))
    decreases members
  {
    var t := MembersText(members) + end;
    if |members| == 1 {
      RoundTrip(members[0].value, end);
      LastMember(t, members[0], end, rest);
      assert [members[0]] == members;
    } else {
      var tail := MembersText(members[1..]) + end;
      RoundTrip(members[0].value, [COMMA] + tail);
      MembersRoundTrip(members[1..], end, rest);
      Assoc(MemberText(members[0]) + [COMMA], MembersText(members[1..]), end);
      Assoc(MemberText(members[0]), [COMMA], tail);
      MoreMembers(t, members[0], [COMMA] + tail, tail, members[1..], rest);
      assert [members[0]] + members[1..] == members;
    }
  }

  lemma ArrayIsRead(t: Text, items: seq<Data>, rest: Text)
    requires items != [] && t == [OPEN_ARRAY] + (ItemsText(items) + ([CLOSE_ARRAY] + rest))
    requires ParseItems(ItemsText(items) + ([CLOSE_ARRAY] + rest)) == Some((items, rest))
    ensures ParseValue(t) == Some((Arr(items), rest))
  {
    NeverStartsWithBracket(items[0]);
    assert t[1] == Stringify(items[0])[0];
    assert t[1..] == ItemsText(items) + ([CLOSE_ARRAY] + rest);
  }

  lemma ObjectIsRead(t: Text, members: seq<Member>, rest: Text)
    requires members != [] && t == [OPEN_OBJECT] + (MembersText(members) + ([CLOSE_OBJECT] + rest))
    requires ParseMembers(MembersText(members) + ([CLOSE_OBJECT] + rest)) == Some((members, rest))
    ensures ParseValue(t) == Some((Obj(members), rest))
  {
    assert t[1] == QUOTE;
    assert t[1..] == MembersText(members) + ([CLOSE_OBJECT] + rest);
  }

  lemma TextIsRead(t: Text, s: Text, rest: Text)
    requires t == Quoted(s) + rest
    ensures ParseValue(t) == Some((Str(s), rest))
  {
    StringRoundTrip(s, [QUOTE] + rest, rest);
    Enclosed(QUOTE, Escaped(s), QUOTE, rest);
    TailOf(QUOTE, Escaped(s) + ([QUOTE] + rest));
  }

  lemma EmptyIsRead(v: Data, t: Text, rest: Text)
    requires (v == Arr([]) || v == Obj([])) && t == Stringify(v) + rest
    ensures ParseValue(t) == Some((v, rest))
  {
    assert t[2..] == rest;
  }

  /** The parser recovers every value from its text, whatever text follows — except
      that a number must not be followed by another digit. */
  lemma {:induction false} RoundTrip(v: Data, rest: Text)
    requires v.Num? ==> NoDigitFollows(rest)
    ensures ParseValue(Stringify(v) + rest) == Some((v, rest))
    decreases v
  {
    var t := Stringify(v) + rest;
    match v {
      case Null => WordsRoundTrip(v, t, rest);
      case Bool(_) => WordsRoundTrip(v, t, rest);
      case Num(n) => NumberRoundTrip(n, t, rest);
      case Str(s) => TextIsRead(t, s, rest);
      case Arr(items) =>
        if items == [] {
          EmptyIsRead(v, t, rest);
        } else {
          ItemsRoundTrip(items, [CLOSE_ARRAY] + rest, rest);
          Enclosed(OPEN_ARRAY, ItemsText(items), CLOSE_ARRAY, rest);
          ArrayIsRead(t, items, rest);
        }
      case Obj(members) =>
        if members == [] {
          EmptyIsRead(v, t, rest);
        } else {
          MembersRoundTrip(members, [CLOSE_OBJECT] + rest, rest);
          Enclosed(OPEN_OBJECT, MembersText(members), CLOSE_OBJECT, rest);
          ObjectIsRead(t, members, rest);
        }
    }
  }

  /** Different values have different texts. */
  lemma StringifyInjective(v: Data, w: Data)
    requires Stringify(v) == Stringify(w)
    ensures v == w
  {
    RoundTrip(v, []);
    RoundTrip(w, []);
    assert Stringify(v) + [] == Stringify(v) && Stringify(w) + [] == Stringify(w);
  }
}
