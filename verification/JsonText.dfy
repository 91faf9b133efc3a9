/** The characters of JSON text, value by value, as section 25.5.2 of ECMA-262
    has JSON.stringify write them. */
module JsonText {
  import opened Decimal
  import opened Json
  import opened Serialisers

  /** A quoted text without its opening quote, a list without its opening bracket. */
  function Opened(t: Text): Text
    requires t != []
  {
    t[1..]
  }

  lemma WordsSpelled()
    ensures Stringify(Null) == Ascii("null") && Stringify(Bool(true)) == Ascii("true") && Stringify(Bool(false)) == Ascii("false")
    ensures Stringify(Str([])) == [0x22, 0x22] && Stringify(Arr([])) == [0x5B, 0x5D] && Stringify(Obj([])) == [0x7B, 0x7D]
  {
  }

  lemma {:induction false} AsciiConcat(s: string, t: string)
    requires forall i :: 0 <= i < |s + t| ==> (s + t)[i] < 128 as char
    requires forall i :: 0 <= i < |s| ==> s[i] < 128 as char
    requires forall i :: 0 <= i < |t| ==> t[i] < 128 as char
    ensures Ascii(s + t) == Ascii(s) + Ascii(t)
  {
  }

  /** The digits of a number, the last one last. */
  lemma NumberSpelled(n: int)
    ensures Stringify(Num(n)) ==
      if n < 0 then [0x2D] + Stringify(Num(-n))
      else if n < 10 then [0x30 + n]
      else Stringify(Num(n / 10)) + [0x30 + n % 10]
  {
    if n < 0 {
      AsciiConcat("-", Decimal.Text(-n));
    } else if n >= 10 {
      AsciiConcat(Decimal.Text(n / 10), [Digit(n % 10)]);
    }
  }

  /** A code unit in a string: the two-character escapes, lower-case hex for other
      control characters and lone surrogates, itself otherwise. */
  lemma UnitSpelled(u: Unit)
    ensures UnitText(u) ==
      if u == 0x22 || u == 0x5C then [0x5C, u]
      else if u == 0x08 then Ascii("\\b")
      else if u == 0x09 then Ascii("\\t")
      else if u == 0x0A then Ascii("\\n")
      else if u == 0x0C then Ascii("\\f")
      else if u == 0x0D then Ascii("\\r")
      else if u < 0x20 || 0xD800 <= u < 0xE000 then Ascii("\\u") + Hex(u)
      else [u]
  {
    if u < 0x20 || 0xD800 <= u < 0xE000 {
      EscapeSpelled(u);
    }
  }

  lemma EscapeSpelled(u: Unit)
    ensures UnicodeEscape(u) == Ascii("\\u") + Hex(u)
  {
    HexSplit(u);
    HexDigitSpelled(u / 0x1000);
    HexDigitSpelled(u / 0x100 % 0x10);
    HexDigitSpelled(u / 0x10 % 0x10);
    HexDigitSpelled(u % 0x10);
  }

  lemma HexDigitSpelled(n: nat)
    requires n < 16
    ensures HexDigit(n) == "0123456789abcdef"[n] as int
  {
  }

  /** Four digits, the highest first. */
  function Hex(u: Unit): (t: Text)
    ensures |t| == 4
  {
    var digits := "0123456789abcdef";
    [digits[u / 4096] as int, digits[u / 256 % 16] as int, digits[u / 16 % 16] as int, digits[u % 16] as int]
  }

  /** A string's units follow one another between its quotes; a surrogate pair
      stands as it is. */
  lemma StringSpelled(s: Text)
    requires s != []
    ensures var pair := |s| > 1 && 0xD800 <= s[0] <= 0xDBFF && 0xDC00 <= s[1] <= 0xDFFF;
      Stringify(Str(s)) ==
        if pair then [0x22, s[0], s[1]] + Opened(Stringify(Str(s[2..])))
        else [0x22] + UnitText(s[0]) + Opened(Stringify(Str(s[1..])))
  {
  }

  /** Items are divided by commas. */
  lemma ArraySpelled(items: seq<Data>)
    requires items != []
    ensures Stringify(Arr(items)) ==
      if |items| == 1 then [0x5B] + Stringify(items[0]) + [0x5D]
      else [0x5B] + Stringify(items[0]) + [0x2C] + Opened(Stringify(Arr(items[1..])))
  {
  }

  /** Members are divided by commas, a key and its value by a colon. */
  lemma ObjectSpelled(members: seq<Member>)
    requires members != []
    ensures var first := Stringify(Str(members[0].key)) + [0x3A] + Stringify(members[0].value);
      Stringify(Obj(members)) ==
        if |members| == 1 then [0x7B] + first + [0x7D]
        else [0x7B] + first + [0x2C] + Opened(Stringify(Obj(members[1..])))
  {
    assert MemberText(members[0]) == Stringify(Str(members[0].key)) + [0x3A] + Stringify(members[0].value);
  }

  /** The keys that own-property order puts first: the texts of the whole numbers
      below 2^32 - 1. */
  lemma IndexExactly(key: Text)
    ensures IsIndex(key) <==> exists n: nat :: n < 4294967295 && key == Stringify(Num(n))
  {
    if IsIndex(key) {
      assert key == Stringify(Num(Value(TakeDigits(key))));
    }
    if n: nat :| n < 4294967295 && key == Stringify(Num(n)) {
      TakeAllDigits(Decimal.Text(n));
      ValueOfText(n);
    }
  }

  lemma {:induction false} TakeAllDigits(s: string)
    requires AllDigits(s)
    ensures TakeDigits(Ascii(s)) == s
  {
    if s != "" {
      assert IsDigit(s[0]);
      TakeAllDigits(s[1..]);
      assert Ascii(s)[1..] == Ascii(s[1..]);
    }
  }
}
