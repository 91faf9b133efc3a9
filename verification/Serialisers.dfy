/** The canonical JSON of the four JavaScript programs: the standalone verifier,
    the browser widget, the wallet and the API client. */
module Serialisers {
  import opened Bags
  import opened Decimal
  import opened Json
  import opened Sorting
  import opened Wrappers

  // ------------------------------------------------------------- sorted values

  function MemberKey(m: Member): seq<int> {
    m.key
  }

  /** Keys are what JSON.parse can produce: never twice in one object. */
  ghost predicate Distinct(v: Data)
    decreases v
  {
    match v
    case Arr(items) => forall i :: 0 <= i < |items| ==> Distinct(items[i])
    case Obj(members) =>
      && (forall i, j :: 0 <= i < j < |members| ==> members[i].key != members[j].key)
      && (forall i :: 0 <= i < |members| ==> Distinct(members[i].value))
    case _ => true
  }

  /** The value with the members of every object in key order. */
  function SortAll(v: Data): (r: Data)
    ensures r.Arr? <==> v.Arr?
    ensures r.Obj? <==> v.Obj?
    ensures v.Arr? ==> |r.items| == |v.items|
    ensures v.Obj? ==> |r.members| == |v.members|
    decreases v
  {
    match v
    case Arr(items) => Arr(seq(|items|, i requires 0 <= i < |items| => SortAll(items[i])))
    case Obj(members) => Obj(Sort(MemberKey, SortedMembers(members)))
    case _ => v
  }

  function SortedMembers(members: seq<Member>): (r: seq<Member>)
    ensures |r| == |members|
    ensures forall i :: 0 <= i < |members| ==> r[i] == Member(members[i].key, SortAll(members[i].value))
    decreases members
  {
    if members == [] then []
    else [Member(members[0].key, SortAll(members[0].value))] + SortedMembers(members[1..])
  }

  /** The same value, whatever order its objects keep their members in. */
  ghost predicate Same(v: Data, w: Data)
    decreases v
  {
    match v
    case Arr(items) => w.Arr? && |items| == |w.items| && forall i :: 0 <= i < |items| ==> Same(items[i], w.items[i])
    case Obj(members) =>
      w.Obj? && |members| == |w.members|
      && forall i :: 0 <= i < |members| ==> HasTwin(members[i], w.members)
    case _ => v == w
  }

  ghost predicate HasTwin(m: Member, others: seq<Member>)
    decreases m
  {
    exists j :: 0 <= j < |others| && others[j].key == m.key && Same(m.value, others[j].value)
  }

  lemma SortedKeysDiffer(members: seq<Member>)
    requires Distinct(Obj(members))
    ensures NoRepeats(SortedMembers(members)) && Faithful(MemberKey, SortedMembers(members))
  {
  }

  lemma SameMembersSortAlike(a: seq<Member>, b: seq<Member>)
    requires Distinct(Obj(a)) && Distinct(Obj(b)) && |a| == |b|
    requires forall i :: 0 <= i < |a| ==> SortedMembers(a)[i] in SortedMembers(b)
    ensures Sort(MemberKey, SortedMembers(a)) == Sort(MemberKey, SortedMembers(b))
  {
    SortedKeysDiffer(a);
    SortedKeysDiffer(b);
    ContainedIsRearranged(SortedMembers(a), SortedMembers(b));
    SortIsCanonical(MemberKey, SortedMembers(a), SortedMembers(b));
  }

  lemma AlikeSortedMembers(a: seq<Member>, b: seq<Member>, i: nat) returns (j: nat)
    requires Distinct(Obj(a)) && Sort(MemberKey, SortedMembers(a)) == Sort(MemberKey, SortedMembers(b)) && i < |a|
    ensures |a| == |b| && j < |b| && SortedMembers(a)[i] == SortedMembers(b)[j]
  {
    SortedKeysDiffer(a);
    SortIsCanonical(MemberKey, SortedMembers(a), SortedMembers(b));
    assert |multiset(SortedMembers(a))| == |a| && |multiset(SortedMembers(b))| == |b|;
    assert SortedMembers(a)[i] in multiset(SortedMembers(b));
    j :| 0 <= j < |b| && SortedMembers(b)[j] == SortedMembers(a)[i];
  }

  /** Sorting every object forgets member order and nothing else. */
  lemma {:induction false} SortAllExactly(v: Data, w: Data)
    requires Distinct(v) && Distinct(w)
    ensures SortAll(v) == SortAll(w) <==> Same(v, w)
    decreases v
  {
    match v {
      case Arr(items) =>
        if w.Arr? && |items| == |w.items| {
          forall i | 0 <= i < |items|
            ensures SortAll(items[i]) == SortAll(w.items[i]) <==> Same(items[i], w.items[i])
          {
            SortAllExactly(items[i], w.items[i]);
          }
          ArraysSortAlike(items, w.items);
        }
      case Obj(members) =>
        if w.Obj? {
          forall i, j | 0 <= i < |members| && 0 <= j < |w.members|
            ensures SortAll(members[i].value) == SortAll(w.members[j].value) <==> Same(members[i].value, w.members[j].value)
          {
            SortAllExactly(members[i].value, w.members[j].value);
          }
          ObjectsSortAlike(members, w.members);
        }
      case _ =>
    }
  }

  lemma ArraysSortAlike(a: seq<Data>, b: seq<Data>)
    requires |a| == |b|
    requires forall i :: 0 <= i < |a| ==> (SortAll(a[i]) == SortAll(b[i]) <==> Same(a[i], b[i]))
    ensures SortAll(Arr(a)) == SortAll(Arr(b)) <==> Same(Arr(a), Arr(b))
  {
    var x, y := SortAll(Arr(a)).items, SortAll(Arr(b)).items;
    if x == y {
      forall i | 0 <= i < |a|
        ensures Same(a[i], b[i])
      {
        assert x[i] == y[i];
      }
    }
    if Same(Arr(a), Arr(b)) {
      assert x == y;
    }
  }

  lemma SortedAlikeIsSame(a: seq<Member>, b: seq<Member>)
    requires Distinct(Obj(a)) && SortAll(Obj(a)) == SortAll(Obj(b))
    requires forall i, j :: 0 <= i < |a| && 0 <= j < |b| && SortAll(a[i].value) == SortAll(b[j].value) ==> Same(a[i].value, b[j].value)
    ensures Same(Obj(a), Obj(b))
  {
    var s, r := SortAll(Obj(a)), SortAll(Obj(b));
    assert |s.members| == |a| && |r.members| == |b|;
    forall i | 0 <= i < |a|
      ensures HasTwin(a[i], b)
    {
      var j := AlikeSortedMembers(a, b, i);
      assert b[j].key == a[i].key && SortAll(a[i].value) == SortAll(b[j].value);
    }
  }

  lemma SameIsSortedAlike(a: seq<Member>, b: seq<Member>)
    requires Distinct(Obj(a)) && Distinct(Obj(b)) && Same(Obj(a), Obj(b))
    requires forall i, j :: 0 <= i < |a| && 0 <= j < |b| && Same(a[i].value, b[j].value) ==> SortAll(a[i].value) == SortAll(b[j].value)
    ensures SortAll(Obj(a)) == SortAll(Obj(b))
  {
    assert |a| == |b|;
    forall i | 0 <= i < |a|
      ensures SortedMembers(a)[i] in SortedMembers(b)
    {
      assert HasTwin(a[i], b);
      var j :| 0 <= j < |b| && b[j].key == a[i].key && Same(a[i].value, b[j].value);
      assert SortedMembers(a)[i] == SortedMembers(b)[j];
    }
    SameMembersSortAlike(a, b);
  }

  lemma ObjectsSortAlike(a: seq<Member>, b: seq<Member>)
    requires Distinct(Obj(a)) && Distinct(Obj(b))
    requires forall i, j :: 0 <= i < |a| && 0 <= j < |b| ==>
      (SortAll(a[i].value) == SortAll(b[j].value) <==> Same(a[i].value, b[j].value))
    ensures SortAll(Obj(a)) == SortAll(Obj(b)) <==> Same(Obj(a), Obj(b))
  {
    if SortAll(Obj(a)) == SortAll(Obj(b)) {
      SortedAlikeIsSame(a, b);
    }
    if Same(Obj(a), Obj(b)) {
      SameIsSortedAlike(a, b);
    }
  }

  /** Every object's keys are strictly ascending by UTF-16 code units. */
  ghost predicate KeysAscend(v: Data)
    decreases v
  {
    match v
    case Arr(items) => forall i :: 0 <= i < |items| ==> KeysAscend(items[i])
    case Obj(members) =>
      && (forall i, j :: 0 <= i < j < |members| ==> KeyBefore(members[i].key, members[j].key))
      && (forall i :: 0 <= i < |members| ==> KeysAscend(members[i].value))
    case _ => true
  }

  /** The first code unit that differs is smaller, or the first key ends before one
      does. */
  predicate KeyBefore(a: Text, b: Text) {
    FirstDifferenceAscends(a, b) || (|a| < |b| && a == b[..|a|])
  }

  lemma SortedMemberOf(members: seq<Member>, m: Member) returns (i: nat)
    requires m in Sort(MemberKey, SortedMembers(members))
    ensures i < |members| && m == Member(members[i].key, SortAll(members[i].value))
  {
    assert m in multiset(Sort(MemberKey, SortedMembers(members)));
    i :| 0 <= i < |members| && SortedMembers(members)[i] == m;
  }

  lemma SortedKeysAscend(members: seq<Member>)
    requires Distinct(Obj(members))
    ensures var s := Sort(MemberKey, SortedMembers(members));
      forall i, j :: 0 <= i < j < |s| ==> KeyBefore(s[i].key, s[j].key) && s[i].key != s[j].key
  {
    var s := Sort(MemberKey, SortedMembers(members));
    SortSorts(MemberKey, SortedMembers(members));
    SortedKeysDiffer(members);
    NoRepeatsStays(SortedMembers(members), s);
    forall i, j | 0 <= i < j < |s|
      ensures KeyBefore(s[i].key, s[j].key) && s[i].key != s[j].key
    {
      LessTotal(s[i].key, s[j].key);
      LessIsLexicographic(s[i].key, s[j].key);
      assert !Less(MemberKey(s[j]), MemberKey(s[i]));
      assert s[i] in multiset(s) && s[j] in multiset(s);
    }
  }

  /** Section 3.2.3 of RFC 8785: members are written in the order of their keys. */
  lemma {:induction false} SortedAscends(v: Data)
    requires Distinct(v)
    ensures KeysAscend(SortAll(v)) && Distinct(SortAll(v))
    decreases v
  {
    match v {
      case Arr(items) =>
        forall i | 0 <= i < |items|
          ensures KeysAscend(SortAll(v).items[i]) && Distinct(SortAll(v).items[i])
        {
          SortedAscends(items[i]);
        }
      case Obj(members) =>
        var s := SortAll(v).members;
        SortedKeysAscend(members);
        forall i | 0 <= i < |s|
          ensures KeysAscend(s[i].value) && Distinct(s[i].value)
        {
          var k := SortedMemberOf(members, s[i]);
          SortedAscends(members[k].value);
        }
      case _ =>
    }
  }

  // ------------------------------------------- verifier, widget and wallet texts

  const TO_JSON: Text := [0x74, 0x6F, 0x4A, 0x53, 0x4F, 0x4E]

  /** object.toJSON != null, for plain data. */
  predicate HasToJson(members: seq<Member>) {
    exists i :: 0 <= i < |members| && members[i].key == TO_JSON && members[i].value != Null
  }

  datatype Part = Part(key: Text, text: Text)

  function PartKey(p: Part): seq<int> {
    p.key
  }

  function JoinParts(parts: seq<Part>): Text {
    if parts == [] then []
    else if |parts| == 1 then parts[0].text
    else parts[0].text + [COMMA] + JoinParts(parts[1..])
  }

  /** The recursive canonicalisers: the wallet's, and — where `heedsToJson` — the
      verifier's and the widget's, which hand an object with a toJSON member to
      JSON.stringify. */
  function CanonicalText(v: Data, heedsToJson: bool): Text
    decreases v
  {
    match v
    case Arr(items) => [OPEN_ARRAY] + JoinParts(ItemParts(items, heedsToJson)) + [CLOSE_ARRAY]
    case Obj(members) =>
      if heedsToJson && HasToJson(members) then Stringify(v)
      else [OPEN_OBJECT] + JoinParts(Sort(PartKey, MemberParts(members, heedsToJson))) + [CLOSE_OBJECT]
    case _ => Stringify(v)
  }

  function ItemParts(items: seq<Data>, heedsToJson: bool): (r: seq<Part>)
    ensures |r| == |items|
    ensures forall i :: 0 <= i < |items| ==> r[i] == Part([], CanonicalText(items[i], heedsToJson))
    decreases items
  {
    if items == [] then [] else [Part([], CanonicalText(items[0], heedsToJson))] + ItemParts(items[1..], heedsToJson)
  }

  function MemberParts(members: seq<Member>, heedsToJson: bool): (r: seq<Part>)
    ensures |r| == |members|
    ensures forall i :: 0 <= i < |members| ==>
      r[i] == Part(members[i].key, Quoted(members[i].key) + [COLON] + CanonicalText(members[i].value, heedsToJson))
    decreases members
  {
    if members == [] then []
    else
      [Part(members[0].key, Quoted(members[0].key) + [COLON] + CanonicalText(members[0].value, heedsToJson))]
      + MemberParts(members[1..], heedsToJson)
  }

  /** The value those texts are the texts of. */
  function Ordered(v: Data, heedsToJson: bool): (r: Data)
    ensures r.Arr? <==> v.Arr?
    ensures r.Obj? <==> v.Obj?
    ensures v.Arr? ==> |r.items| == |v.items|
    ensures v.Obj? ==> |r.members| == |v.members|
    decreases v
  {
    match v
    case Arr(items) => Arr(seq(|items|, i requires 0 <= i < |items| => Ordered(items[i], heedsToJson)))
    case Obj(members) =>
      if heedsToJson && HasToJson(members) then v else Obj(Sort(MemberKey, OrderedMembers(members, heedsToJson)))
    case _ => v
  }

  function OrderedMembers(members: seq<Member>, heedsToJson: bool): (r: seq<Member>)
    ensures |r| == |members|
    ensures forall i :: 0 <= i < |members| ==> r[i] == Member(members[i].key, Ordered(members[i].value, heedsToJson))
    decreases members
  {
    if members == [] then []
    else [Member(members[0].key, Ordered(members[0].value, heedsToJson))] + OrderedMembers(members[1..], heedsToJson)
  }

  function MemberPart(m: Member): Part {
    Part(m.key, MemberText(m))
  }

  lemma {:induction false} JoinedMembers(members: seq<Member>, parts: seq<Part>)
    requires |parts| == |members| && forall i :: 0 <= i < |members| ==> parts[i] == MemberPart(members[i])
    ensures JoinParts(parts) == MembersText(members)
  {
    if |members| > 1 {
      JoinedMembers(members[1..], parts[1..]);
    }
  }

  lemma {:induction false} JoinedItems(items: seq<Data>, parts: seq<Part>)
    requires |parts| == |items| && forall i :: 0 <= i < |items| ==> parts[i].text == Stringify(items[i])
    ensures JoinParts(parts) == ItemsText(items)
  {
    if |items| > 1 {
      JoinedItems(items[1..], parts[1..]);
    }
  }

  lemma SortedPartsOf(members: seq<Member>, heedsToJson: bool)
    requires forall i :: 0 <= i < |members| ==>
      CanonicalText(members[i].value, heedsToJson) == Stringify(Ordered(members[i].value, heedsToJson))
    ensures JoinParts(Sort(PartKey, MemberParts(members, heedsToJson))) == MembersText(Sort(MemberKey, OrderedMembers(members, heedsToJson)))
  {
    var ms, ps := OrderedMembers(members, heedsToJson), MemberParts(members, heedsToJson);
    assert ps == Map(MemberPart, ms);
    SortRenamed(MemberKey, PartKey, MemberPart, ms);
    JoinedMembers(Sort(MemberKey, ms), Sort(PartKey, ps));
  }

  lemma ArrayTextOf(items: seq<Data>, heedsToJson: bool)
    requires forall i :: 0 <= i < |items| ==> CanonicalText(items[i], heedsToJson) == Stringify(Ordered(items[i], heedsToJson))
    ensures CanonicalText(Arr(items), heedsToJson) == Stringify(Ordered(Arr(items), heedsToJson))
  {
    JoinedItems(Ordered(Arr(items), heedsToJson).items, ItemParts(items, heedsToJson));
  }

  lemma ObjectTextOf(members: seq<Member>, heedsToJson: bool)
    requires !(heedsToJson && HasToJson(members))
    requires forall i :: 0 <= i < |members| ==>
      CanonicalText(members[i].value, heedsToJson) == Stringify(Ordered(members[i].value, heedsToJson))
    ensures CanonicalText(Obj(members), heedsToJson) == Stringify(Ordered(Obj(members), heedsToJson))
  {
    SortedPartsOf(members, heedsToJson);
  }

  /** The hand-written recursion writes the text of the reordered value. */
  lemma {:induction false} CanonicalTextIsStringify(v: Data, heedsToJson: bool)
    ensures CanonicalText(v, heedsToJson) == Stringify(Ordered(v, heedsToJson))
    decreases v
  {
    match v {
      case Arr(items) =>
        forall i | 0 <= i < |items|
          ensures CanonicalText(items[i], heedsToJson) == Stringify(Ordered(items[i], heedsToJson))
        {
          CanonicalTextIsStringify(items[i], heedsToJson);
        }
        ArrayTextOf(items, heedsToJson);
      case Obj(members) =>
        if !(heedsToJson && HasToJson(members)) {
          forall i | 0 <= i < |members|
            ensures CanonicalText(members[i].value, heedsToJson) == Stringify(Ordered(members[i].value, heedsToJson))
          {
            CanonicalTextIsStringify(members[i].value, heedsToJson);
          }
          ObjectTextOf(members, heedsToJson);
        }
      case _ =>
    }
  }

  lemma {:induction false} WalletOrder(v: Data)
    ensures Ordered(v, false) == SortAll(v)
    decreases v
  {
    match v {
      case Arr(items) =>
        forall i | 0 <= i < |items|
          ensures Ordered(v, false).items[i] == SortAll(v).items[i]
        {
          WalletOrder(items[i]);
        }
        assert Ordered(v, false).items == SortAll(v).items;
      case Obj(members) =>
        forall i | 0 <= i < |members|
          ensures OrderedMembers(members, false)[i] == SortedMembers(members)[i]
        {
          WalletOrder(members[i].value);
        }
        assert OrderedMembers(members, false) == SortedMembers(members);
      case _ =>
    }
  }

  /** The canonical text is read back as the sorted value, whatever follows it. */
  lemma CanonicalRoundTrip(v: Data, rest: Text)
    requires v.Num? ==> NoDigitFollows(rest)
    ensures ParseValue(CanonicalText(v, false) + rest) == Some((SortAll(v), rest))
  {
    CanonicalTextIsStringify(v, false);
    WalletOrder(v);
    RoundTrip(SortAll(v), rest);
  }

  /** Two values have the same canonical text exactly when they are the same value
      up to the order of members. */
  lemma CanonicalTextExactly(v: Data, w: Data)
    requires Distinct(v) && Distinct(w)
    ensures CanonicalText(v, false) == CanonicalText(w, false) <==> Same(v, w)
  {
    CanonicalTextIsStringify(v, false);
    CanonicalTextIsStringify(w, false);
    WalletOrder(v);
    WalletOrder(w);
    SortAllExactly(v, w);
    if CanonicalText(v, false) == CanonicalText(w, false) {
      StringifyInjective(SortAll(v), SortAll(w));
    }
  }

  /** Where heeding toJSON makes no difference: what is handed to JSON.stringify is
      in key order already. */
  ghost predicate ToJsonInOrder(v: Data)
    decreases v
  {
    match v
    case Arr(items) => forall i :: 0 <= i < |items| ==> ToJsonInOrder(items[i])
    case Obj(members) =>
      if HasToJson(members) then SortAll(v) == v
      else forall i :: 0 <= i < |members| ==> ToJsonInOrder(members[i].value)
    case _ => true
  }

  /** Lists with the same distinct keys sort alike only when they are alike. */
  lemma SortedAlikePointwise(a: seq<Member>, b: seq<Member>)
    requires |a| == |b| && forall i :: 0 <= i < |a| ==> a[i].key == b[i].key
    requires forall i, j :: 0 <= i < j < |a| ==> a[i].key != a[j].key
    ensures Sort(MemberKey, a) == Sort(MemberKey, b) <==> a == b
  {
    if Sort(MemberKey, a) == Sort(MemberKey, b) {
      assert multiset(a) == multiset(b);
      forall i | 0 <= i < |a|
        ensures a[i] == b[i]
      {
        assert a[i] in multiset(b);
        var j :| 0 <= j < |b| && b[j] == a[i];
        assert a[j].key == a[i].key;
      }
    }
  }

  lemma ToJsonMembers(members: seq<Member>)
    requires Distinct(Obj(members)) && !HasToJson(members)
    requires forall i :: 0 <= i < |members| ==>
      (Ordered(members[i].value, true) == SortAll(members[i].value) <==> ToJsonInOrder(members[i].value))
    ensures Ordered(Obj(members), true) == SortAll(Obj(members)) <==> ToJsonInOrder(Obj(members))
  {
    var a, b := OrderedMembers(members, true), SortedMembers(members);
    SortedAlikePointwise(a, b);
    if a == b {
      forall i | 0 <= i < |members|
        ensures ToJsonInOrder(members[i].value)
      {
        assert a[i] == b[i];
      }
    }
    if ToJsonInOrder(Obj(members)) {
      assert a == b;
    }
  }

  lemma {:induction false} HeedingExactly(v: Data)
    requires Distinct(v)
    ensures Ordered(v, true) == SortAll(v) <==> ToJsonInOrder(v)
    decreases v
  {
    match v {
      case Arr(items) =>
        var a, b := Ordered(v, true).items, SortAll(v).items;
        forall i | 0 <= i < |items|
          ensures a[i] == b[i] <==> ToJsonInOrder(items[i])
        {
          HeedingExactly(items[i]);
        }
        if ToJsonInOrder(v) {
          assert a == b;
        }
      case Obj(members) =>
        if !HasToJson(members) {
          forall i | 0 <= i < |members|
            ensures Ordered(members[i].value, true) == SortAll(members[i].value) <==> ToJsonInOrder(members[i].value)
          {
            HeedingExactly(members[i].value);
          }
          ToJsonMembers(members);
        }
      case _ =>
    }
  }

  // ------------------------------------------------------------- the client's text

  /** An array-index key: the decimal text of a number below 2^32 - 1. */
  predicate IsIndex(key: Text) {
    var digits := TakeDigits(key);
    digits != "" && Value(digits) < 0xFFFF_FFFF && key == NumberText(Value(digits))
  }

  function IndexOf(key: Text): nat {
    Value(TakeDigits(key))
  }

  function Indexed(members: seq<Member>, wanted: bool): (r: seq<Member>)
    ensures forall m :: m in r <==> m in members && IsIndex(m.key) == wanted
  {
    if members == [] then []
    else
      var rest := Indexed(members[..|members| - 1], wanted);
      var last := members[|members| - 1];
      assert members == members[..|members| - 1] + [last];
      if IsIndex(last.key) == wanted then rest + [last] else rest
  }

  function IndexKey(m: Member): seq<int> {
    [IndexOf(m.key)]
  }

  /** Own-property order: array-index keys first and ascending, the others as they
      were added. */
  function OwnOrder(members: seq<Member>): seq<Member> {
    Sort(IndexKey, Indexed(members, true)) + Indexed(members, false)
  }

  /** What the client's replacer turns a value into: every object rebuilt from its
      sorted entries. */
  function Rebuilt(v: Data): (r: Data)
    ensures r.Arr? <==> v.Arr?
    ensures r.Obj? <==> v.Obj?
    ensures v.Arr? ==> |r.items| == |v.items|
    decreases v
  {
    match v
    case Arr(items) => Arr(seq(|items|, i requires 0 <= i < |items| => Rebuilt(items[i])))
    case Obj(members) => Obj(OwnOrder(Sort(MemberKey, RebuiltMembers(members))))
    case _ => v
  }

  function RebuiltMembers(members: seq<Member>): (r: seq<Member>)
    ensures |r| == |members|
    ensures forall i :: 0 <= i < |members| ==> r[i] == Member(members[i].key, Rebuilt(members[i].value))
    decreases members
  {
    if members == [] then []
    else [Member(members[0].key, Rebuilt(members[0].value))] + RebuiltMembers(members[1..])
  }

  /** The client's canonical: JSON.stringify with a sorting replacer. */
  function ClientText(v: Data): Text {
    Stringify(Rebuilt(v))
  }

  /** In this order of keys the array indices come first and ascend. */
  ghost predicate Leads(members: seq<Member>) {
    forall i, j :: 0 <= i < j < |members| && IsIndex(members[j].key) ==>
      IsIndex(members[i].key) && IndexOf(members[i].key) < IndexOf(members[j].key)
  }

  ghost predicate DistinctKeys(members: seq<Member>) {
    forall i, j :: 0 <= i < j < |members| ==> members[i].key != members[j].key
  }

  lemma {:induction false} IndexedSplit(members: seq<Member>)
    ensures multiset(Indexed(members, true)) + multiset(Indexed(members, false)) == multiset(members)
  {
    if members != [] {
      var front, last := members[..|members| - 1], members[|members| - 1];
      assert members == front + [last];
      IndexedSplit(front);
    }
  }

  lemma OwnOrderRearranges(members: seq<Member>)
    ensures multiset(OwnOrder(members)) == multiset(members) && |OwnOrder(members)| == |members|
  {
    IndexedSplit(members);
    assert |multiset(OwnOrder(members))| == |multiset(members)|;
  }

  lemma KeysStayDistinct(a: seq<Member>, b: seq<Member>)
    requires DistinctKeys(a) && multiset(a) == multiset(b)
    ensures DistinctKeys(b)
  {
    NoRepeatsStays(a, b);
    forall i, j | 0 <= i < j < |b|
      ensures b[i].key != b[j].key
    {
      assert b[i] in multiset(a) && b[j] in multiset(a);
      var k :| 0 <= k < |a| && a[k] == b[i];
      var l :| 0 <= l < |a| && a[l] == b[j];
    }
  }

  lemma OwnOrderLeads(members: seq<Member>)
    requires DistinctKeys(members)
    ensures Leads(OwnOrder(members))
  {
    var first, others := Sort(IndexKey, Indexed(members, true)), Indexed(members, false);
    var all := OwnOrder(members);
    SortSorts(IndexKey, Indexed(members, true));
    OwnOrderRearranges(members);
    KeysStayDistinct(members, all);
    forall i, j | 0 <= i < j < |all| && IsIndex(all[j].key)
      ensures IsIndex(all[i].key) && IndexOf(all[i].key) < IndexOf(all[j].key)
    {
      LeadsAt(first, others, i, j);
    }
  }

  lemma LeadsAt(first: seq<Member>, others: seq<Member>, i: nat, j: nat)
    requires i < j < |first + others| && IsIndex((first + others)[j].key)
    requires Sorted(IndexKey, first) && DistinctKeys(first + others)
    requires forall m :: m in others ==> !IsIndex(m.key)
    requires forall m :: m in multiset(first) ==> IsIndex(m.key)
    ensures IsIndex((first + others)[i].key) && IndexOf((first + others)[i].key) < IndexOf((first + others)[j].key)
  {
    var all := first + others;
    forall k | |first| <= k < |all|
      ensures !IsIndex(all[k].key)
    {
      assert all[k] == others[k - |first|];
      assert others[k - |first|] in others;
    }
    assert all[i] == first[i] && all[j] == first[j];
    assert first[i] in multiset(first) && first[j] in multiset(first);
    assert !Less(IndexKey(first[j]), IndexKey(first[i]));
    assert IndexKey(first[i])[0] <= IndexKey(first[j])[0];
    assert all[i].key != all[j].key;
  }

  lemma {:induction false} LeadingStays(members: seq<Member>)
    requires Leads(members)
    ensures Indexed(members, true) + Indexed(members, false) == members
    ensures Sorted(IndexKey, Indexed(members, true))
  {
    if members != [] {
      var front, last := members[..|members| - 1], members[|members| - 1];
      assert front + [last] == members;
      if IsIndex(last.key) {
        forall i | 0 <= i < |members|
          ensures IsIndex(members[i].key)
        {
          assert i < |front| ==> IsIndex(members[i].key);
        }
        AllIndexed(members);
        LeadingIsSorted(members);
      } else {
        LeadingStays(front);
        assert Indexed(front, true) + Indexed(members, false) == Indexed(front, true) + Indexed(front, false) + [last];
      }
    }
  }

  lemma LeadingIsSorted(members: seq<Member>)
    requires Leads(members) && forall i :: 0 <= i < |members| ==> IsIndex(members[i].key)
    ensures Sorted(IndexKey, members)
  {
  }

  lemma {:induction false} AllIndexed(members: seq<Member>)
    requires forall i :: 0 <= i < |members| ==> IsIndex(members[i].key)
    ensures Indexed(members, false) == [] && Indexed(members, true) == members
  {
    if members != [] {
      var front, last := members[..|members| - 1], members[|members| - 1];
      AllIndexed(front);
      assert front + [last] == members;
      assert IsIndex(members[|members| - 1].key);
      assert Indexed(members, true) == Indexed(front, true) + [last];
      assert Indexed(members, false) == Indexed(front, false);
    }
  }

  /** Rebuilding an object keeps a list of members exactly when its array-index
      keys lead and ascend. */
  lemma OwnOrderExactly(members: seq<Member>)
    requires DistinctKeys(members)
    ensures OwnOrder(members) == members <==> Leads(members)
  {
    OwnOrderLeads(members);
    if Leads(members) {
      LeadingStays(members);
      SortOfSorted(IndexKey, Indexed(members, true));
    }
  }

  /** Leading is a property of the keys alone. */
  lemma LeadsByKeys(a: seq<Member>, b: seq<Member>)
    requires |a| == |b| && forall i :: 0 <= i < |a| ==> a[i].key == b[i].key
    ensures Leads(a) <==> Leads(b)
  {
  }

  function Stripped(m: Member): Member {
    Member(m.key, Null)
  }

  lemma SortedKeysAgree(a: seq<Member>, b: seq<Member>)
    requires |a| == |b| && forall i :: 0 <= i < |a| ==> a[i].key == b[i].key
    ensures forall i :: 0 <= i < |a| ==> Sort(MemberKey, a)[i].key == Sort(MemberKey, b)[i].key
  {
    var c := Map(Stripped, a);
    assert c == Map(Stripped, b);
    SortRenamed(MemberKey, MemberKey, Stripped, a);
    SortRenamed(MemberKey, MemberKey, Stripped, b);
    forall i | 0 <= i < |a|
      ensures Sort(MemberKey, a)[i].key == Sort(MemberKey, b)[i].key
    {
      assert Map(Stripped, Sort(MemberKey, a))[i] == Map(Stripped, Sort(MemberKey, b))[i];
    }
  }

  /** Every object's sorted keys have their array indices first and ascending. */
  ghost predicate IndexKeysLead(v: Data)
    decreases v
  {
    match v
    case Arr(items) => forall i :: 0 <= i < |items| ==> IndexKeysLead(items[i])
    case Obj(members) =>
      && Leads(Sort(MemberKey, SortedMembers(members)))
      && forall i :: 0 <= i < |members| ==> IndexKeysLead(members[i].value)
    case _ => true
  }

  /** What rebuilding and sorting make of one object's rebuilt and sorted members. */
  lemma RebuiltListExactly(a: seq<Member>, b: seq<Member>)
    requires |a| == |b| && DistinctKeys(a) && forall i :: 0 <= i < |a| ==> a[i].key == b[i].key
    ensures OwnOrder(Sort(MemberKey, a)) == Sort(MemberKey, b) <==> Leads(Sort(MemberKey, b)) && a == b
  {
    var x, y := Sort(MemberKey, a), Sort(MemberKey, b);
    SortedKeysAgree(a, b);
    LeadsByKeys(x, y);
    KeysStayDistinct(a, x);
    OwnOrderExactly(x);
    OwnOrderRearranges(x);
    SortedAlikePointwise(a, b);
    if OwnOrder(x) == y {
      OwnOrderLeads(x);
    }
  }

  lemma RebuiltMembersExactly(members: seq<Member>)
    requires Distinct(Obj(members))
    requires forall i :: 0 <= i < |members| ==>
      (Rebuilt(members[i].value) == SortAll(members[i].value) <==> IndexKeysLead(members[i].value))
    ensures Rebuilt(Obj(members)) == SortAll(Obj(members)) <==> IndexKeysLead(Obj(members))
  {
    var a, b := RebuiltMembers(members), SortedMembers(members);
    RebuiltListExactly(a, b);
    if a == b {
      forall i | 0 <= i < |members|
        ensures IndexKeysLead(members[i].value)
      {
        assert a[i] == b[i];
      }
    }
    if IndexKeysLead(Obj(members)) {
      assert a == b;
    }
  }

  lemma {:induction false} RebuiltExactly(v: Data)
    requires Distinct(v)
    ensures Rebuilt(v) == SortAll(v) <==> IndexKeysLead(v)
    decreases v
  {
    match v {
      case Arr(items) =>
        var a, b := Rebuilt(v).items, SortAll(v).items;
        forall i | 0 <= i < |items|
          ensures a[i] == b[i] <==> IndexKeysLead(items[i])
        {
          RebuiltExactly(items[i]);
        }
        if IndexKeysLead(v) {
          assert a == b;
        }
      case Obj(members) =>
        forall i | 0 <= i < |members|
          ensures Rebuilt(members[i].value) == SortAll(members[i].value) <==> IndexKeysLead(members[i].value)
        {
          RebuiltExactly(members[i].value);
        }
        RebuiltMembersExactly(members);
      case _ =>
    }
  }

  // ------------------------------------------------------------------- agreement

  /** Verifier and widget agree with the wallet exactly when toJSON members hide no
      disorder; the client agrees with the wallet exactly when array-index keys lead
      in every object's key order. */
  lemma SerialisersAgreeExactly(v: Data)
    requires Distinct(v)
    ensures CanonicalText(v, true) == CanonicalText(v, false) <==> ToJsonInOrder(v)
    ensures ClientText(v) == CanonicalText(v, false) <==> IndexKeysLead(v)
  {
    CanonicalTextIsStringify(v, true);
    CanonicalTextIsStringify(v, false);
    WalletOrder(v);
    HeedingExactly(v);
    RebuiltExactly(v);
    if CanonicalText(v, true) == CanonicalText(v, false) {
      StringifyInjective(Ordered(v, true), SortAll(v));
    }
    if ClientText(v) == CanonicalText(v, false) {
      StringifyInjective(Rebuilt(v), SortAll(v));
    }
  }

  /** No object has an array-index key or a toJSON member. */
  ghost predicate OrdinaryKeys(v: Data)
    decreases v
  {
    match v
    case Arr(items) => forall i :: 0 <= i < |items| ==> OrdinaryKeys(items[i])
    case Obj(members) =>
      forall i :: 0 <= i < |members| ==>
        !IsIndex(members[i].key) && members[i].key != TO_JSON && OrdinaryKeys(members[i].value)
    case _ => true
  }

  lemma {:induction false} OrdinaryIsFine(v: Data)
    requires OrdinaryKeys(v)
    ensures ToJsonInOrder(v) && IndexKeysLead(v)
    decreases v
  {
    match v {
      case Arr(items) =>
        forall i | 0 <= i < |items|
          ensures ToJsonInOrder(items[i]) && IndexKeysLead(items[i])
        {
          OrdinaryIsFine(items[i]);
        }
      case Obj(members) =>
        forall i | 0 <= i < |members|
          ensures ToJsonInOrder(members[i].value) && IndexKeysLead(members[i].value)
        {
          OrdinaryIsFine(members[i].value);
        }
        var s := Sort(MemberKey, SortedMembers(members));
        forall j | 0 <= j < |s|
          ensures !IsIndex(s[j].key)
        {
          var k := SortedMemberOf(members, s[j]);
        }
      case _ =>
    }
  }

  /** Without such keys all four programs write the same text. */
  lemma SerialisersAgree(v: Data)
    requires Distinct(v) && OrdinaryKeys(v)
    ensures CanonicalText(v, true) == CanonicalText(v, false) == ClientText(v)
  {
    OrdinaryIsFine(v);
    SerialisersAgreeExactly(v);
  }

  /** An object with a toJSON member: the verifier and the widget keep its own
      order, the wallet sorts it. */
  lemma ToJsonDisagrees()
    ensures var v := Obj([Member(Ascii("toJSON"), Num(1)), Member(Ascii("a"), Num(2))]);
      Distinct(v) && CanonicalText(v, true) != CanonicalText(v, false)
  {
    assert Ascii("toJSON") == TO_JSON && Ascii("a") == [0x61];
    DescendingToJson(Member(TO_JSON, Num(1)), Member([0x61], Num(2)));
  }

  lemma DescendingToJson(a: Member, b: Member)
    requires a.key == TO_JSON && a.value.Num? && b.value.Num? && b.key == [0x61]
    ensures Distinct(Obj([a, b])) && CanonicalText(Obj([a, b]), true) != CanonicalText(Obj([a, b]), false)
  {
    var ms := [a, b];
    assert ms[0].key == TO_JSON && ms[0].value != Null;
    assert HasToJson(ms);
    assert !KeysAscend(Obj(ms)) by {
      assert !KeyBefore(ms[0].key, ms[1].key);
    }
    SortedAscends(Obj(ms));
    SerialisersAgreeExactly(Obj(ms));
  }

  /** The sorted text puts a plain key before a greater array-index key; the object
      the client rebuilds puts the index first, as every engine does. */
  lemma IndexKeyDisagrees(index: Member, plain: Member)
    requires IsIndex(index.key) && !IsIndex(plain.key) && KeyBefore(plain.key, index.key)
    requires Distinct(index.value) && Distinct(plain.value)
    ensures var v := Obj([index, plain]); Distinct(v) && ClientText(v) != CanonicalText(v, false)
  {
    var ms := [index, plain];
    LessIsLexicographic(plain.key, index.key);
    PairIsDistinct(index, plain);
    var a, b := Member(index.key, SortAll(index.value)), Member(plain.key, SortAll(plain.value));
    assert SortedMembers(ms) == [a, b];
    PairSorts(a, b);
    assert !Leads([b, a]) by {
      assert !IsIndex([b, a][0].key) && IsIndex([b, a][1].key);
    }
    IndexKeysOfPair(ms, [b, a]);
    SerialisersAgreeExactly(Obj(ms));
  }

  lemma PairIsDistinct(a: Member, b: Member)
    requires Less(b.key, a.key) && Distinct(a.value) && Distinct(b.value)
    ensures Distinct(Obj([a, b]))
  {
    LessIrreflexive(a.key);
  }

  lemma IndexKeysOfPair(members: seq<Member>, sorted: seq<Member>)
    requires Sort(MemberKey, SortedMembers(members)) == sorted && !Leads(sorted)
    ensures !IndexKeysLead(Obj(members))
  {
  }

  lemma PairSorts(a: Member, b: Member)
    requires Less(b.key, a.key)
    ensures Sort(MemberKey, [a, b]) == [b, a]
  {
    var ms, sorted := [a, b], [b, a];
    LessIrreflexive(a.key);
    LessAsymmetric(b.key, a.key);
    assert multiset(ms) == multiset(sorted);
    SortOfSorted(MemberKey, sorted);
    SortIsCanonical(MemberKey, sorted, ms);
  }

  /** Such objects exist: {"1": 1, "!": 2}. */
  lemma OneAndBangDisagree()
    ensures var v := Obj([Member([0x31], Num(1)), Member([0x21], Num(2))]); ClientText(v) != CanonicalText(v, false)
  {
    var index, plain: Text := [0x31], [0x21];
    assert IsIndex(index) && !IsIndex(plain);
    assert KeyBefore(plain, index) by {
      assert plain[0] < index[0] && plain[..0] == index[..0];
    }
    IndexKeyDisagrees(Member(index, Num(1)), Member(plain, Num(2)));
  }

  /** Reordering members does not change what sorting makes of a value. */
  lemma {:induction false} OrderedSortsAlike(v: Data, heedsToJson: bool)
    requires Distinct(v)
    ensures SortAll(Ordered(v, heedsToJson)) == SortAll(v)
    decreases v
  {
    match v {
      case Arr(items) =>
        var a, b := SortAll(Ordered(v, heedsToJson)).items, SortAll(v).items;
        forall i | 0 <= i < |items|
          ensures a[i] == b[i]
        {
          OrderedSortsAlike(items[i], heedsToJson);
        }
        assert a == b;
      case Obj(members) =>
        if !(heedsToJson && HasToJson(members)) {
          forall i | 0 <= i < |members|
            ensures SortAll(Ordered(members[i].value, heedsToJson)) == SortAll(members[i].value)
          {
            OrderedSortsAlike(members[i].value, heedsToJson);
          }
          OrderedMembersSortAlike(members, heedsToJson);
        }
      case _ =>
    }
  }

  function SortedMember(m: Member): Member {
    Member(m.key, SortAll(m.value))
  }

  lemma SortedAfterSorting(o: seq<Member>, s: seq<Member>)
    requires |o| == |s| && forall i :: 0 <= i < |o| ==> s[i] == SortedMember(o[i])
    ensures SortedMembers(Sort(MemberKey, o)) == Sort(MemberKey, s)
  {
    assert s == Map(SortedMember, o);
    SortRenamed(MemberKey, MemberKey, SortedMember, o);
    assert SortedMembers(Sort(MemberKey, o)) == Map(SortedMember, Sort(MemberKey, o));
  }

  lemma SortingTwice(s: seq<Member>)
    requires Faithful(MemberKey, s)
    ensures Sort(MemberKey, Sort(MemberKey, s)) == Sort(MemberKey, s)
  {
    SortSorts(MemberKey, s);
    forall m | m in Sort(MemberKey, s)
      ensures m in s
    {
      assert m in multiset(Sort(MemberKey, s));
    }
    SortOfSorted(MemberKey, Sort(MemberKey, s));
  }

  lemma OrderedMembersSortAlike(members: seq<Member>, heedsToJson: bool)
    requires Distinct(Obj(members))
    requires forall i :: 0 <= i < |members| ==> SortAll(Ordered(members[i].value, heedsToJson)) == SortAll(members[i].value)
    ensures SortAll(Obj(Sort(MemberKey, OrderedMembers(members, heedsToJson)))) == SortAll(Obj(members))
  {
    SortedAfterSorting(OrderedMembers(members, heedsToJson), SortedMembers(members));
    SortedKeysDiffer(members);
    SortingTwice(SortedMembers(members));
  }
}
