/** Array#join and what it takes for joined text to determine its parts. */
module Texts {

  function Join(sep: char, parts: seq<string>): string {
    if parts == [] then ""
    else if |parts| == 1 then parts[0]
    else parts[0] + [sep] + Join(sep, parts[1..])
  }

  /** Parts that the separator can hold apart. */
  predicate Separable(sep: char, parts: seq<string>) {
    forall i :: 0 <= i < |parts| ==> parts[i] != "" && sep !in parts[i]
  }

  lemma {:induction false} JoinCharacters(sep: char, parts: seq<string>, c: char)
    requires c in Join(sep, parts)
    ensures c == sep || exists i :: 0 <= i < |parts| && c in parts[i]
  {
    if |parts| > 1 && c !in parts[0] && c != sep {
      JoinCharacters(sep, parts[1..], c);
      var i :| 0 <= i < |parts[1..]| && c in parts[1..][i];
      assert c in parts[i + 1];
    }
  }

  /** A text without the separator is cut off at the same place whatever follows. */
  lemma {:induction false} FirstPartAgrees(sep: char, p: string, q: string, x: string, y: string)
    requires sep !in p && sep !in q
    requires x == "" || x[0] == sep
    requires y == "" || y[0] == sep
    requires p + x == q + y
    ensures p == q && x == y
  {
    if p == "" || q == "" {
      assert "" + x == x && "" + y == y;
    } else {
      assert (p + x)[0] == p[0] && (q + y)[0] == q[0];
      assert (p + x)[1..] == p[1..] + x && (q + y)[1..] == q[1..] + y;
      FirstPartAgrees(sep, p[1..], q[1..], x, y);
    }
  }

  function Tail(sep: char, parts: seq<string>): string
    requires parts != []
  {
    if |parts| == 1 then "" else [sep] + Join(sep, parts[1..])
  }

  lemma JoinHead(sep: char, parts: seq<string>)
    requires parts != []
    ensures Join(sep, parts) == parts[0] + Tail(sep, parts)
  {
  }

  lemma TailsAgree(sep: char, a: seq<string>, b: seq<string>)
    requires a != [] && b != [] && Tail(sep, a) == Tail(sep, b)
    ensures |a| == 1 <==> |b| == 1
    ensures |a| > 1 ==> Join(sep, a[1..]) == Join(sep, b[1..])
  {
    if |a| > 1 && |b| > 1 {
      assert Tail(sep, a)[1..] == Join(sep, a[1..]) && Tail(sep, b)[1..] == Join(sep, b[1..]);
    }
  }

  lemma {:induction false} JoinInjective(sep: char, a: seq<string>, b: seq<string>)
    requires Separable(sep, a) && Separable(sep, b) && Join(sep, a) == Join(sep, b)
    ensures a == b
  {
    if a == [] || b == [] {
    } else {
      JoinHead(sep, a);
      JoinHead(sep, b);
      FirstPartAgrees(sep, a[0], b[0], Tail(sep, a), Tail(sep, b));
      TailsAgree(sep, a, b);
      if |a| > 1 {
        JoinInjective(sep, a[1..], b[1..]);
      }
      assert [a[0]] + a[1..] == a && [b[0]] + b[1..] == b;
    }
  }
}
