/** Lexicographic order on sequences of numbers — array comparison in Ruby, string
    comparison by code units in JavaScript — and sorting by such keys. Whatever
    algorithm sorts, the result is the same whenever different elements have
    different keys. */
module Sorting {

  predicate Less(a: seq<int>, b: seq<int>) {
    b != [] && (a == [] || a[0] < b[0] || (a[0] == b[0] && Less(a[1..], b[1..])))
  }

  lemma {:induction false} LessIrreflexive(a: seq<int>)
    ensures !Less(a, a)
  {
    if a != [] {
      LessIrreflexive(a[1..]);
    }
  }

  lemma {:induction false} LessTotal(a: seq<int>, b: seq<int>)
    ensures Less(a, b) || a == b || Less(b, a)
  {
    if a != [] && b != [] && a[0] == b[0] {
      LessTotal(a[1..], b[1..]);
      assert a == [a[0]] + a[1..] && b == [b[0]] + b[1..];
    }
  }

  lemma {:induction false} LessTransitive(a: seq<int>, b: seq<int>, c: seq<int>)
    requires Less(a, b) && Less(b, c)
    ensures Less(a, c)
  {
    if a != [] && a[0] == b[0] == c[0] {
      LessTransitive(a[1..], b[1..], c[1..]);
    }
  }

  lemma {:induction false} LessAsymmetric(a: seq<int>, b: seq<int>)
    requires Less(a, b)
    ensures !Less(b, a)
  {
    if Less(b, a) {
      LessTransitive(a, b, a);
      LessIrreflexive(a);
    }
  }

  /** "At most" is transitive too. */
  lemma NotLessTransitive(a: seq<int>, b: seq<int>, c: seq<int>)
    requires !Less(b, a) && !Less(c, b)
    ensures !Less(c, a)
  {
    LessTotal(a, b);
    LessTotal(b, c);
    if Less(c, a) {
      if a == b || b == c {
      } else {
        LessTransitive(c, a, b);
      }
    }
  }

  /** The first place where the two differ decides. */
  predicate FirstDifferenceAscends(a: seq<int>, b: seq<int>) {
    exists k :: 0 <= k < |a| && k < |b| && a[k] < b[k] && a[..k] == b[..k]
  }

  lemma {:induction false} LessIsLexicographic(a: seq<int>, b: seq<int>)
    ensures Less(a, b) <==> FirstDifferenceAscends(a, b) || (|a| < |b| && a == b[..|a|])
  {
    if a != [] && b != [] && a[0] == b[0] {
      LessIsLexicographic(a[1..], b[1..]);
      assert a == [a[0]] + a[1..] && b == [b[0]] + b[1..];
      if FirstDifferenceAscends(a[1..], b[1..]) {
        var k :| 0 <= k < |a[1..]| && k < |b[1..]| && a[1..][k] < b[1..][k] && a[1..][..k] == b[1..][..k];
        assert a[..k + 1] == [a[0]] + a[1..][..k] && b[..k + 1] == [b[0]] + b[1..][..k];
      }
      if FirstDifferenceAscends(a, b) {
        var k :| 0 <= k < |a| && k < |b| && a[k] < b[k] && a[..k] == b[..k];
        assert a[1..][..k - 1] == a[..k][1..] && b[1..][..k - 1] == b[..k][1..];
        assert a[1..][k - 1] == a[k] && b[1..][k - 1] == b[k];
      }
      if |a| < |b| {
        assert b[1..][..|a| - 1] == b[..|a|][1..];
        assert a == b[..|a|] <==> a[1..] == b[1..][..|a| - 1];
      }
    } else if a != [] && b != [] && a[0] < b[0] {
      assert a[..0] == b[..0];
    } else if a != [] && b != [] {
      assert forall k :: 0 < k <= |a| && k <= |b| ==> a[..k][0] != b[..k][0];
    }
  }

  predicate Sorted<T>(key: T -> seq<int>, xs: seq<T>) {
    forall i, j :: 0 <= i < j < |xs| ==> !Less(key(xs[j]), key(xs[i]))
  }

  /** Different elements have different keys. */
  ghost predicate Faithful<T>(key: T -> seq<int>, xs: seq<T>) {
    forall x, y :: x in xs && y in xs && key(x) == key(y) ==> x == y
  }

  function Insert<T>(key: T -> seq<int>, x: T, xs: seq<T>): (r: seq<T>)
    ensures multiset(r) == multiset(xs) + multiset{x}
    ensures |r| == |xs| + 1
  {
    if xs == [] then [x]
    else if Less(key(x), key(xs[0])) then [x] + xs
    else
      assert xs == [xs[0]] + xs[1..];
      [xs[0]] + Insert(key, x, xs[1..])
  }

  lemma {:induction false} InsertKeepsSorted<T>(key: T -> seq<int>, x: T, xs: seq<T>)
    requires Sorted(key, xs)
    ensures Sorted(key, Insert(key, x, xs))
  {
    if xs == [] {
    } else if Less(key(x), key(xs[0])) {
      LessAsymmetric(key(x), key(xs[0]));
      forall j | 0 <= j < |xs|
        ensures !Less(key(xs[j]), key(x))
      {
        FirstIsLeast(key, xs, xs[j]);
        NotLessTransitive(key(x), key(xs[0]), key(xs[j]));
      }
    } else {
      var rest := Insert(key, x, xs[1..]);
      InsertKeepsSorted(key, x, xs[1..]);
      forall j | 0 <= j < |rest|
        ensures !Less(key(rest[j]), key(xs[0]))
      {
        assert rest[j] in multiset(rest);
        assert rest[j] in multiset(xs[1..]) || rest[j] == x;
      }
    }
  }

  /** sort, sort_by */
  function Sort<T>(key: T -> seq<int>, xs: seq<T>): (r: seq<T>)
    ensures multiset(r) == multiset(xs)
    ensures |r| == |xs|
  {
    if xs == [] then []
    else
      assert xs == xs[..|xs| - 1] + [xs[|xs| - 1]];
      Insert(key, xs[|xs| - 1], Sort(key, xs[..|xs| - 1]))
  }

  lemma {:induction false} SortSorts<T>(key: T -> seq<int>, xs: seq<T>)
    ensures Sorted(key, Sort(key, xs))
  {
    if xs != [] {
      SortSorts(key, xs[..|xs| - 1]);
      InsertKeepsSorted(key, xs[|xs| - 1], Sort(key, xs[..|xs| - 1]));
    }
  }

  lemma FirstIsLeast<T>(key: T -> seq<int>, xs: seq<T>, x: T)
    requires Sorted(key, xs) && x in xs
    ensures !Less(key(x), key(xs[0]))
  {
    var j :| 0 <= j < |xs| && xs[j] == x;
    if j == 0 {
      LessIrreflexive(key(x));
    }
  }

  lemma SortedHeadsAgree<T>(key: T -> seq<int>, xs: seq<T>, ys: seq<T>)
    requires Sorted(key, xs) && Sorted(key, ys) && multiset(xs) == multiset(ys) && Faithful(key, xs) && xs != []
    ensures ys != [] && xs[0] == ys[0]
  {
    assert xs[0] in multiset(ys);
    assert ys[0] in multiset(xs);
    FirstIsLeast(key, ys, xs[0]);
    FirstIsLeast(key, xs, ys[0]);
    LessTotal(key(xs[0]), key(ys[0]));
  }

  /** There is one sorted arrangement of a collection. */
  lemma {:induction false} SortedIsUnique<T>(key: T -> seq<int>, xs: seq<T>, ys: seq<T>)
    requires Sorted(key, xs) && Sorted(key, ys) && multiset(xs) == multiset(ys) && Faithful(key, xs)
    ensures xs == ys
  {
    if xs == [] {
      assert |multiset(ys)| == 0;
    } else {
      SortedHeadsAgree(key, xs, ys);
      assert xs == [xs[0]] + xs[1..] && ys == [ys[0]] + ys[1..];
      assert multiset(xs[1..]) == multiset(xs) - multiset{xs[0]};
      assert multiset(ys[1..]) == multiset(ys) - multiset{ys[0]};
      SortedIsUnique(key, xs[1..], ys[1..]);
    }
  }

  /** Sorting is a canonical form: it forgets the order and nothing else. */
  lemma SortIsCanonical<T>(key: T -> seq<int>, xs: seq<T>, ys: seq<T>)
    requires Faithful(key, xs)
    ensures Sort(key, xs) == Sort(key, ys) <==> multiset(xs) == multiset(ys)
  {
    if multiset(xs) == multiset(ys) {
      SortSorts(key, xs);
      SortSorts(key, ys);
      forall x | x in Sort(key, xs)
        ensures x in xs
      {
        assert x in multiset(Sort(key, xs));
      }
      SortedIsUnique(key, Sort(key, xs), Sort(key, ys));
    }
  }

  /** A sorted list is left alone. */
  lemma SortOfSorted<T>(key: T -> seq<int>, xs: seq<T>)
    requires Sorted(key, xs) && Faithful(key, xs)
    ensures Sort(key, xs) == xs
  {
    SortSorts(key, xs);
    forall x | x in Sort(key, xs)
      ensures x in xs
    {
      assert x in multiset(Sort(key, xs));
    }
    SortedIsUnique(key, Sort(key, xs), xs);
  }
}
