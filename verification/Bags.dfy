/** Lists up to order: mapping, and when two ways of labelling elements see the
    same rearrangements. */
module Bags {
  import opened Sorting

  function Map<T, U>(f: T -> U, xs: seq<T>): (r: seq<U>)
    ensures |r| == |xs| && forall i :: 0 <= i < |xs| ==> r[i] == f(xs[i])
  {
    seq(|xs|, i requires 0 <= i < |xs| => f(xs[i]))
  }

  lemma MapConcat<T, U>(f: T -> U, xs: seq<T>, ys: seq<T>)
    ensures Map(f, xs + ys) == Map(f, xs) + Map(f, ys)
  {
  }

  function Without<T>(xs: seq<T>, j: nat): (r: seq<T>)
    requires j < |xs|
    ensures |r| == |xs| - 1
  {
    xs[..j] + xs[j + 1..]
  }

  lemma MapWithout<T, U>(f: T -> U, xs: seq<T>, j: nat)
    requires j < |xs|
    ensures Map(f, Without(xs, j)) == Without(Map(f, xs), j)
  {
  }

  lemma BagWithout<T>(xs: seq<T>, j: nat)
    requires j < |xs|
    ensures multiset(xs) == multiset(Without(xs, j)) + multiset{xs[j]}
  {
    assert xs == xs[..j] + [xs[j]] + xs[j + 1..];
  }

  lemma BagCancel<T>(a: multiset<T>, b: multiset<T>, x: T)
    requires a + multiset{x} == b + multiset{x}
    ensures a == b
  {
    assert a == (a + multiset{x}) - multiset{x};
    assert b == (b + multiset{x}) - multiset{x};
  }

  /** Taking the same label out of two rearrangements leaves rearrangements. */
  lemma WithoutAgrees<T, U>(f: T -> U, xs: seq<T>, ys: seq<T>, i: nat, j: nat)
    requires i < |xs| && j < |ys| && f(xs[i]) == f(ys[j])
    ensures multiset(Map(f, xs)) == multiset(Map(f, ys)) <==>
      multiset(Map(f, Without(xs, i))) == multiset(Map(f, Without(ys, j)))
  {
    MapWithout(f, xs, i);
    MapWithout(f, ys, j);
    BagWithout(Map(f, xs), i);
    BagWithout(Map(f, ys), j);
    if multiset(Map(f, xs)) == multiset(Map(f, ys)) {
      BagCancel(multiset(Map(f, Without(xs, i))), multiset(Map(f, Without(ys, j))), f(xs[i]));
    }
  }

  /** g tells elements apart no more finely than f does. */
  ghost predicate Coarser<T(!new), U, W>(f: T -> U, g: T -> W) {
    forall x, y :: f(x) == f(y) ==> g(x) == g(y)
  }

  /** What is a rearrangement under one labelling is one under any coarser labelling. */
  lemma {:induction false} CoarserBags<T(!new), U, W>(f: T -> U, g: T -> W, xs: seq<T>, ys: seq<T>)
    requires Coarser(f, g) && multiset(Map(f, xs)) == multiset(Map(f, ys))
    ensures multiset(Map(g, xs)) == multiset(Map(g, ys))
    decreases |xs|
  {
    assert |multiset(Map(f, xs))| == |xs| && |multiset(Map(f, ys))| == |ys|;
    if xs == [] {
    } else {
      var n := |xs| - 1;
      assert Map(f, xs)[n] in multiset(Map(f, ys));
      var j :| 0 <= j < |ys| && Map(f, ys)[j] == Map(f, xs)[n];
      WithoutAgrees(f, xs, ys, n, j);
      CoarserBags(f, g, Without(xs, n), Without(ys, j));
      WithoutAgrees(g, xs, ys, n, j);
    }
  }

  lemma MapBag<T(!new), U>(f: T -> U, xs: seq<T>, ys: seq<T>)
    requires multiset(xs) == multiset(ys)
    ensures multiset(Map(f, xs)) == multiset(Map(f, ys))
  {
    var self := (x: T) => x;
    assert Map(self, xs) == xs && Map(self, ys) == ys;
    CoarserBags(self, f, xs, ys);
  }

  /** Every element of one rearrangement has a twin in the other. */
  lemma Twin<T, U>(f: T -> U, xs: seq<T>, ys: seq<T>, x: T) returns (y: T)
    requires multiset(Map(f, xs)) == multiset(Map(f, ys)) && x in xs
    ensures y in ys && f(y) == f(x)
  {
    var i :| 0 <= i < |xs| && xs[i] == x;
    assert Map(f, xs)[i] in multiset(Map(f, ys));
    var j :| 0 <= j < |ys| && Map(f, ys)[j] == f(x);
    y := ys[j];
  }

  /** The last element of one rearrangement and its twin's place in the other. */
  lemma TwinIndex<T, U>(f: T -> U, xs: seq<T>, ys: seq<T>) returns (i: nat, j: nat)
    requires multiset(Map(f, xs)) == multiset(Map(f, ys)) && xs != []
    ensures i == |xs| - 1 && j < |ys| && f(xs[i]) == f(ys[j])
  {
    i := |xs| - 1;
    assert Map(f, xs)[i] in multiset(Map(f, ys));
    j :| 0 <= j < |ys| && Map(f, ys)[j] == Map(f, xs)[i];
  }

  lemma SameLength<T, U>(f: T -> U, xs: seq<T>, ys: seq<T>)
    requires multiset(Map(f, xs)) == multiset(Map(f, ys))
    ensures |xs| == |ys|
  {
    assert |multiset(Map(f, xs))| == |xs| && |multiset(Map(f, ys))| == |ys|;
  }

  ghost predicate NoRepeats<T>(xs: seq<T>) {
    forall i, j :: 0 <= i < j < |xs| ==> xs[i] != xs[j]
  }

  lemma StillContained<T>(ys: seq<T>, j: nat, x: T)
    requires j < |ys| && x in ys && x != ys[j]
    ensures x in Without(ys, j)
  {
  }

  lemma WithoutNoRepeats<T>(ys: seq<T>, j: nat)
    requires j < |ys| && NoRepeats(ys)
    ensures NoRepeats(Without(ys, j))
  {
  }

  /** Two lists of one length without repeats are rearrangements of each other as
      soon as one is contained in the other. */
  lemma {:induction false} ContainedIsRearranged<T>(xs: seq<T>, ys: seq<T>)
    requires NoRepeats(xs) && NoRepeats(ys) && |xs| == |ys|
    requires forall i :: 0 <= i < |xs| ==> xs[i] in ys
    ensures multiset(xs) == multiset(ys)
    decreases |xs|
  {
    if xs != [] {
      var n := |xs| - 1;
      var j :| 0 <= j < |ys| && ys[j] == xs[n];
      var front, rest := xs[..n], Without(ys, j);
      forall i | 0 <= i < |front|
        ensures front[i] in rest
      {
        assert xs[i] in ys && xs[i] != ys[j];
        StillContained(ys, j, xs[i]);
      }
      WithoutNoRepeats(ys, j);
      ContainedIsRearranged(front, rest);
      BagWithout(ys, j);
      assert xs == front + [xs[n]];
    }
  }

  lemma NoRepeatsStays<T>(xs: seq<T>, ys: seq<T>)
    requires NoRepeats(xs) && multiset(xs) == multiset(ys)
    ensures NoRepeats(ys)
  {
    forall i, j | 0 <= i < j < |ys|
      ensures ys[i] != ys[j]
    {
      if ys[i] == ys[j] {
        OccursTwice(ys, i, j);
        OccursOnce(xs, ys[i]);
      }
    }
  }

  lemma OccursTwice<T>(ys: seq<T>, i: nat, j: nat)
    requires i < j < |ys| && ys[i] == ys[j]
    ensures multiset(ys)[ys[i]] >= 2
  {
    assert ys == ys[..j] + [ys[j]] + ys[j + 1..];
    assert ys[..j][i] == ys[i];
    assert ys[i] in multiset(ys[..j]);
  }

  lemma {:induction false} OccursOnce<T>(xs: seq<T>, x: T)
    requires NoRepeats(xs)
    ensures multiset(xs)[x] <= 1
  {
    if xs != [] {
      var front, last := xs[..|xs| - 1], xs[|xs| - 1];
      assert xs == front + [last];
      OccursOnce(front, x);
      if x == last {
        assert x !in multiset(front);
      }
    }
  }

  // ------------------------------------------------------------------- sorting

  lemma MapHead<T, U>(f: T -> U, xs: seq<T>)
    requires xs != []
    ensures Map(f, xs) == [f(xs[0])] + Map(f, xs[1..]) && Map(f, xs)[1..] == Map(f, xs[1..])
  {
  }

  /** Renaming the elements without touching their keys commutes with inserting. */
  lemma {:induction false} InsertRenamed<T, U>(key: T -> seq<int>, other: U -> seq<int>, f: T -> U, x: T, xs: seq<T>)
    requires forall y :: y in xs ==> other(f(y)) == key(y)
    requires other(f(x)) == key(x)
    ensures Insert(other, f(x), Map(f, xs)) == Map(f, Insert(key, x, xs))
  {
    if xs == [] {
    } else {
      assert xs[0] in xs;
      MapHead(f, xs);
      if Less(key(x), key(xs[0])) {
        MapHead(f, [x] + xs);
      } else {
        InsertRenamed(key, other, f, x, xs[1..]);
        MapHead(f, [xs[0]] + Insert(key, x, xs[1..]));
      }
    }
  }

  /** ... and with sorting. */
  lemma {:induction false} SortRenamed<T, U>(key: T -> seq<int>, other: U -> seq<int>, f: T -> U, xs: seq<T>)
    requires forall y :: y in xs ==> other(f(y)) == key(y)
    ensures Sort(other, Map(f, xs)) == Map(f, Sort(key, xs))
  {
    if xs != [] {
      var front, last := xs[..|xs| - 1], xs[|xs| - 1];
      assert Map(f, xs)[..|xs| - 1] == Map(f, front);
      SortRenamed(key, other, f, front);
      forall y | y in Sort(key, front)
        ensures y in front
      {
        assert y in multiset(Sort(key, front));
      }
      InsertRenamed(key, other, f, last, Sort(key, front));
    }
  }
}
