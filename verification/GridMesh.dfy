/** Triangle meshes on the integer grid of hundred-thousandths. */
module GridMesh {
  import opened Bags
  import opened Sorting

  datatype Point = Point(x: int, y: int, z: int)

  datatype Tri = Tri(a: Point, b: Point, c: Point)

  function Corners(t: Tri): seq<Point> {
    [t.a, t.b, t.c]
  }

  function PointKey(p: Point): seq<int> {
    [p.x, p.y, p.z]
  }

  /** The corners of a triangle in ascending order. */
  function SortedTri(t: Tri): Tri {
    var s := Sort(PointKey, Corners(t));
    Tri(s[0], s[1], s[2])
  }

  function TriKey(t: Tri): seq<int> {
    PointKey(t.a) + PointKey(t.b) + PointKey(t.c)
  }

  /** A triangle as its three corners, in no order. */
  function Shape(t: Tri): multiset<Point> {
    multiset(Corners(t))
  }

  lemma PointKeysDiffer(ps: seq<Point>)
    ensures Faithful(PointKey, ps)
  {
    forall x, y | x in ps && y in ps && PointKey(x) == PointKey(y)
      ensures x == y
    {
      assert PointKey(x)[0] == x.x && PointKey(x)[1] == x.y && PointKey(x)[2] == x.z;
      assert PointKey(y)[0] == y.x && PointKey(y)[1] == y.y && PointKey(y)[2] == y.z;
    }
  }

  lemma TriKeyInjective(t: Tri, u: Tri)
    requires TriKey(t) == TriKey(u)
    ensures t == u
  {
    var j, k := TriKey(t), TriKey(u);
    assert j[..3] == PointKey(t.a) && j[3..6] == PointKey(t.b) && j[6..] == PointKey(t.c);
    assert k[..3] == PointKey(u.a) && k[3..6] == PointKey(u.b) && k[6..] == PointKey(u.c);
    PointKeysDiffer([t.a, t.b, t.c, u.a, u.b, u.c]);
    assert t.a in [t.a, t.b, t.c, u.a, u.b, u.c] && u.a in [t.a, t.b, t.c, u.a, u.b, u.c];
    assert t.b in [t.a, t.b, t.c, u.a, u.b, u.c] && u.b in [t.a, t.b, t.c, u.a, u.b, u.c];
    assert t.c in [t.a, t.b, t.c, u.a, u.b, u.c] && u.c in [t.a, t.b, t.c, u.a, u.b, u.c];
  }

  lemma TriKeysDiffer(ts: seq<Tri>)
    ensures Faithful(TriKey, ts)
  {
    forall x, y | x in ts && y in ts && TriKey(x) == TriKey(y)
      ensures x == y
    {
      TriKeyInjective(x, y);
    }
  }

  lemma SortedTriKeepsShape(t: Tri)
    ensures Shape(SortedTri(t)) == Shape(t)
    ensures Corners(SortedTri(t)) == Sort(PointKey, Corners(t))
  {
    var s := Sort(PointKey, Corners(t));
    assert s == [s[0], s[1], s[2]];
  }

  /** Sorting the corners forgets their order and nothing else. */
  lemma SortedTriExactly(t: Tri, u: Tri)
    ensures SortedTri(t) == SortedTri(u) <==> Shape(t) == Shape(u)
  {
    SortedTriKeepsShape(t);
    SortedTriKeepsShape(u);
    PointKeysDiffer(Corners(t));
    SortIsCanonical(PointKey, Corners(t), Corners(u));
  }

  /** Two lists are the same mesh: the same triangles, in any order, with their
      corners in any order. */
  ghost predicate SameMesh(a: seq<Tri>, b: seq<Tri>) {
    multiset(Map(Shape, a)) == multiset(Map(Shape, b))
  }

  lemma SameMeshBySortedTris(a: seq<Tri>, b: seq<Tri>)
    ensures SameMesh(a, b) <==> multiset(Map(SortedTri, a)) == multiset(Map(SortedTri, b))
  {
    forall t, u
      ensures SortedTri(t) == SortedTri(u) <==> Shape(t) == Shape(u)
    {
      SortedTriExactly(t, u);
    }
    if SameMesh(a, b) {
      CoarserBags(Shape, SortedTri, a, b);
    }
    if multiset(Map(SortedTri, a)) == multiset(Map(SortedTri, b)) {
      CoarserBags(SortedTri, Shape, a, b);
    }
  }
}
