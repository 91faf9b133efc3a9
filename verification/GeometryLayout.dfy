/** The hashed geometry text, spelled out: where the grid lies, in which order the
    triangles stand and how they are written. */
module GeometryLayout {
  import opened Bags
  import opened Decimal
  import opened GeometryForm
  import opened GridMesh
  import opened RayTriangle
  import opened Sorting
  import opened Texts

  // ------------------------------------------------------------------------- grid

  /** n is the whole number nearest to x; of two equally near ones, the one further
      from zero. */
  predicate Nearest(n: int, x: real) {
    && -0.5 <= n as real - x <= 0.5
    && (n as real - x == 0.5 ==> x > 0.0)
    && (n as real - x == -0.5 ==> x < 0.0)
  }

  lemma RoundIsNearest(x: real)
    ensures Nearest(Round(x), x)
  {
  }

  /** The point, counted in hundred-thousandths from the corner m. */
  predicate LiesAt(p: Point, v: Vec, m: Vec) {
    Nearest(p.x, (v.x - m.x) * 100_000.0) && Nearest(p.y, (v.y - m.y) * 100_000.0) && Nearest(p.z, (v.z - m.z) * 100_000.0)
  }

  predicate CornerOf(t: Triangle, v: Vec) {
    v == t.a || v == t.b || v == t.c
  }

  ghost predicate IsVertex(ts: seq<Triangle>, v: Vec) {
    exists t :: t in ts && CornerOf(t, v)
  }

  /** On each axis no vertex lies below m, and some vertex lies at it. */
  ghost predicate IsLeastCorner(ts: seq<Triangle>, m: Vec) {
    && (forall v :: IsVertex(ts, v) ==> m.x <= v.x && m.y <= v.y && m.z <= v.z)
    && (exists v :: IsVertex(ts, v) && v.x == m.x)
    && (exists v :: IsVertex(ts, v) && v.y == m.y)
    && (exists v :: IsVertex(ts, v) && v.z == m.z)
  }

  lemma {:induction false} VerticesExactly(ts: seq<Triangle>, v: Vec)
    ensures v in Vertices(ts) <==> IsVertex(ts, v)
  {
    if ts != [] {
      var front, last := ts[..|ts| - 1], ts[|ts| - 1];
      VerticesExactly(front, v);
      assert ts == front + [last];
      assert last in ts;
    }
  }

  lemma LeastOnAxis(axis: Vec -> real, ts: seq<Triangle>)
    requires ts != []
    ensures var m := LeastReal(Map(axis, Vertices(ts)));
      && (forall v :: IsVertex(ts, v) ==> m <= axis(v))
      && (exists v :: IsVertex(ts, v) && axis(v) == m)
  {
    var vs := Vertices(ts);
    var xs := Map(axis, vs);
    forall v | IsVertex(ts, v)
      ensures LeastReal(xs) <= axis(v)
    {
      VerticesExactly(ts, v);
      var i :| 0 <= i < |vs| && vs[i] == v;
      assert xs[i] in xs;
    }
    var j :| 0 <= j < |xs| && xs[j] == LeastReal(xs);
    VerticesExactly(ts, vs[j]);
    assert IsVertex(ts, vs[j]) && axis(vs[j]) == LeastReal(xs);
  }

  lemma MinimumsAreLeast(ts: seq<Triangle>)
    requires ts != []
    ensures IsLeastCorner(ts, Minimums(ts))
  {
    LeastOnAxis(VecX, ts);
    LeastOnAxis(VecY, ts);
    LeastOnAxis(VecZ, ts);
  }

  /** The grid mesh of the measured one, corner by corner. */
  ghost predicate IsGridOf(grid: seq<Tri>, ts: seq<Triangle>) {
    && |grid| == |ts|
    && exists m :: IsLeastCorner(ts, m) && forall i :: 0 <= i < |ts| ==> TriLiesAt(grid[i], ts[i], m)
  }

  predicate TriLiesAt(g: Tri, t: Triangle, m: Vec) {
    LiesAt(g.a, t.a, m) && LiesAt(g.b, t.b, m) && LiesAt(g.c, t.c, m)
  }

  lemma OnGridIsGrid(ts: seq<Triangle>)
    requires ts != []
    ensures IsGridOf(OnGrid(ts, Minimums(ts)), ts)
  {
    var m := Minimums(ts);
    MinimumsAreLeast(ts);
    forall i | 0 <= i < |ts|
      ensures TriLiesAt(OnGrid(ts, m)[i], ts[i], m)
    {
      GridPointLies(ts[i].a, m);
      GridPointLies(ts[i].b, m);
      GridPointLies(ts[i].c, m);
    }
  }

  lemma GridPointLies(v: Vec, m: Vec)
    ensures LiesAt(GridPoint(v, m), v, m)
  {
    RoundIsNearest((v.x - m.x) * 100_000.0);
    RoundIsNearest((v.y - m.y) * 100_000.0);
    RoundIsNearest((v.z - m.z) * 100_000.0);
  }

  // ------------------------------------------------------------------------ order

  /** By x, then y, then z. */
  predicate PointBefore(p: Point, q: Point) {
    p.x < q.x || (p.x == q.x && (p.y < q.y || (p.y == q.y && p.z < q.z)))
  }

  /** By the first corner, then the second, then the third. */
  predicate TriBefore(t: Tri, u: Tri) {
    PointBefore(t.a, u.a) || (t.a == u.a && (PointBefore(t.b, u.b) || (t.b == u.b && PointBefore(t.c, u.c))))
  }

  /** Corners ascend in every triangle, and the triangles ascend. */
  predicate Ascends(ts: seq<Tri>) {
    (forall t :: t in ts ==> CornersAscend(t)) && TrianglesAscend(ts)
  }

  predicate CornersAscend(t: Tri) {
    !PointBefore(t.b, t.a) && !PointBefore(t.c, t.b)
  }

  predicate TrianglesAscend(ts: seq<Tri>) {
    forall i, j :: 0 <= i < j < |ts| ==> !TriBefore(ts[j], ts[i])
  }

  lemma PointKeysCompare(p: Point, q: Point)
    ensures Less(PointKey(p), PointKey(q)) <==> PointBefore(p, q)
  {
    var a, b := PointKey(p), PointKey(q);
    assert a[1..] == [p.y, p.z] && b[1..] == [q.y, q.z];
    assert a[1..][1..] == [p.z] && b[1..][1..] == [q.z];
    assert a[1..][1..][1..] == [] && b[1..][1..][1..] == [];
    assert Less(a[1..][1..], b[1..][1..]) <==> p.z < q.z;
    assert Less(a[1..], b[1..]) <==> p.y < q.y || (p.y == q.y && p.z < q.z);
  }

  /** Of two texts of equal heads, or of heads that differ, the heads or the tails
      decide. */
  lemma {:induction false} LessOfParts(a: seq<int>, b: seq<int>, x: seq<int>, y: seq<int>)
    requires |a| == |b|
    ensures Less(a + x, b + y) <==> Less(a, b) || (a == b && Less(x, y))
  {
    if a == [] {
      assert a + x == x && b + y == y;
    } else {
      assert (a + x)[1..] == a[1..] + x && (b + y)[1..] == b[1..] + y;
      LessOfParts(a[1..], b[1..], x, y);
      assert a == [a[0]] + a[1..] && b == [b[0]] + b[1..];
    }
  }

  lemma SamePointKeys(p: Point, q: Point)
    ensures PointKey(p) == PointKey(q) <==> p == q
  {
    PointKeysDiffer([p, q]);
    assert p in [p, q] && q in [p, q];
  }

  lemma TriKeysCompare(t: Tri, u: Tri)
    ensures Less(TriKey(t), TriKey(u)) <==> TriBefore(t, u)
  {
    assert TriKey(t) == PointKey(t.a) + (PointKey(t.b) + PointKey(t.c));
    assert TriKey(u) == PointKey(u.a) + (PointKey(u.b) + PointKey(u.c));
    LessOfParts(PointKey(t.a), PointKey(u.a), PointKey(t.b) + PointKey(t.c), PointKey(u.b) + PointKey(u.c));
    LessOfParts(PointKey(t.b), PointKey(u.b), PointKey(t.c), PointKey(u.c));
    PointKeysCompare(t.a, u.a);
    PointKeysCompare(t.b, u.b);
    PointKeysCompare(t.c, u.c);
    SamePointKeys(t.a, u.a);
    SamePointKeys(t.b, u.b);
  }

  lemma SortedTriAscends(t: Tri)
    ensures CornersAscend(SortedTri(t))
  {
    var s := Sort(PointKey, Corners(t));
    SortSorts(PointKey, Corners(t));
    PointKeysCompare(s[1], s[0]);
    PointKeysCompare(s[2], s[1]);
  }

  lemma SortedMeshAscends(ts: seq<Tri>)
    ensures Ascends(SortedMesh(ts))
  {
    forall t | t in SortedMesh(ts)
      ensures CornersAscend(t)
    {
      assert t in multiset(Map(SortedTri, ts));
      var k :| 0 <= k < |ts| && Map(SortedTri, ts)[k] == t;
      SortedTriAscends(ts[k]);
    }
    SortAscends(Map(SortedTri, ts));
  }

  lemma SortAscends(ts: seq<Tri>)
    ensures TrianglesAscend(Sort(TriKey, ts))
  {
    var r := Sort(TriKey, ts);
    forall i, j | 0 <= i < j < |r|
      ensures !TriBefore(r[j], r[i])
    {
      PairAscends(ts, i, j);
    }
  }

  lemma PairAscends(ts: seq<Tri>, i: nat, j: nat)
    requires i < j < |ts|
    ensures var r := Sort(TriKey, ts); !TriBefore(r[j], r[i])
  {
    SortSorts(TriKey, ts);
    TriKeysCompare(Sort(TriKey, ts)[j], Sort(TriKey, ts)[i]);
  }

  lemma SortedMeshIsSameMesh(ts: seq<Tri>)
    ensures SameMesh(SortedMesh(ts), ts)
  {
    var sorted := Map(SortedTri, ts);
    MapBag(Shape, SortedMesh(ts), sorted);
    forall i | 0 <= i < |ts|
      ensures Map(Shape, sorted)[i] == Map(Shape, ts)[i]
    {
      SortedTriKeepsShape(ts[i]);
    }
    assert Map(Shape, sorted) == Map(Shape, ts);
  }

  // ------------------------------------------------------------------------- text

  function Numbers(p: Point): string {
    SignedText(p.x) + "," + SignedText(p.y) + "," + SignedText(p.z)
  }

  /** Coordinates after commas, corners after semicolons, triangles after bars. */
  function Spelled(ts: seq<Tri>): string {
    if ts == [] then ""
    else
      var t := Numbers(ts[0].a) + ";" + Numbers(ts[0].b) + ";" + Numbers(ts[0].c);
      if |ts| == 1 then t else t + "|" + Spelled(ts[1..])
  }

  lemma JoinThree(sep: char, a: string, b: string, c: string)
    ensures Join(sep, [a, b, c]) == a + [sep] + b + [sep] + c
  {
    assert [a, b, c][1..] == [b, c] && [b, c][1..] == [c];
    assert Join(sep, [b, c]) == b + [sep] + c;
    assert a + [sep] + (b + [sep] + c) == a + [sep] + b + [sep] + c;
  }

  lemma {:induction false} MeshTextIsSpelled(ts: seq<Tri>)
    ensures MeshText(ts) == Spelled(ts)
  {
    if ts != [] {
      var t := ts[0];
      JoinThree(',', SignedText(t.a.x), SignedText(t.a.y), SignedText(t.a.z));
      JoinThree(',', SignedText(t.b.x), SignedText(t.b.y), SignedText(t.b.z));
      JoinThree(',', SignedText(t.c.x), SignedText(t.c.y), SignedText(t.c.z));
      JoinThree(';', PointText(t.a), PointText(t.b), PointText(t.c));
      assert Map(TriText, ts)[0] == TriText(t) && Map(TriText, ts)[1..] == Map(TriText, ts[1..]);
      MeshTextIsSpelled(ts[1..]);
    }
  }

  /** The text of a measured mesh: its triangles, counted from the least corner in
      hundred-thousandths, each and all in ascending order, written out. */
  lemma GeometryTextSpelled(ts: seq<Triangle>) returns (grid: seq<Tri>, r: seq<Tri>)
    requires ts != []
    ensures IsGridOf(grid, ts) && SameMesh(r, grid) && Ascends(r) && GeometryText(ts) == Spelled(r)
  {
    grid := OnGrid(ts, Minimums(ts));
    r := SortedMesh(grid);
    OnGridIsGrid(ts);
    SortedMeshIsSameMesh(grid);
    SortedMeshAscends(grid);
    MeshTextIsSpelled(r);
  }
}
