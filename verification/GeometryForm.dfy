/** The canonical text behind a mesh's geometry hash. */
module GeometryForm {
  import opened Bags
  import opened Decimal
  import opened GridMesh
  import opened RayTriangle
  import opened Sorting
  import opened Texts

  // ----------------------------------------------------------- translation

  function Minus(p: Point, v: Point): Point {
    Point(p.x - v.x, p.y - v.y, p.z - v.z)
  }

  function MinusTri(t: Tri, v: Point): Tri {
    Tri(Minus(t.a, v), Minus(t.b, v), Minus(t.c, v))
  }

  function Moved(ts: seq<Tri>, v: Point): (r: seq<Tri>)
    ensures |r| == |ts| && forall i :: 0 <= i < |ts| ==> r[i] == MinusTri(ts[i], v)
  {
    seq(|ts|, i requires 0 <= i < |ts| => MinusTri(ts[i], v))
  }

  function Plus(v: Point, w: Point): Point {
    Point(v.x + w.x, v.y + w.y, v.z + w.z)
  }

  lemma MovedTwice(ts: seq<Tri>, v: Point, w: Point, sum: Point)
    requires sum == Plus(v, w)
    ensures Moved(Moved(ts, v), w) == Moved(ts, sum)
  {
  }

  lemma MovedNowhere(ts: seq<Tri>, v: Point)
    requires v == Point(0, 0, 0)
    ensures Moved(ts, v) == ts
  {
  }

  function PointMoved(v: Point): Point -> Point {
    (p: Point) => Minus(p, v)
  }

  function SortedMoved(v: Point): Tri -> Tri {
    (t: Tri) => SortedTri(MinusTri(t, v))
  }

  lemma CornersMove(t: Tri, v: Point)
    ensures Map(PointMoved(v), Corners(t)) == Corners(MinusTri(t, v))
  {
  }

  lemma ShapeMoves(t: Tri, u: Tri, v: Point)
    requires Shape(t) == Shape(u)
    ensures Shape(MinusTri(t, v)) == Shape(MinusTri(u, v))
  {
    MapBag(PointMoved(v), Corners(t), Corners(u));
    CornersMove(t, v);
    CornersMove(u, v);
  }

  lemma MovedLabelsAgree(t: Tri, u: Tri, v: Point)
    requires Shape(t) == Shape(u)
    ensures SortedMoved(v)(t) == SortedMoved(v)(u)
  {
    ShapeMoves(t, u, v);
    SortedTriExactly(MinusTri(t, v), MinusTri(u, v));
  }

  lemma SortedMovedIsCoarser(v: Point)
    ensures Coarser(Shape, SortedMoved(v))
  {
    forall t: Tri, u: Tri | Shape(t) == Shape(u)
      ensures SortedMoved(v)(t) == SortedMoved(v)(u)
    {
      MovedLabelsAgree(t, u, v);
    }
  }

  lemma SortedTrisOfMoved(ts: seq<Tri>, v: Point)
    ensures Map(SortedTri, Moved(ts, v)) == Map(SortedMoved(v), ts)
  {
  }

  lemma SameMeshMoves(a: seq<Tri>, b: seq<Tri>, v: Point)
    requires SameMesh(a, b)
    ensures SameMesh(Moved(a, v), Moved(b, v))
  {
    SortedMovedIsCoarser(v);
    CoarserBags(Shape, SortedMoved(v), a, b);
    SortedTrisOfMoved(a, v);
    SortedTrisOfMoved(b, v);
    SameMeshBySortedTris(Moved(a, v), Moved(b, v));
  }

  // ---------------------------------------------------------------- minimum

  function Least(xs: seq<int>): (m: int)
    requires xs != []
    ensures m in xs && forall x :: x in xs ==> m <= x
  {
    if |xs| == 1 then xs[0]
    else
      var rest := Least(xs[1..]);
      assert xs == [xs[0]] + xs[1..];
      if xs[0] < rest then xs[0] else rest
  }

  function Points(ts: seq<Tri>): (ps: seq<Point>)
    ensures ts != [] ==> ps != []
  {
    if ts == [] then [] else Points(ts[..|ts| - 1]) + Corners(ts[|ts| - 1])
  }

  lemma {:induction false} PointOfTri(ts: seq<Tri>, p: Point)
    ensures p in Points(ts) <==> exists t :: t in ts && p in Shape(t)
  {
    if ts != [] {
      var front, last := ts[..|ts| - 1], ts[|ts| - 1];
      PointOfTri(front, p);
      assert ts == front + [last];
      assert p in Corners(last) <==> p in Shape(last);
      assert last in ts;
    }
  }

  function AxisX(p: Point): int { p.x }
  function AxisY(p: Point): int { p.y }
  function AxisZ(p: Point): int { p.z }

  /** The least coordinate on each axis. */
  function Minimum(ts: seq<Tri>): Point
    requires ts != []
  {
    var ps := Points(ts);
    Point(Least(Map(AxisX, ps)), Least(Map(AxisY, ps)), Least(Map(AxisZ, ps)))
  }

  lemma LeastMoves(axis: Point -> int, ps: seq<Point>, qs: seq<Point>, shift: int)
    requires ps != [] && |qs| == |ps|
    requires forall i :: 0 <= i < |ps| ==> axis(qs[i]) == axis(ps[i]) - shift
    ensures Least(Map(axis, qs)) == Least(Map(axis, ps)) - shift
  {
    var xs, ys := Map(axis, ps), Map(axis, qs);
    var i :| 0 <= i < |xs| && xs[i] == Least(xs);
    assert ys[i] in ys;
    var j :| 0 <= j < |ys| && ys[j] == Least(ys);
    assert xs[j] in xs;
  }

  lemma MinimumMoves(ts: seq<Tri>, v: Point)
    requires ts != []
    ensures Minimum(Moved(ts, v)) == Minus(Minimum(ts), v)
  {
    PointsMove(ts, v);
    LeastMoves(AxisX, Points(ts), Points(Moved(ts, v)), v.x);
    LeastMoves(AxisY, Points(ts), Points(Moved(ts, v)), v.y);
    LeastMoves(AxisZ, Points(ts), Points(Moved(ts, v)), v.z);
  }

  lemma {:induction false} PointsMove(ts: seq<Tri>, v: Point)
    ensures |Points(Moved(ts, v))| == |Points(ts)|
    ensures forall i :: 0 <= i < |Points(ts)| ==> Points(Moved(ts, v))[i] == Minus(Points(ts)[i], v)
  {
    if ts != [] {
      var front := ts[..|ts| - 1];
      PointsMove(front, v);
      assert Moved(ts, v)[..|ts| - 1] == Moved(front, v);
    }
  }

  lemma SamePoints(a: seq<Tri>, b: seq<Tri>, p: Point)
    requires SameMesh(a, b) && p in Points(a)
    ensures p in Points(b)
  {
    PointOfTri(a, p);
    PointOfTri(b, p);
    var t :| t in a && p in Shape(t);
    var u := Twin(Shape, a, b, t);
  }

  lemma LeastOfSamePoints(axis: Point -> int, ps: seq<Point>, qs: seq<Point>)
    requires ps != [] && qs != [] && forall p :: p in ps <==> p in qs
    ensures Least(Map(axis, ps)) == Least(Map(axis, qs))
  {
    LeastAtMost(axis, ps, qs);
    LeastAtMost(axis, qs, ps);
  }

  lemma LeastAtMost(axis: Point -> int, ps: seq<Point>, qs: seq<Point>)
    requires ps != [] && qs != [] && forall q :: q in qs ==> q in ps
    ensures Least(Map(axis, ps)) <= Least(Map(axis, qs))
  {
    var xs, ys := Map(axis, ps), Map(axis, qs);
    var j :| 0 <= j < |ys| && ys[j] == Least(ys);
    assert qs[j] in ps;
    var i :| 0 <= i < |ps| && ps[i] == qs[j];
    assert xs[i] in xs;
  }

  lemma SameMinimum(a: seq<Tri>, b: seq<Tri>)
    requires SameMesh(a, b) && a != []
    ensures b != [] && Minimum(a) == Minimum(b)
  {
    SameLength(Shape, a, b);
    SamePointSets(a, b);
    LeastOfSamePoints(AxisX, Points(a), Points(b));
    LeastOfSamePoints(AxisY, Points(a), Points(b));
    LeastOfSamePoints(AxisZ, Points(a), Points(b));
  }

  lemma SamePointSets(a: seq<Tri>, b: seq<Tri>)
    requires SameMesh(a, b)
    ensures forall p :: p in Points(a) <==> p in Points(b)
  {
    forall p
      ensures p in Points(a) <==> p in Points(b)
    {
      if p in Points(a) {
        SamePoints(a, b, p);
      }
      if p in Points(b) {
        SamePoints(b, a, p);
      }
    }
  }

  // ---------------------------------------------------------- canonical form

  function SortedMesh(ts: seq<Tri>): seq<Tri> {
    Sort(TriKey, Map(SortedTri, ts))
  }

  lemma SortedMeshExactly(a: seq<Tri>, b: seq<Tri>)
    ensures SortedMesh(a) == SortedMesh(b) <==> SameMesh(a, b)
  {
    TriKeysDiffer(Map(SortedTri, a));
    SortIsCanonical(TriKey, Map(SortedTri, a), Map(SortedTri, b));
    SameMeshBySortedTris(a, b);
  }

  /** Moved to the origin, corners sorted, triangles sorted. */
  function Canonical(ts: seq<Tri>): seq<Tri> {
    if ts == [] then [] else SortedMesh(Moved(ts, Minimum(ts)))
  }

  /** Two meshes have the same canonical form exactly when one is the other up to
      translation, triangle order and the order of corners within triangles. */
  lemma CanonicalExactly(a: seq<Tri>, b: seq<Tri>)
    ensures Canonical(a) == Canonical(b) <==> exists v :: SameMesh(Moved(a, v), b)
  {
    if a == [] || b == [] {
      EmptyMesh(a, b);
    } else {
      SortedMeshExactly(Moved(a, Minimum(a)), Moved(b, Minimum(b)));
      if Canonical(a) == Canonical(b) {
        SameFormIsSameMesh(a, b);
      }
      if v :| SameMesh(Moved(a, v), b) {
        SameMeshIsSameForm(a, b, v);
      }
    }
  }

  lemma SameFormIsSameMesh(a: seq<Tri>, b: seq<Tri>)
    requires a != [] && b != [] && SameMesh(Moved(a, Minimum(a)), Moved(b, Minimum(b)))
    ensures SameMesh(Moved(a, Minus(Minimum(a), Minimum(b))), b)
  {
    MeshesMeet(a, Minimum(a), b, Minimum(b));
  }

  lemma MeshesMeet(a: seq<Tri>, v: Point, b: seq<Tri>, w: Point)
    requires SameMesh(Moved(a, v), Moved(b, w))
    ensures SameMesh(Moved(a, Minus(v, w)), b)
  {
    var back := Point(-w.x, -w.y, -w.z);
    MovedTwice(a, v, back, Minus(v, w));
    MovedTwice(b, w, back, Point(0, 0, 0));
    MovedNowhere(b, Point(0, 0, 0));
    SameMeshMoves(Moved(a, v), Moved(b, w), back);
  }

  lemma SameMeshIsSameForm(a: seq<Tri>, b: seq<Tri>, v: Point)
    requires a != [] && b != [] && SameMesh(Moved(a, v), b)
    ensures SameMesh(Moved(a, Minimum(a)), Moved(b, Minimum(b)))
  {
    SameMinimum(Moved(a, v), b);
    MinimumMoves(a, v);
    MeshesStay(a, v, b, Minimum(b), Minimum(a));
  }

  lemma MeshesStay(a: seq<Tri>, v: Point, b: seq<Tri>, w: Point, sum: Point)
    requires SameMesh(Moved(a, v), b) && w == Minus(sum, v)
    ensures SameMesh(Moved(a, sum), Moved(b, w))
  {
    MovedTwice(a, v, w, sum);
    SameMeshMoves(Moved(a, v), b, w);
  }

  lemma EmptyMesh(a: seq<Tri>, b: seq<Tri>)
    requires a == [] || b == []
    ensures Canonical(a) == Canonical(b) <==> exists v :: SameMesh(Moved(a, v), b)
  {
    assert |Canonical(a)| == |a| && |Canonical(b)| == |b|;
    if a == [] && b == [] {
      assert Moved(a, Point(0, 0, 0)) == b;
    }
    forall v | SameMesh(Moved(a, v), b)
      ensures |a| == |b|
    {
      SameLength(Shape, Moved(a, v), b);
    }
  }

  // -------------------------------------------------------------------- text

  function PointText(p: Point): string {
    Join(',', [SignedText(p.x), SignedText(p.y), SignedText(p.z)])
  }

  function TriText(t: Tri): string {
    Join(';', [PointText(t.a), PointText(t.b), PointText(t.c)])
  }

  function MeshText(ts: seq<Tri>): string {
    Join('|', Map(TriText, ts))
  }

  lemma NumbersSeparable(p: Point)
    ensures Separable(',', [SignedText(p.x), SignedText(p.y), SignedText(p.z)])
  {
  }

  lemma PointTextCharacters(p: Point)
    ensures PointText(p) != "" && ';' !in PointText(p) && '|' !in PointText(p)
  {
    var parts := [SignedText(p.x), SignedText(p.y), SignedText(p.z)];
    NumbersSeparable(p);
    forall c | c in PointText(p)
      ensures c != ';' && c != '|'
    {
      JoinCharacters(',', parts, c);
    }
  }

  lemma PointTextInjective(p: Point, q: Point)
    requires PointText(p) == PointText(q)
    ensures p == q
  {
    var a, b := [SignedText(p.x), SignedText(p.y), SignedText(p.z)], [SignedText(q.x), SignedText(q.y), SignedText(q.z)];
    NumbersSeparable(p);
    NumbersSeparable(q);
    JoinInjective(',', a, b);
    assert a[0] == b[0] && a[1] == b[1] && a[2] == b[2];
    SignedTextInjective(p.x, q.x);
    SignedTextInjective(p.y, q.y);
    SignedTextInjective(p.z, q.z);
  }

  lemma PointsSeparable(t: Tri)
    ensures Separable(';', [PointText(t.a), PointText(t.b), PointText(t.c)])
  {
    PointTextCharacters(t.a);
    PointTextCharacters(t.b);
    PointTextCharacters(t.c);
  }

  lemma TriTextCharacters(t: Tri)
    ensures TriText(t) != "" && '|' !in TriText(t)
  {
    var parts := [PointText(t.a), PointText(t.b), PointText(t.c)];
    PointsSeparable(t);
    forall c | c in TriText(t)
      ensures c != '|'
    {
      JoinCharacters(';', parts, c);
      PointTextCharacters(t.a);
      PointTextCharacters(t.b);
      PointTextCharacters(t.c);
    }
  }

  lemma TriTextInjective(t: Tri, u: Tri)
    requires TriText(t) == TriText(u)
    ensures t == u
  {
    var a, b := [PointText(t.a), PointText(t.b), PointText(t.c)], [PointText(u.a), PointText(u.b), PointText(u.c)];
    PointsSeparable(t);
    PointsSeparable(u);
    JoinInjective(';', a, b);
    assert a[0] == b[0] && a[1] == b[1] && a[2] == b[2];
    PointTextInjective(t.a, u.a);
    PointTextInjective(t.b, u.b);
    PointTextInjective(t.c, u.c);
  }

  lemma TrisSeparable(ts: seq<Tri>)
    ensures Separable('|', Map(TriText, ts))
  {
    forall i | 0 <= i < |ts|
      ensures Map(TriText, ts)[i] != "" && '|' !in Map(TriText, ts)[i]
    {
      TriTextCharacters(ts[i]);
    }
  }

  /** The text determines the triangle list it was written from. */
  lemma MeshTextInjective(a: seq<Tri>, b: seq<Tri>)
    requires MeshText(a) == MeshText(b)
    ensures a == b
  {
    TrisSeparable(a);
    TrisSeparable(b);
    JoinInjective('|', Map(TriText, a), Map(TriText, b));
    SameTexts(a, b);
  }

  lemma SameTexts(a: seq<Tri>, b: seq<Tri>)
    requires Map(TriText, a) == Map(TriText, b)
    ensures a == b
  {
    assert |a| == |Map(TriText, a)| == |b|;
    forall i | 0 <= i < |a|
      ensures a[i] == b[i]
    {
      assert Map(TriText, a)[i] == Map(TriText, b)[i];
      TriTextInjective(a[i], b[i]);
    }
  }

  // -------------------------------------------------------- measured geometry

  const POINT_SCALE := 100_000.0

  /** Float#round on exact reals: halves go away from zero. */
  function Round(x: real): int {
    if x >= 0.0 then (x + 0.5).Floor else -((-x + 0.5).Floor)
  }

  function LeastReal(xs: seq<real>): (m: real)
    requires xs != []
    ensures m in xs && forall x :: x in xs ==> m <= x
  {
    if |xs| == 1 then xs[0]
    else
      var rest := LeastReal(xs[1..]);
      assert xs == [xs[0]] + xs[1..];
      if xs[0] < rest then xs[0] else rest
  }

  function Vertices(ts: seq<Triangle>): (vs: seq<Vec>)
    ensures ts != [] ==> vs != []
  {
    if ts == [] then [] else Vertices(ts[..|ts| - 1]) + [ts[|ts| - 1].a, ts[|ts| - 1].b, ts[|ts| - 1].c]
  }

  function VecX(v: Vec): real { v.x }
  function VecY(v: Vec): real { v.y }
  function VecZ(v: Vec): real { v.z }

  function Minimums(ts: seq<Triangle>): Vec
    requires ts != []
  {
    var vs := Vertices(ts);
    Vec(LeastReal(Map(VecX, vs)), LeastReal(Map(VecY, vs)), LeastReal(Map(VecZ, vs)))
  }

  function GridPoint(v: Vec, m: Vec): Point {
    Point(Round((v.x - m.x) * POINT_SCALE), Round((v.y - m.y) * POINT_SCALE), Round((v.z - m.z) * POINT_SCALE))
  }

  function OnGrid(ts: seq<Triangle>, m: Vec): (r: seq<Tri>)
    ensures |r| == |ts|
    ensures forall i :: 0 <= i < |ts| ==> r[i] == Tri(GridPoint(ts[i].a, m), GridPoint(ts[i].b, m), GridPoint(ts[i].c, m))
  {
    seq(|ts|, i requires 0 <= i < |ts| => Tri(GridPoint(ts[i].a, m), GridPoint(ts[i].b, m), GridPoint(ts[i].c, m)))
  }

  /** The text Analyzer.normalized_geometry_hash digests. */
  function GeometryText(ts: seq<Triangle>): string {
    if ts == [] then "" else MeshText(SortedMesh(OnGrid(ts, Minimums(ts))))
  }

  /** Measured meshes have the same text exactly when, shifted to the origin and
      rounded to the grid, they are the same triangles. */
  lemma GeometryTextExactly(a: seq<Triangle>, b: seq<Triangle>)
    requires a != [] && b != []
    ensures GeometryText(a) == GeometryText(b) <==> SameMesh(OnGrid(a, Minimums(a)), OnGrid(b, Minimums(b)))
  {
    var x, y := OnGrid(a, Minimums(a)), OnGrid(b, Minimums(b));
    SortedMeshExactly(x, y);
    if GeometryText(a) == GeometryText(b) {
      MeshTextInjective(SortedMesh(x), SortedMesh(y));
    }
  }

  /** A grid mesh, measured in millimetres. */
  function MeasuredPoint(p: Point): Vec {
    Vec(p.x as real / POINT_SCALE, p.y as real / POINT_SCALE, p.z as real / POINT_SCALE)
  }

  function Measured(ts: seq<Tri>): (r: seq<Triangle>)
    ensures |r| == |ts|
    ensures forall i :: 0 <= i < |ts| ==> r[i] == Triangle(MeasuredPoint(ts[i].a), MeasuredPoint(ts[i].b), MeasuredPoint(ts[i].c))
  {
    seq(|ts|, i requires 0 <= i < |ts| => Triangle(MeasuredPoint(ts[i].a), MeasuredPoint(ts[i].b), MeasuredPoint(ts[i].c)))
  }

  lemma MeasuredBack(p: Point, m: Point)
    ensures GridPoint(MeasuredPoint(p), MeasuredPoint(m)) == Minus(p, m)
  {
  }

  lemma {:induction false} VerticesOfMeasured(ts: seq<Tri>)
    ensures |Vertices(Measured(ts))| == |Points(ts)|
    ensures forall i :: 0 <= i < |Points(ts)| ==> Vertices(Measured(ts))[i] == MeasuredPoint(Points(ts)[i])
  {
    if ts != [] {
      var front := ts[..|ts| - 1];
      VerticesOfMeasured(front);
      assert Measured(ts)[..|ts| - 1] == Measured(front);
    }
  }

  lemma LeastOfMeasured(axis: Point -> int, axisReal: Vec -> real, ps: seq<Point>, vs: seq<Vec>)
    requires ps != [] && |vs| == |ps|
    requires forall i :: 0 <= i < |ps| ==> axisReal(vs[i]) == axis(ps[i]) as real / POINT_SCALE
    ensures LeastReal(Map(axisReal, vs)) == Least(Map(axis, ps)) as real / POINT_SCALE
  {
    var xs, ys := Map(axis, ps), Map(axisReal, vs);
    var i :| 0 <= i < |xs| && xs[i] == Least(xs);
    assert ys[i] in ys;
    var j :| 0 <= j < |ys| && ys[j] == LeastReal(ys);
    assert xs[j] in xs;
  }

  lemma MeasuredTriangles(ts: seq<Tri>, m: Point)
    ensures OnGrid(Measured(ts), MeasuredPoint(m)) == Moved(ts, m)
  {
    forall i | 0 <= i < |ts|
      ensures OnGrid(Measured(ts), MeasuredPoint(m))[i] == Moved(ts, m)[i]
    {
      MeasuredBack(ts[i].a, m);
      MeasuredBack(ts[i].b, m);
      MeasuredBack(ts[i].c, m);
    }
  }

  lemma MinimumsOfMeasured(ts: seq<Tri>)
    requires ts != []
    ensures Minimums(Measured(ts)) == MeasuredPoint(Minimum(ts))
  {
    VerticesOfMeasured(ts);
    LeastOfMeasured(AxisX, VecX, Points(ts), Vertices(Measured(ts)));
    LeastOfMeasured(AxisY, VecY, Points(ts), Vertices(Measured(ts)));
    LeastOfMeasured(AxisZ, VecZ, Points(ts), Vertices(Measured(ts)));
  }

  lemma TextOfMeasured(ts: seq<Tri>)
    ensures GeometryText(Measured(ts)) == MeshText(Canonical(ts))
  {
    if ts != [] {
      MinimumsOfMeasured(ts);
      MeasuredTriangles(ts, Minimum(ts));
    }
  }

  /** On the grid the hashed text is a complete invariant: two meshes share it
      exactly when one is the other up to translation, triangle order and the
      order of corners within triangles. */
  lemma GeometryTextIsCompleteInvariant(a: seq<Tri>, b: seq<Tri>)
    ensures GeometryText(Measured(a)) == GeometryText(Measured(b)) <==> exists v :: SameMesh(Moved(a, v), b)
  {
    TextOfMeasured(a);
    TextOfMeasured(b);
    CanonicalExactly(a, b);
    if MeshText(Canonical(a)) == MeshText(Canonical(b)) {
      MeshTextInjective(Canonical(a), Canonical(b));
    }
  }
}
