/** Ray/triangle intersection, in exact arithmetic. */
module RayTriangle {
  import opened Wrappers

  datatype Vec = Vec(x: real, y: real, z: real)

  datatype Triangle = Triangle(a: Vec, b: Vec, c: Vec)

  const RAY_EPSILON := 0.00001

  function Add(p: Vec, q: Vec): Vec {
    Vec(p.x + q.x, p.y + q.y, p.z + q.z)
  }

  function Subtract(p: Vec, q: Vec): Vec {
    Vec(p.x - q.x, p.y - q.y, p.z - q.z)
  }

  function Scale(k: real, p: Vec): Vec {
    Vec(k * p.x, k * p.y, k * p.z)
  }

  function Dot(p: Vec, q: Vec): real {
    p.x * q.x + p.y * q.y + p.z * q.z
  }

  function Cross(p: Vec, q: Vec): Vec {
    Vec(p.y * q.z - p.z * q.y, p.z * q.x - p.x * q.z, p.x * q.y - p.y * q.x)
  }

  // ---------------------------------------------------- products distribute

  lemma DotCrossSelf(p: Vec, q: Vec)
    ensures Dot(p, Cross(p, q)) == 0.0 && Dot(q, Cross(p, q)) == 0.0
  {
  }

  /** The scalar triple product turns round its factors. */
  lemma TripleTurns(p: Vec, q: Vec, r: Vec)
    ensures Dot(p, Cross(q, r)) == Dot(q, Cross(r, p)) == Dot(r, Cross(p, q))
  {
    TripleIsDotCross(p, q, r);
    TripleIsDotCross(q, r, p);
    TripleIsDotCross(r, p, q);
  }

  function Triple(p: Vec, q: Vec, r: Vec): real {
    p.x * q.y * r.z - p.x * q.z * r.y + p.y * q.z * r.x - p.y * q.x * r.z + p.z * q.x * r.y - p.z * q.y * r.x
  }

  lemma TripleIsDotCross(p: Vec, q: Vec, r: Vec)
    ensures Dot(p, Cross(q, r)) == Triple(p, q, r)
  {
  }

  function Turned(p: Vec): Vec {
    Vec(p.y, p.z, p.x)
  }

  lemma CramerFirst(s: Vec, d: Vec, e: Vec, f: Vec)
    ensures Triple(e, d, f) * s.x == Triple(s, d, f) * e.x + Triple(d, s, e) * f.x - Triple(f, s, e) * d.x
  {
  }

  // ------------------------------------------------------------ the intersection

  function EdgeOne(tri: Triangle): Vec {
    Subtract(tri.b, tri.a)
  }

  function EdgeTwo(tri: Triangle): Vec {
    Subtract(tri.c, tri.a)
  }

  function Determinant(direction: Vec, tri: Triangle): real {
    Dot(EdgeOne(tri), Cross(direction, EdgeTwo(tri)))
  }

  function Abs(x: real): real {
    if x < 0.0 then -x else x
  }

  /** The determinant, and u, v and the distance times the determinant. */
  datatype Numbers = Numbers(determinant: real, u: real, v: real, distance: real)

  function NumbersOf(origin: Vec, direction: Vec, tri: Triangle): Numbers {
    var edgeOne, edgeTwo := EdgeOne(tri), EdgeTwo(tri);
    var h := Cross(direction, edgeTwo);
    var s := Subtract(origin, tri.a);
    var q := Cross(s, edgeOne);
    Numbers(Dot(edgeOne, h), Dot(s, h), Dot(direction, q), Dot(edgeTwo, q))
  }

  /** The checks of ray_distance, one after the other. */
  function Checked(u: real, v: real, distance: real): Option<real> {
    if u < 0.0 || u > 1.0 then None
    else if v < 0.0 || u + v > 1.0 then None
    else if distance > RAY_EPSILON then Some(distance)
    else None
  }

  function Inverse(x: real): real
    requires x != 0.0
  {
    1.0 / x
  }

  function Times(x: real, y: real): real {
    x * y
  }

  function Decide(n: Numbers): Option<real> {
    if Abs(n.determinant) < RAY_EPSILON then None
    else
      var inverse := Inverse(n.determinant);
      Checked(Times(inverse, n.u), Times(inverse, n.v), Times(inverse, n.distance))
  }

  lemma DecideGives(n: Numbers) returns (u: real, v: real, t: real)
    requires Decide(n).Some?
    ensures n.determinant != 0.0
    ensures u == Times(Inverse(n.determinant), n.u) && v == Times(Inverse(n.determinant), n.v) && t == Times(Inverse(n.determinant), n.distance)
    ensures 0.0 <= u && 0.0 <= v && u + v <= 1.0 && Decide(n).value == t > RAY_EPSILON
  {
    var inverse := Inverse(n.determinant);
    u, v, t := Times(inverse, n.u), Times(inverse, n.v), Times(inverse, n.distance);
  }

  lemma DecideFinds(n: Numbers, u: real, v: real, t: real)
    requires Abs(n.determinant) >= RAY_EPSILON
    requires n.u == u * n.determinant && n.v == v * n.determinant && n.distance == t * n.determinant
    requires 0.0 <= u && 0.0 <= v && u + v <= 1.0 && t > RAY_EPSILON
    ensures Decide(n) == Some(t)
  {
    CancelDeterminant(n.determinant, u, n.u);
    CancelDeterminant(n.determinant, v, n.v);
    CancelDeterminant(n.determinant, t, n.distance);
  }

  lemma CancelDeterminant(det: real, x: real, y: real)
    requires det != 0.0 && y == x * det
    ensures Times(Inverse(det), y) == x
  {
  }

  /** Analyzer.ray_distance. */
  function RayDistance(origin: Vec, direction: Vec, tri: Triangle): Option<real> {
    Decide(NumbersOf(origin, direction, tri))
  }

  /** The ray is at the triangle's point with barycentric weights u and v after
      travelling t. */
  predicate MeetsAt(origin: Vec, direction: Vec, tri: Triangle, u: real, v: real, t: real) {
    && 0.0 <= u && 0.0 <= v && u + v <= 1.0
    && Add(origin, Scale(t, direction)) == Add(tri.a, Add(Scale(u, EdgeOne(tri)), Scale(v, EdgeTwo(tri))))
  }

  predicate Quotients(n: Numbers, u: real, v: real, t: real) {
    && n.determinant != 0.0
    && u == Times(Inverse(n.determinant), n.u) && v == Times(Inverse(n.determinant), n.v)
    && t == Times(Inverse(n.determinant), n.distance)
  }

  predicate FirstCoordinate(s: Vec, d: Vec, e: Vec, f: Vec, u: real, v: real, t: real) {
    s.x + t * d.x == u * e.x + v * f.x
  }

  lemma AllCoordinates(s: Vec, d: Vec, e: Vec, f: Vec, u: real, v: real, t: real)
    requires FirstCoordinate(s, d, e, f, u, v, t)
    requires FirstCoordinate(Turned(s), Turned(d), Turned(e), Turned(f), u, v, t)
    requires FirstCoordinate(Turned(Turned(s)), Turned(Turned(d)), Turned(Turned(e)), Turned(Turned(f)), u, v, t)
    ensures Add(s, Scale(t, d)) == Add(Scale(u, e), Scale(v, f))
  {
  }

  /** The numbers of an intersection as triple products. */
  predicate AreTriples(s: Vec, d: Vec, e: Vec, f: Vec, n: Numbers) {
    n == Numbers(Triple(e, d, f), Triple(s, d, f), Triple(d, s, e), Triple(f, s, e)) && n.determinant != 0.0
  }

  lemma RayEquationFirst(s: Vec, d: Vec, e: Vec, f: Vec, n: Numbers, u: real, v: real, t: real)
    requires AreTriples(s, d, e, f, n)
    requires Quotients(n, u, v, t)
    ensures FirstCoordinate(s, d, e, f, u, v, t)
  {
  }

  /** Cramer's rule solves the ray equation in every coordinate. */
  lemma RayEquation(s: Vec, d: Vec, e: Vec, f: Vec, n: Numbers, u: real, v: real, t: real)
    requires AreTriples(s, d, e, f, n)
    requires Quotients(n, u, v, t)
    ensures Add(s, Scale(t, d)) == Add(Scale(u, e), Scale(v, f))
  {
    RayEquationFirst(s, d, e, f, n, u, v, t);
    var ss, dd, ee, ff := Turned(s), Turned(d), Turned(e), Turned(f);
    TurnedAlike(s, d, e, f, n);
    RayEquationFirst(ss, dd, ee, ff, n, u, v, t);
    TurnedAlike(ss, dd, ee, ff, n);
    RayEquationFirst(Turned(ss), Turned(dd), Turned(ee), Turned(ff), n, u, v, t);
    AllCoordinates(s, d, e, f, u, v, t);
  }

  lemma TurnedAlike(s: Vec, d: Vec, e: Vec, f: Vec, n: Numbers)
    requires AreTriples(s, d, e, f, n)
    ensures AreTriples(Turned(s), Turned(d), Turned(e), Turned(f), n)
  {
  }

  /** A returned distance is beyond epsilon and ends on the triangle. */
  lemma RayDistanceIsSound(origin: Vec, direction: Vec, tri: Triangle)
    requires RayDistance(origin, direction, tri).Some?
    ensures var t := RayDistance(origin, direction, tri).value;
      t > RAY_EPSILON && exists u, v :: MeetsAt(origin, direction, tri, u, v, t)
  {
    var e, f, s, d := EdgeOne(tri), EdgeTwo(tri), Subtract(origin, tri.a), direction;
    var n := NumbersOf(origin, direction, tri);
    var u, v, t := DecideGives(n);
    NumbersAreTriples(s, d, e, f, n);
    RayEquation(s, d, e, f, n, u, v, t);
    assert MeetsAt(origin, direction, tri, u, v, t);
  }

  lemma NumbersAreTriples(s: Vec, d: Vec, e: Vec, f: Vec, n: Numbers)
    requires n == Numbers(Dot(e, Cross(d, f)), Dot(s, Cross(d, f)), Dot(d, Cross(s, e)), Dot(f, Cross(s, e)))
    ensures n == Numbers(Triple(e, d, f), Triple(s, d, f), Triple(d, s, e), Triple(f, s, e))
  {
    TripleIsDotCross(e, d, f);
    TripleIsDotCross(s, d, f);
    TripleIsDotCross(d, s, e);
    TripleIsDotCross(f, s, e);
  }

  /** The three numerators of a genuine hit are u, v and t times the determinant. */
  lemma HitNumerators(s: Vec, d: Vec, e: Vec, f: Vec, u: real, v: real, t: real, n: Numbers)
    requires Add(s, Scale(t, d)) == Add(Scale(u, e), Scale(v, f))
    requires n == Numbers(Dot(e, Cross(d, f)), Dot(s, Cross(d, f)), Dot(d, Cross(s, e)), Dot(f, Cross(s, e)))
    ensures n.u == u * n.determinant && n.v == v * n.determinant && n.distance == t * n.determinant
  {
    Weighted(s, d, e, f, u, v, t, Cross(d, f));
    DotCrossSelf(d, f);
    TripleTurns(d, s, e);
    Weighted(s, d, e, f, u, v, t, Cross(e, d));
    DotCrossSelf(e, d);
    TripleTurns(f, e, d);
    TripleTurns(f, s, e);
    Weighted(s, d, e, f, u, v, t, Cross(e, f));
    DotCrossSelf(e, f);
    TripleIsDotCross(d, e, f);
    TripleIsDotCross(e, d, f);
  }

  lemma Weighted(s: Vec, d: Vec, e: Vec, f: Vec, u: real, v: real, t: real, r: Vec)
    requires Add(s, Scale(t, d)) == Add(Scale(u, e), Scale(v, f))
    ensures Dot(s, r) + t * Dot(d, r) == u * Dot(e, r) + v * Dot(f, r)
  {
  }

  /** Unless the ray is nearly parallel to the triangle, every hit beyond epsilon
      is found, and at its own distance. */
  lemma RayDistanceIsComplete(origin: Vec, direction: Vec, tri: Triangle, u: real, v: real, t: real)
    requires Abs(Determinant(direction, tri)) >= RAY_EPSILON && t > RAY_EPSILON
    requires MeetsAt(origin, direction, tri, u, v, t)
    ensures RayDistance(origin, direction, tri) == Some(t)
  {
    var e, f, s := EdgeOne(tri), EdgeTwo(tri), Subtract(origin, tri.a);
    var n := NumbersOf(origin, direction, tri);
    HitNumerators(s, direction, e, f, u, v, t, n);
    DecideFinds(n, u, v, t);
  }

  // --------------------------------------------------------- in the coordinates

  /** After travelling t the ray is at the corners' mean with weights 1 - u - v, u
      and v. */
  predicate Reaches(o: Vec, d: Vec, tri: Triangle, u: real, v: real, t: real) {
    && 0.0 <= u && 0.0 <= v && u + v <= 1.0
    && o.x + t * d.x == Mean(tri.a.x, tri.b.x, tri.c.x, u, v)
    && o.y + t * d.y == Mean(tri.a.y, tri.b.y, tri.c.y, u, v)
    && o.z + t * d.z == Mean(tri.a.z, tri.b.z, tri.c.z, u, v)
  }

  function Mean(a: real, b: real, c: real, u: real, v: real): real {
    (1.0 - u - v) * a + u * b + v * c
  }

  /** How fast the ray crosses the triangle's plane: the direction's product with
      the triangle's doubled area vector. */
  function Slant(d: Vec, tri: Triangle): real {
    var ex, ey, ez := tri.b.x - tri.a.x, tri.b.y - tri.a.y, tri.b.z - tri.a.z;
    var fx, fy, fz := tri.c.x - tri.a.x, tri.c.y - tri.a.y, tri.c.z - tri.a.z;
    d.x * (ey * fz - ez * fy) + d.y * (ez * fx - ex * fz) + d.z * (ex * fy - ey * fx)
  }

  lemma MeanFromEdges(a: real, b: real, c: real, u: real, v: real)
    ensures a + (u * (b - a) + v * (c - a)) == Mean(a, b, c, u, v)
  {
  }

  lemma ReachesExactly(o: Vec, d: Vec, tri: Triangle, u: real, v: real, t: real)
    ensures MeetsAt(o, d, tri, u, v, t) <==> Reaches(o, d, tri, u, v, t)
  {
    MeanFromEdges(tri.a.x, tri.b.x, tri.c.x, u, v);
    MeanFromEdges(tri.a.y, tri.b.y, tri.c.y, u, v);
    MeanFromEdges(tri.a.z, tri.b.z, tri.c.z, u, v);
  }

  lemma SlantIsDeterminant(d: Vec, tri: Triangle)
    ensures Determinant(d, tri) == -Slant(d, tri)
  {
    var e, f := EdgeOne(tri), EdgeTwo(tri);
    assert Slant(d, tri) == Dot(d, Cross(e, f));
    TripleIsDotCross(d, e, f);
    TripleIsDotCross(e, d, f);
    TripleFlips(d, e, f);
  }

  lemma TripleFlips(p: Vec, q: Vec, r: Vec)
    ensures Triple(q, p, r) == -Triple(p, q, r)
  {
  }

  /** A triangle the ray meets squarely at t, beyond a hundred-thousandth. */
  ghost predicate HitAt(origin: Vec, direction: Vec, tri: Triangle, t: real) {
    && Abs(Slant(direction, tri)) >= 0.00001 && t > 0.00001
    && exists u, v :: Reaches(origin, direction, tri, u, v, t)
  }

  /** The distance decides hits completely. */
  lemma RayDistanceExactly(origin: Vec, direction: Vec, tri: Triangle, t: real)
    ensures RayDistance(origin, direction, tri) == Some(t) <==> HitAt(origin, direction, tri, t)
  {
    SlantIsDeterminant(direction, tri);
    if RayDistance(origin, direction, tri) == Some(t) {
      RayDistanceIsSound(origin, direction, tri);
      var u, v :| MeetsAt(origin, direction, tri, u, v, t);
      ReachesExactly(origin, direction, tri, u, v, t);
    } else if Abs(Determinant(direction, tri)) >= RAY_EPSILON && t > RAY_EPSILON {
      if u, v :| Reaches(origin, direction, tri, u, v, t) {
        ReachesExactly(origin, direction, tri, u, v, t);
        RayDistanceIsComplete(origin, direction, tri, u, v, t);
      }
    }
  }

  /** The nearest hit over all triangles, as the wall sampling asks for it:
      filter_map of the distances, then min. */
  function NearestHit(origin: Vec, direction: Vec, triangles: seq<Triangle>): Option<real> {
    if triangles == [] then None
    else
      var rest := NearestHit(origin, direction, triangles[..|triangles| - 1]);
      var last := RayDistance(origin, direction, triangles[|triangles| - 1]);
      if last.None? then rest
      else if rest.None? || last.value < rest.value then last
      else rest
  }

  /** The answer is a hit on one of the triangles, and no hit is nearer. */
  lemma {:induction false} NearestHitIsNearest(origin: Vec, direction: Vec, triangles: seq<Triangle>)
    ensures var nearest := NearestHit(origin, direction, triangles);
      && (nearest.Some? ==> exists tri :: tri in triangles && HitAt(origin, direction, tri, nearest.value))
      && (forall tri, t :: tri in triangles && HitAt(origin, direction, tri, t) ==> nearest.Some? && nearest.value <= t)
  {
    if triangles != [] {
      var front, last := triangles[..|triangles| - 1], triangles[|triangles| - 1];
      var nearest := NearestHit(origin, direction, triangles);
      NearestHitIsNearest(origin, direction, front);
      assert triangles == front + [last];
      if nearest.Some? {
        if nearest == RayDistance(origin, direction, last) {
          RayDistanceExactly(origin, direction, last, nearest.value);
          assert last in triangles && HitAt(origin, direction, last, nearest.value);
        } else {
          var tri :| tri in front && HitAt(origin, direction, tri, nearest.value);
          assert tri in triangles;
        }
      }
      forall tri, t | tri in triangles && HitAt(origin, direction, tri, t)
        ensures nearest.Some? && nearest.value <= t
      {
        if tri == last {
          RayDistanceExactly(origin, direction, last, t);
        } else {
          assert tri in front;
        }
      }
    }
  }
}
