/** Counting the edges of a mesh: when the counts call it closed, it is. */
module MeshEdges {
  import opened Bags
  import opened GeometryForm
  import opened GridMesh
  import opened RayTriangle
  import opened Sorting
  import opened Sums

  type Edge = (Point, Point)

  datatype Report = Report(triangles: nat, degenerate: nat, boundary: nat, nonManifold: nat)

  /** The corners of the doubled area vector: (b - a) x (c - a). */
  function AreaVector(t: Tri): Point {
    var u, v := Minus(t.b, t.a), Minus(t.c, t.a);
    Point(u.y * v.z - u.z * v.y, u.z * v.x - u.x * v.z, u.x * v.y - u.y * v.x)
  }

  predicate Degenerate(t: Tri) {
    AreaVector(t) == Point(0, 0, 0)
  }

  /** An undirected edge: its end points in ascending order. */
  function EdgeOf(p: Point, q: Point): Edge {
    if Less(PointKey(q), PointKey(p)) then (q, p) else (p, q)
  }

  function Edges(t: Tri): seq<Edge> {
    [EdgeOf(t.a, t.b), EdgeOf(t.b, t.c), EdgeOf(t.c, t.a)]
  }

  lemma EdgesMeet(p: Point, q: Point, r: Point, s: Point)
    ensures EdgeOf(p, q) == EdgeOf(r, s) <==> (p == r && q == s) || (p == s && q == r)
  {
    if p == s && q == r {
      LessTotal(PointKey(p), PointKey(q));
      PointKeysDiffer([p, q]);
      assert p in [p, q] && q in [p, q];
      if Less(PointKey(p), PointKey(q)) {
        LessAsymmetric(PointKey(p), PointKey(q));
      }
    }
  }

  /** The two points are corners of the triangle, in either order. */
  predicate IsSide(t: Tri, p: Point, q: Point) {
    || (p == t.a && q == t.b) || (p == t.b && q == t.a)
    || (p == t.b && q == t.c) || (p == t.c && q == t.b)
    || (p == t.c && q == t.a) || (p == t.a && q == t.c)
  }

  /** A triangle has three edges, its sides without direction. */
  lemma EdgesAreSides(t: Tri, p: Point, q: Point)
    ensures EdgeOf(p, q) in Edges(t) <==> IsSide(t, p, q)
    ensures EdgeOf(p, q) == EdgeOf(q, p) && (EdgeOf(p, q) == (p, q) || EdgeOf(p, q) == (q, p))
    ensures |Edges(t)| == 3 && forall e :: e in Edges(t) ==> IsSide(t, e.0, e.1)
  {
    EdgesMeet(p, q, q, p);
    EdgesMeet(p, q, t.a, t.b);
    EdgesMeet(p, q, t.b, t.c);
    EdgesMeet(p, q, t.c, t.a);
  }

  lemma CornersDiffer(t: Tri)
    requires !Degenerate(t)
    ensures t.a != t.b && t.b != t.c && t.c != t.a
  {
  }

  lemma EdgesDiffer(t: Tri)
    requires !Degenerate(t)
    ensures Edges(t)[0] != Edges(t)[1] && Edges(t)[1] != Edges(t)[2] && Edges(t)[0] != Edges(t)[2]
  {
    CornersDiffer(t);
    EdgesMeet(t.a, t.b, t.b, t.c);
    EdgesMeet(t.b, t.c, t.c, t.a);
    EdgesMeet(t.a, t.b, t.c, t.a);
  }

  // ------------------------------------------------------------------ counting

  function AddUse(m: map<Edge, nat>, e: Edge): map<Edge, nat> {
    m[e := (if e in m then m[e] else 0) + 1]
  }

  function AddTri(m: map<Edge, nat>, t: Tri): map<Edge, nat> {
    if Degenerate(t) then m
    else AddUse(AddUse(AddUse(m, Edges(t)[0]), Edges(t)[1]), Edges(t)[2])
  }

  /** The edge hash after the loop. */
  function EdgeUses(ts: seq<Tri>): map<Edge, nat> {
    if ts == [] then map[] else AddTri(EdgeUses(ts[..|ts| - 1]), ts[|ts| - 1])
  }

  /** A proper triangle with the edge. */
  function Owns(e: Edge): Tri -> bool {
    (t: Tri) => !Degenerate(t) && e in Edges(t)
  }

  function CountTrue(bs: seq<bool>): nat {
    multiset(bs)[true]
  }

  lemma CountTrueSnoc(bs: seq<bool>, b: bool)
    ensures CountTrue(bs + [b]) == CountTrue(bs) + (if b then 1 else 0)
  {
  }

  function Owners(ts: seq<Tri>, e: Edge): nat {
    CountTrue(Map(Owns(e), ts))
  }

  function DegenerateCount(ts: seq<Tri>): nat {
    CountTrue(Map(Degenerate, ts))
  }

  lemma OwnersSnoc(ts: seq<Tri>, t: Tri, e: Edge)
    ensures Owners(ts + [t], e) == Owners(ts, e) + (if !Degenerate(t) && e in Edges(t) then 1 else 0)
  {
    MapConcat(Owns(e), ts, [t]);
    assert Map(Owns(e), [t]) == [!Degenerate(t) && e in Edges(t)];
    CountTrueSnoc(Map(Owns(e), ts), !Degenerate(t) && e in Edges(t));
  }

  lemma AddTriAt(m: map<Edge, nat>, t: Tri, e: Edge)
    ensures (if e in AddTri(m, t) then AddTri(m, t)[e] else 0)
         == (if e in m then m[e] else 0) + (if !Degenerate(t) && e in Edges(t) then 1 else 0)
    ensures e in AddTri(m, t) <==> e in m || (!Degenerate(t) && e in Edges(t))
  {
    if !Degenerate(t) {
      EdgesDiffer(t);
      assert e in Edges(t) <==> e == Edges(t)[0] || e == Edges(t)[1] || e == Edges(t)[2];
    }
  }

  /** The hash holds exactly the edges of proper triangles, each with the number
      of triangles it belongs to. */
  lemma {:induction false} EdgeUsesAreOwners(ts: seq<Tri>, e: Edge)
    ensures e in EdgeUses(ts) <==> Owners(ts, e) > 0
    ensures e in EdgeUses(ts) ==> EdgeUses(ts)[e] == Owners(ts, e)
  {
    if ts != [] {
      var front, last := ts[..|ts| - 1], ts[|ts| - 1];
      assert ts == front + [last];
      EdgeUsesAreOwners(front, e);
      OwnersSnoc(front, last, e);
      AddTriAt(EdgeUses(front), last, e);
    }
  }

  lemma AddUseTotal(m: map<Edge, nat>, e: Edge)
    ensures Total(AddUse(m, e)) == Total(m) + 1
  {
    if e in m {
      TotalRemove(m, e);
      TotalRemove(AddUse(m, e), e);
      assert AddUse(m, e) - {e} == m - {e};
    } else {
      TotalInsert(m, e, 1);
    }
  }

  /** Every proper triangle puts in three edges. */
  lemma {:induction false} ThreeEdgesEach(ts: seq<Tri>)
    ensures Total(EdgeUses(ts)) + 3 * DegenerateCount(ts) == 3 * |ts|
  {
    if ts != [] {
      var front, last := ts[..|ts| - 1], ts[|ts| - 1];
      assert ts == front + [last];
      ThreeEdgesEach(front);
      MapConcat(Degenerate, front, [last]);
      assert Map(Degenerate, [last]) == [Degenerate(last)];
      CountTrueSnoc(Map(Degenerate, front), Degenerate(last));
      if !Degenerate(last) {
        var m := EdgeUses(front);
        var e := Edges(last);
        AddUseTotal(m, e[0]);
        AddUseTotal(AddUse(m, e[0]), e[1]);
        AddUseTotal(AddUse(AddUse(m, e[0]), e[1]), e[2]);
      }
    }
  }

  function BoundaryEdges(m: map<Edge, nat>): set<Edge> {
    set e | e in m && m[e] == 1
  }

  function CrowdedEdges(m: map<Edge, nat>): set<Edge> {
    set e | e in m && m[e] > 2
  }

  function Inspection(ts: seq<Tri>): Report {
    Report(|ts|, DegenerateCount(ts), |BoundaryEdges(EdgeUses(ts))|, |CrowdedEdges(EdgeUses(ts))|)
  }

  /** A triangle's corners on the grid of hundred-thousandths. */
  function GridTri(t: Triangle): Tri {
    Tri(GridPoint(t.a, Vec(0.0, 0.0, 0.0)), GridPoint(t.b, Vec(0.0, 0.0, 0.0)), GridPoint(t.c, Vec(0.0, 0.0, 0.0)))
  }

  /** One proper triangle's turn of the loop. */
  method CountEdges(edges: map<Edge, nat>, t: Tri) returns (r: map<Edge, nat>)
    requires !Degenerate(t)
    ensures r == AddTri(edges, t)
  {
    r := edges;
    var j := 0;
    while j < 3
      invariant j <= 3 && r == AddSome(edges, t, j)
    {
      var e := Edges(t)[j];
      r := r[e := (if e in r then r[e] else 0) + 1];
      j := j + 1;
    }
    assert AddSome(edges, t, 3) == AddUse(AddSome(edges, t, 2), Edges(t)[2]);
    assert AddSome(edges, t, 2) == AddUse(AddSome(edges, t, 1), Edges(t)[1]);
  }

  lemma InspectOneMore(ts: seq<Tri>, t: Tri)
    ensures EdgeUses(ts + [t]) == AddTri(EdgeUses(ts), t)
    ensures DegenerateCount(ts + [t]) == DegenerateCount(ts) + (if Degenerate(t) then 1 else 0)
  {
    assert (ts + [t])[..|ts|] == ts;
    MapConcat(Degenerate, ts, [t]);
    assert Map(Degenerate, [t]) == [Degenerate(t)];
    CountTrueSnoc(Map(Degenerate, ts), Degenerate(t));
  }

  /** Analyzer.inspect_triangles, up to the counts of its report. */
  method InspectTriangles(ts: seq<Triangle>) returns (report: Report)
    ensures report == Inspection(Map(GridTri, ts))
  {
    var edges: map<Edge, nat> := map[];
    var degenerate := 0;
    var i := 0;
    ghost var grid := Map(GridTri, ts);
    while i < |ts|
      invariant i <= |ts|
      invariant edges == EdgeUses(grid[..i]) && degenerate == DegenerateCount(grid[..i])
    {
      var t := GridTri(ts[i]);
      assert grid[..i + 1] == grid[..i] + [t];
      InspectOneMore(grid[..i], t);
      if Degenerate(t) {
        degenerate := degenerate + 1;
      } else {
        edges := CountEdges(edges, t);
      }
      i := i + 1;
    }
    assert grid[..|ts|] == grid;
    report := Report(|ts|, degenerate, |BoundaryEdges(edges)|, |CrowdedEdges(edges)|);
  }

  function AddSome(m: map<Edge, nat>, t: Tri, j: nat): map<Edge, nat>
    requires j <= 3
  {
    if j == 0 then m else AddUse(AddSome(m, t, j - 1), Edges(t)[j - 1])
  }

  // -------------------------------------------------------------- closed meshes

  lemma {:induction false} TotalOfTwos(m: map<Edge, nat>)
    requires forall e :: e in m ==> m[e] == 2
    ensures Total(m) == 2 * |m|
    decreases |m|
  {
    if m != map[] {
      var e :| e in m;
      TotalRemove(m, e);
      TotalOfTwos(m - {e});
      assert (m - {e}).Keys == m.Keys - {e};
      assert |m| == |m.Keys| && |m - {e}| == |(m - {e}).Keys|;
    }
  }

  predicate TrueAt(bs: seq<bool>, i: nat, j: nat) {
    i < |bs| && j < |bs| && forall k :: 0 <= k < |bs| ==> (bs[k] <==> k == i || k == j)
  }

  lemma NoneTrue(bs: seq<bool>)
    requires CountTrue(bs) == 0
    ensures forall k :: 0 <= k < |bs| ==> !bs[k]
  {
    forall k | 0 <= k < |bs|
      ensures bs[k] in multiset(bs)
    {
    }
    assert true !in multiset(bs);
  }

  lemma {:induction false} OneTrue(bs: seq<bool>) returns (i: nat)
    requires CountTrue(bs) == 1
    ensures TrueAt(bs, i, i)
  {
    var front, last := bs[..|bs| - 1], |bs| - 1;
    assert bs == front + [bs[last]];
    CountTrueSnoc(front, bs[last]);
    if bs[last] {
      NoneTrue(front);
      i := last;
      assert forall k :: 0 <= k < last ==> bs[k] == front[k];
    } else {
      i := OneTrue(front);
      assert forall k :: 0 <= k < last ==> bs[k] == front[k];
    }
  }

  lemma {:induction false} TwoTrue(bs: seq<bool>) returns (i: nat, j: nat)
    requires CountTrue(bs) == 2
    ensures i < j && TrueAt(bs, i, j)
  {
    var front, last := bs[..|bs| - 1], |bs| - 1;
    assert bs == front + [bs[last]];
    CountTrueSnoc(front, bs[last]);
    if bs[last] {
      i := OneTrue(front);
      j := last;
      assert forall k :: 0 <= k < last ==> bs[k] == front[k];
    } else {
      i, j := TwoTrue(front);
      assert forall k :: 0 <= k < last ==> bs[k] == front[k];
    }
  }

  predicate HasEdge(t: Tri, e: Edge) {
    e in Edges(t)
  }

  /** i and j are the two triangles with the edge. */
  predicate JustTwo(ts: seq<Tri>, e: Edge, i: nat, j: nat) {
    i < j < |ts| && forall k :: 0 <= k < |ts| ==> (HasEdge(ts[k], e) <==> k == i || k == j)
  }

  ghost predicate Closed(r: Report) {
    r.degenerate == 0 && r.boundary == 0 && r.nonManifold == 0
  }

  ghost predicate AllProper(ts: seq<Tri>) {
    forall k :: 0 <= k < |ts| ==> !Degenerate(ts[k])
  }

  lemma NoneDegenerate(ts: seq<Tri>)
    requires DegenerateCount(ts) == 0
    ensures AllProper(ts)
  {
    NoneTrue(Map(Degenerate, ts));
    forall k | 0 <= k < |ts|
      ensures !Degenerate(ts[k])
    {
      assert Map(Degenerate, ts)[k] == Degenerate(ts[k]);
    }
  }

  lemma EveryUseIsTwo(ts: seq<Tri>, e: Edge)
    requires Closed(Inspection(ts)) && e in EdgeUses(ts)
    ensures EdgeUses(ts)[e] == 2
  {
    var m := EdgeUses(ts);
    EdgeUsesAreOwners(ts, e);
    assert e !in BoundaryEdges(m) && e !in CrowdedEdges(m);
  }

  lemma OwnedAt(ts: seq<Tri>, e: Edge, k: nat)
    requires AllProper(ts) && k < |ts|
    ensures Map(Owns(e), ts)[k] <==> HasEdge(ts[k], e)
  {
  }

  lemma OwnedSome(ts: seq<Tri>, e: Edge)
    requires AllProper(ts)
    ensures Owners(ts, e) > 0 <==> exists k :: 0 <= k < |ts| && HasEdge(ts[k], e)
  {
    var owned := Map(Owns(e), ts);
    if Owners(ts, e) == 0 {
      NoneTrue(owned);
      forall k | 0 <= k < |ts|
        ensures !HasEdge(ts[k], e)
      {
        OwnedAt(ts, e, k);
      }
    } else {
      assert true in multiset(owned);
      var l :| 0 <= l < |owned| && owned[l];
      OwnedAt(ts, e, l);
    }
  }

  lemma TwoOwners(ts: seq<Tri>, e: Edge)
    requires AllProper(ts) && Owners(ts, e) == 2
    ensures exists i, j :: JustTwo(ts, e, i, j)
  {
    var owned := Map(Owns(e), ts);
    var i, j := TwoTrue(owned);
    forall k | 0 <= k < |ts|
      ensures HasEdge(ts[k], e) <==> k == i || k == j
    {
      OwnedAt(ts, e, k);
    }
    assert JustTwo(ts, e, i, j);
  }

  /** A report without degenerate triangles, boundary edges or crowded edges means
      a closed surface: every edge of every triangle belongs to exactly two
      triangles. */
  lemma ClosedMeansTwoEach(ts: seq<Tri>, k: nat, e: Edge)
    requires Closed(Inspection(ts)) && k < |ts| && HasEdge(ts[k], e)
    ensures exists i, j :: JustTwo(ts, e, i, j)
  {
    NoneDegenerate(ts);
    OwnedSome(ts, e);
    EdgeUsesAreOwners(ts, e);
    EveryUseIsTwo(ts, e);
    TwoOwners(ts, e);
  }

  /** The counted edges are the edges of the triangles. */
  lemma EdgesAreCounted(ts: seq<Tri>, e: Edge)
    requires Closed(Inspection(ts))
    ensures e in EdgeUses(ts) <==> exists k :: 0 <= k < |ts| && HasEdge(ts[k], e)
  {
    NoneDegenerate(ts);
    EdgeUsesAreOwners(ts, e);
    OwnedSome(ts, e);
  }

  /** In a closed mesh three times the triangles are twice the edges. */
  lemma ClosedMeshCounts(ts: seq<Tri>)
    requires Closed(Inspection(ts))
    ensures 3 * |ts| == 2 * |EdgeUses(ts)|
  {
    ThreeEdgesEach(ts);
    forall e | e in EdgeUses(ts)
      ensures EdgeUses(ts)[e] == 2
    {
      EveryUseIsTwo(ts, e);
    }
    TotalOfTwos(EdgeUses(ts));
  }

  // ------------------------------------------------------- what the counts mean

  function Times(m: int, p: Point): Point {
    Point(m * p.x, m * p.y, m * p.z)
  }

  /** The corners lie on one line: some multiples of the two sides from the first
      corner, not both zero, are equal. */
  ghost predicate OnOneLine(t: Tri) {
    exists m: int, n: int :: (m != 0 || n != 0) && Times(m, Minus(t.b, t.a)) == Times(n, Minus(t.c, t.a))
  }

  lemma ProductsVanish(m: int, n: int, u: int, v: int, p: int, q: int)
    requires m * u == n * p && m * v == n * q && (m != 0 || n != 0)
    ensures u * q - v * p == 0
  {
    if m != 0 {
      assert m * (u * q - v * p) == (m * u) * q - (m * v) * p == n * p * q - n * q * p == 0;
    } else {
      assert n * p == 0 && n * q == 0;
      assert p == 0 && q == 0;
    }
  }

  /** A triangle counts as degenerate exactly when its corners lie on one line. */
  lemma DegenerateExactly(t: Tri)
    ensures Degenerate(t) <==> OnOneLine(t)
  {
    var u, v := Minus(t.b, t.a), Minus(t.c, t.a);
    if OnOneLine(t) {
      var m: int, n: int :| (m != 0 || n != 0) && Times(m, u) == Times(n, v);
      ProductsVanish(m, n, u.y, u.z, v.y, v.z);
      ProductsVanish(m, n, u.z, u.x, v.z, v.x);
      ProductsVanish(m, n, u.x, u.y, v.x, v.y);
    }
    if Degenerate(t) {
      FlatIsOnOneLine(t);
    }
  }

  lemma FlatIsOnOneLine(t: Tri)
    requires Degenerate(t)
    ensures OnOneLine(t)
  {
    var u, v := Minus(t.b, t.a), Minus(t.c, t.a);
    if u.x != 0 {
      assert Times(v.x, u) == Times(u.x, v);
    } else if u.y != 0 {
      assert Times(v.y, u) == Times(u.y, v);
    } else if u.z != 0 {
      assert Times(v.z, u) == Times(u.z, v);
    } else {
      assert Times(1, u) == Times(0, v);
    }
  }

  ghost function TrueIndices(bs: seq<bool>): set<nat> {
    set k: nat | k < |bs| && bs[k]
  }

  lemma {:induction false} CountTrueIsSize(bs: seq<bool>)
    ensures CountTrue(bs) == |TrueIndices(bs)|
  {
    if bs == [] {
      assert TrueIndices(bs) == {};
    } else {
      var front, n := bs[..|bs| - 1], |bs| - 1;
      assert bs == front + [bs[n]];
      CountTrueSnoc(front, bs[n]);
      CountTrueIsSize(front);
      if bs[n] {
        assert TrueIndices(bs) == TrueIndices(front) + {n};
      } else {
        assert TrueIndices(bs) == TrueIndices(front);
      }
    }
  }

  /** The edges of the mesh, and the proper triangles that have one. */
  ghost function EdgesOfMesh(ts: seq<Tri>): set<Edge> {
    set k: nat, e | k < |ts| && e in Edges(ts[k]) :: e
  }

  ghost function ProperWith(ts: seq<Tri>, e: Edge): set<nat> {
    set k: nat | k < |ts| && !Degenerate(ts[k]) && e in Edges(ts[k])
  }

  lemma OwnersAreProper(ts: seq<Tri>, e: Edge)
    ensures Owners(ts, e) == |ProperWith(ts, e)|
    ensures ProperWith(ts, e) != {} ==> e in EdgesOfMesh(ts)
  {
    var bs := Map(Owns(e), ts);
    CountTrueIsSize(bs);
    assert TrueIndices(bs) == ProperWith(ts, e);
    if k: nat :| k in ProperWith(ts, e) {
      assert e in Edges(ts[k]);
    }
  }

  /** The report in plain words: how many triangles are degenerate, how many edges
      belong to exactly one proper triangle, and how many to more than two. */
  lemma ReportCounts(ts: seq<Tri>)
    ensures var r := Inspection(ts);
      && r.triangles == |ts|
      && r.degenerate == |DegenerateOnes(ts)|
      && r.boundary == |OneOwner(ts)| && r.nonManifold == |ManyOwners(ts)|
  {
    CountTrueIsSize(Map(Degenerate, ts));
    assert TrueIndices(Map(Degenerate, ts)) == DegenerateOnes(ts);
    forall e
      ensures (e in EdgeUses(ts) && EdgeUses(ts)[e] == 1) <==> (e in EdgesOfMesh(ts) && |ProperWith(ts, e)| == 1)
      ensures (e in EdgeUses(ts) && EdgeUses(ts)[e] > 2) <==> (e in EdgesOfMesh(ts) && |ProperWith(ts, e)| > 2)
    {
      EdgeUsesAreOwners(ts, e);
      OwnersAreProper(ts, e);
    }
    assert BoundaryEdges(EdgeUses(ts)) == OneOwner(ts) && CrowdedEdges(EdgeUses(ts)) == ManyOwners(ts);
  }

  lemma NoneCounted<T>(s: set<T>)
    ensures |s| == 0 <==> s == {}
  {
  }

  /** The edges with one owner and those with more than two. */
  ghost function OneOwner(ts: seq<Tri>): set<Edge> {
    set e | e in EdgesOfMesh(ts) && |ProperWith(ts, e)| == 1
  }

  ghost function ManyOwners(ts: seq<Tri>): set<Edge> {
    set e | e in EdgesOfMesh(ts) && |ProperWith(ts, e)| > 2
  }

  lemma TwoOwnersExactly(ts: seq<Tri>)
    requires AllProper(ts)
    ensures OneOwner(ts) == {} && ManyOwners(ts) == {} <==> forall e :: e in EdgesOfMesh(ts) ==> |ProperWith(ts, e)| == 2
  {
    forall e | e in EdgesOfMesh(ts)
      ensures |ProperWith(ts, e)| > 0
    {
      var k: nat :| k < |ts| && e in Edges(ts[k]);
      assert k in ProperWith(ts, e);
    }
    if OneOwner(ts) == {} && ManyOwners(ts) == {} {
      forall e | e in EdgesOfMesh(ts)
        ensures |ProperWith(ts, e)| == 2
      {
        assert e !in OneOwner(ts) && e !in ManyOwners(ts);
      }
    }
  }

  ghost function DegenerateOnes(ts: seq<Tri>): set<nat> {
    set k: nat | k < |ts| && Degenerate(ts[k])
  }

  lemma AllProperExactly(ts: seq<Tri>)
    ensures AllProper(ts) <==> DegenerateOnes(ts) == {}
  {
    if DegenerateOnes(ts) == {} {
      forall k | 0 <= k < |ts|
        ensures !Degenerate(ts[k])
      {
        assert k !in DegenerateOnes(ts);
      }
    }
  }

  /** The three zero counts mean exactly that no triangle is degenerate and every
      edge belongs to two triangles. */
  lemma ClosedExactly(ts: seq<Tri>)
    ensures Closed(Inspection(ts)) <==> AllProper(ts) && forall e :: e in EdgesOfMesh(ts) ==> |ProperWith(ts, e)| == 2
  {
    ReportCounts(ts);
    NoneCounted(DegenerateOnes(ts));
    NoneCounted(OneOwner(ts));
    NoneCounted(ManyOwners(ts));
    AllProperExactly(ts);
    if AllProper(ts) {
      TwoOwnersExactly(ts);
    }
  }

  // ---------------------------------------------------------- order is immaterial

  predicate SwapsTo(t: Tri, u: Tri) {
    u == t || u == Tri(t.a, t.c, t.b) || u == Tri(t.b, t.a, t.c) || u == Tri(t.b, t.c, t.a)
    || u == Tri(t.c, t.a, t.b) || u == Tri(t.c, t.b, t.a)
  }

  lemma SameShapeSwaps(t: Tri, u: Tri)
    requires Shape(t) == Shape(u)
    ensures SwapsTo(t, u)
  {
    assert u.a in Shape(t) && u.b in Shape(t) && u.c in Shape(t);
    assert t.a in Shape(u) && t.b in Shape(u) && t.c in Shape(u);
    assert Shape(t)[t.a] == Shape(u)[t.a] && Shape(t)[t.b] == Shape(u)[t.b] && Shape(t)[t.c] == Shape(u)[t.c];
  }

  lemma AreaTurns(t: Tri)
    ensures AreaVector(Tri(t.b, t.c, t.a)) == AreaVector(t)
    ensures AreaVector(Tri(t.a, t.c, t.b)) == Minus(Point(0, 0, 0), AreaVector(t))
  {
  }

  lemma SwapsKeepDegenerate(t: Tri, u: Tri)
    requires SwapsTo(t, u)
    ensures Degenerate(t) <==> Degenerate(u)
  {
    AreaTurns(t);
    AreaTurns(Tri(t.b, t.c, t.a));
    AreaTurns(Tri(t.c, t.a, t.b));
  }

  lemma SwapsKeepEdges(t: Tri, u: Tri, e: Edge)
    requires SwapsTo(t, u)
    ensures e in Edges(t) <==> e in Edges(u)
  {
    EdgesMeet(t.a, t.b, t.b, t.a);
    EdgesMeet(t.b, t.c, t.c, t.b);
    EdgesMeet(t.c, t.a, t.a, t.c);
    assert e in Edges(t) <==> e == Edges(t)[0] || e == Edges(t)[1] || e == Edges(t)[2];
    assert e in Edges(u) <==> e == Edges(u)[0] || e == Edges(u)[1] || e == Edges(u)[2];
  }

  lemma OwnsByShape(e: Edge)
    ensures Coarser(Shape, Owns(e))
  {
    forall t: Tri, u: Tri | Shape(t) == Shape(u)
      ensures Owns(e)(t) == Owns(e)(u)
    {
      SameShapeSwaps(t, u);
      SwapsKeepDegenerate(t, u);
      SwapsKeepEdges(t, u, e);
    }
  }

  lemma DegenerateByShape()
    ensures Coarser(Shape, Degenerate)
  {
    forall t: Tri, u: Tri | Shape(t) == Shape(u)
      ensures Degenerate(t) == Degenerate(u)
    {
      SameShapeSwaps(t, u);
      SwapsKeepDegenerate(t, u);
    }
  }

  lemma SameOwners(a: seq<Tri>, b: seq<Tri>, e: Edge)
    requires SameMesh(a, b)
    ensures Owners(a, e) == Owners(b, e)
  {
    OwnsByShape(e);
    CoarserBags(Shape, Owns(e), a, b);
  }

  /** Reordering the triangles, or the corners within them, changes no count. */
  lemma InspectionIgnoresOrder(a: seq<Tri>, b: seq<Tri>)
    requires SameMesh(a, b)
    ensures Inspection(a) == Inspection(b)
  {
    SameLength(Shape, a, b);
    DegenerateByShape();
    CoarserBags(Shape, Degenerate, a, b);
    forall e
      ensures Owners(a, e) == Owners(b, e)
    {
      SameOwners(a, b, e);
    }
    SameEdgeUses(a, b);
  }

  lemma SameEdgeUses(a: seq<Tri>, b: seq<Tri>)
    requires forall e :: Owners(a, e) == Owners(b, e)
    ensures EdgeUses(a) == EdgeUses(b)
  {
    forall e
      ensures e in EdgeUses(a) <==> e in EdgeUses(b)
      ensures e in EdgeUses(a) ==> EdgeUses(a)[e] == EdgeUses(b)[e]
    {
      EdgeUsesAreOwners(a, e);
      EdgeUsesAreOwners(b, e);
    }
  }
}
