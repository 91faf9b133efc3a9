/** The canonicaliser for binary STL files: 84 + 50n bytes in, the same triangles
    out, every one turned to start at its least vertex and all of them sorted. */
module StlCanonical {
  import opened Bags
  import opened Sorting
  import opened Wrappers

  type Byte = b: int | 0 <= b < 256

  /** The bit pattern of a 32-bit float. */
  type Word = w: int | 0 <= w < 0x1_0000_0000

  datatype Vertex = Vertex(x: Word, y: Word, z: Word)

  datatype Facet = Facet(p: Vertex, q: Vertex, r: Vertex)

  // ---------------------------------------------------------------- floats

  const SIGN_BIT := 0x8000_0000

  /** Floats that are not NaN compare as their sign and magnitude do. The lemmas
      below hold for every word under this order; of the script they speak only
      where no coordinate is NaN. */
  function Order(w: Word): int {
    if w >= SIGN_BIT then -(w - SIGN_BIT) else w
  }

  /** value.zero? ? 0.0 : value */
  function NoMinusZero(w: Word): Word {
    if w == SIGN_BIT then 0 else w
  }

  /** Without minus zero, words that compare equal are equal. */
  lemma OrderIsFaithful(v: Word, w: Word)
    requires v != SIGN_BIT && w != SIGN_BIT && Order(v) == Order(w)
    ensures v == w
  {
  }

  // ------------------------------------------------------------ byte layout

  function Word32(b0: Byte, b1: Byte, b2: Byte, b3: Byte): Word {
    b0 + 0x100 * b1 + 0x1_0000 * b2 + 0x100_0000 * b3
  }

  /** pack("V"), and the bytes of pack("e"). */
  function Bytes32(w: Word): (bs: seq<Byte>)
    ensures |bs| == 4
  {
    [w % 0x100, w / 0x100 % 0x100, w / 0x1_0000 % 0x100, w / 0x100_0000]
  }

  lemma WordOfBytes(w: Word)
    ensures var bs := Bytes32(w); Word32(bs[0], bs[1], bs[2], bs[3]) == w
  {
    assert w / 0x1_0000 == w / 0x100 / 0x100;
    assert w / 0x100_0000 == w / 0x1_0000 / 0x100;
  }

  function WordAt(bytes: seq<Byte>, at: nat): Word
    requires at + 4 <= |bytes|
  {
    Word32(bytes[at], bytes[at + 1], bytes[at + 2], bytes[at + 3])
  }

  function VertexAt(bytes: seq<Byte>, at: nat): Vertex
    requires at + 12 <= |bytes|
  {
    Vertex(NoMinusZero(WordAt(bytes, at)), NoMinusZero(WordAt(bytes, at + 4)), NoMinusZero(WordAt(bytes, at + 8)))
  }

  /** The 36 vertex bytes of one record, which come after its 12 normal bytes. */
  function FacetAt(bytes: seq<Byte>, at: nat): Facet
    requires at + 50 <= |bytes|
  {
    Facet(VertexAt(bytes, at + 12), VertexAt(bytes, at + 24), VertexAt(bytes, at + 36))
  }

  predicate IsBinaryStl(bytes: seq<Byte>) {
    |bytes| >= 84 && WordAt(bytes, 80) > 0 && |bytes| == 84 + 50 * WordAt(bytes, 80)
  }

  function FacetsFrom(bytes: seq<Byte>, count: nat): (fs: seq<Facet>)
    requires |bytes| >= 84 + 50 * count
    ensures |fs| == count && forall i :: 0 <= i < count ==> fs[i] == FacetAt(bytes, 84 + 50 * i)
  {
    seq(count, i requires 0 <= i < count => FacetAt(bytes, 84 + 50 * i))
  }

  function VertexBytes(v: Vertex): (bs: seq<Byte>)
    ensures |bs| == 12
  {
    Bytes32(v.x) + Bytes32(v.y) + Bytes32(v.z)
  }

  /** A normal is twelve bytes computed from the facet. */
  ghost predicate IsNormal(normal: Facet -> seq<Byte>) {
    forall f :: |normal(f)| == 12
  }

  function RecordBytes(normal: Facet -> seq<Byte>, f: Facet): seq<Byte> {
    normal(f) + (VertexBytes(f.p) + VertexBytes(f.q) + VertexBytes(f.r)) + [0, 0]
  }

  function BodyBytes(normal: Facet -> seq<Byte>, fs: seq<Facet>): seq<Byte> {
    if fs == [] then [] else BodyBytes(normal, fs[..|fs| - 1]) + RecordBytes(normal, fs[|fs| - 1])
  }

  lemma VertexRoundTrip(bytes: seq<Byte>, at: nat, v: Vertex)
    requires at + 12 <= |bytes| && bytes[at..at + 12] == VertexBytes(v)
    requires v.x != SIGN_BIT && v.y != SIGN_BIT && v.z != SIGN_BIT
    ensures VertexAt(bytes, at) == v
  {
    WordOfBytes(v.x);
    WordOfBytes(v.y);
    WordOfBytes(v.z);
    forall k | 0 <= k < 12
      ensures bytes[at + k] == VertexBytes(v)[k]
    {
      assert bytes[at..at + 12][k] == bytes[at + k];
    }
  }

  predicate CleanVertex(v: Vertex) {
    v.x != SIGN_BIT && v.y != SIGN_BIT && v.z != SIGN_BIT
  }

  /** No minus zeros, as after reading. */
  predicate Clean(f: Facet) {
    CleanVertex(f.p) && CleanVertex(f.q) && CleanVertex(f.r)
  }

  lemma SliceOfSlice(bytes: seq<Byte>, at: nat, record: seq<Byte>, from: nat)
    requires at + 50 <= |bytes| && bytes[at..at + 50] == record && from + 12 <= 50
    ensures bytes[at + from..at + from + 12] == record[from..from + 12]
  {
    assert forall k :: 0 <= k < 50 ==> record[k] == bytes[at + k];
  }

  lemma RecordRoundTrip(normal: Facet -> seq<Byte>, bytes: seq<Byte>, at: nat, f: Facet)
    requires IsNormal(normal) && at + 50 <= |bytes| && bytes[at..at + 50] == RecordBytes(normal, f) && Clean(f)
    ensures FacetAt(bytes, at) == f
  {
    var record := RecordBytes(normal, f);
    assert record[12..24] == VertexBytes(f.p) && record[24..36] == VertexBytes(f.q) && record[36..48] == VertexBytes(f.r);
    SliceOfSlice(bytes, at, record, 12);
    SliceOfSlice(bytes, at, record, 24);
    SliceOfSlice(bytes, at, record, 36);
    VertexRoundTrip(bytes, at + 12, f.p);
    VertexRoundTrip(bytes, at + 24, f.q);
    VertexRoundTrip(bytes, at + 36, f.r);
  }

  lemma {:induction false} BodySlices(normal: Facet -> seq<Byte>, fs: seq<Facet>, i: nat)
    requires IsNormal(normal) && i < |fs|
    ensures |BodyBytes(normal, fs)| == 50 * |fs|
    ensures BodyBytes(normal, fs)[50 * i..50 * i + 50] == RecordBytes(normal, fs[i])
  {
    var front := fs[..|fs| - 1];
    BodyLength(normal, front);
    if i < |front| {
      BodySlices(normal, front, i);
    }
  }

  lemma {:induction false} BodyLength(normal: Facet -> seq<Byte>, fs: seq<Facet>)
    requires IsNormal(normal)
    ensures |BodyBytes(normal, fs)| == 50 * |fs|
  {
    if fs != [] {
      BodyLength(normal, fs[..|fs| - 1]);
    }
  }

  /** The file for a list of facets, under an 80-byte header. */
  function FileBytes(header: seq<Byte>, normal: Facet -> seq<Byte>, fs: seq<Facet>): seq<Byte>
    requires |header| == 80 && |fs| < 0x1_0000_0000
  {
    header + Bytes32(|fs|) + BodyBytes(normal, fs)
  }

  /** What is written is read back. */
  lemma ReadWritten(header: seq<Byte>, normal: Facet -> seq<Byte>, fs: seq<Facet>)
    requires |header| == 80 && 0 < |fs| < 0x1_0000_0000 && IsNormal(normal) && forall f :: f in fs ==> Clean(f)
    ensures var bytes := FileBytes(header, normal, fs);
      IsBinaryStl(bytes) && WordAt(bytes, 80) == |fs| && FacetsFrom(bytes, |fs|) == fs
  {
    var bytes := FileBytes(header, normal, fs);
    BodyLength(normal, fs);
    WordOfBytes(|fs|);
    assert bytes[80..84] == Bytes32(|fs|);
    assert bytes[80] == bytes[80..84][0] && bytes[81] == bytes[80..84][1] && bytes[82] == bytes[80..84][2] && bytes[83] == bytes[80..84][3];
    forall i | 0 <= i < |fs|
      ensures FacetAt(bytes, 84 + 50 * i) == fs[i]
    {
      BodySlices(normal, fs, i);
      assert bytes[84 + 50 * i..84 + 50 * i + 50] == BodyBytes(normal, fs)[50 * i..50 * i + 50];
      RecordRoundTrip(normal, bytes, 84 + 50 * i, fs[i]);
    }
  }

  // -------------------------------------------------------------- canonical order

  function VertexKey(v: Vertex): seq<int> {
    [Order(v.x), Order(v.y), Order(v.z)]
  }

  /** vertices.flatten */
  function FacetKey(f: Facet): seq<int> {
    VertexKey(f.p) + VertexKey(f.q) + VertexKey(f.r)
  }

  function Turn(f: Facet): Facet {
    Facet(f.q, f.r, f.p)
  }

  function Lesser(f: Facet, g: Facet): Facet {
    if Less(FacetKey(g), FacetKey(f)) then g else f
  }

  /** The least of the three rotations. */
  function LeastTurn(f: Facet): Facet {
    Lesser(Lesser(f, Turn(f)), Turn(Turn(f)))
  }

  /** A facet as a cyclic triangle. */
  function Turns(f: Facet): set<Facet> {
    {f, Turn(f), Turn(Turn(f))}
  }

  /** The same oriented triangles, in any order, each starting anywhere. */
  ghost predicate SameSurface(a: seq<Facet>, b: seq<Facet>) {
    multiset(Map(Turns, a)) == multiset(Map(Turns, b))
  }

  lemma VertexKeyInjective(v: Vertex, w: Vertex)
    requires VertexKey(v) == VertexKey(w) && CleanVertex(v) && CleanVertex(w)
    ensures v == w
  {
    assert VertexKey(v)[0] == VertexKey(w)[0] && VertexKey(v)[1] == VertexKey(w)[1] && VertexKey(v)[2] == VertexKey(w)[2];
    OrderIsFaithful(v.x, w.x);
    OrderIsFaithful(v.y, w.y);
    OrderIsFaithful(v.z, w.z);
  }

  lemma FacetKeyInjective(f: Facet, g: Facet)
    requires FacetKey(f) == FacetKey(g) && Clean(f) && Clean(g)
    ensures f == g
  {
    var j, k := FacetKey(f), FacetKey(g);
    assert j[..3] == VertexKey(f.p) && j[3..6] == VertexKey(f.q) && j[6..] == VertexKey(f.r);
    assert k[..3] == VertexKey(g.p) && k[3..6] == VertexKey(g.q) && k[6..] == VertexKey(g.r);
    VertexKeyInjective(f.p, g.p);
    VertexKeyInjective(f.q, g.q);
    VertexKeyInjective(f.r, g.r);
  }

  lemma LesserIsLeast(f: Facet, g: Facet)
    ensures !Less(FacetKey(f), FacetKey(Lesser(f, g))) && !Less(FacetKey(g), FacetKey(Lesser(f, g)))
  {
    LessIrreflexive(FacetKey(f));
    LessIrreflexive(FacetKey(g));
    if Less(FacetKey(g), FacetKey(f)) {
      LessAsymmetric(FacetKey(g), FacetKey(f));
    }
  }

  lemma LeastTurnIsLeast(f: Facet, g: Facet)
    requires g in Turns(f)
    ensures LeastTurn(f) in Turns(f) && !Less(FacetKey(g), FacetKey(LeastTurn(f)))
  {
    var h := Lesser(f, Turn(f));
    LesserIsLeast(f, Turn(f));
    LesserIsLeast(h, Turn(Turn(f)));
    if g != Turn(Turn(f)) {
      NotLessTransitive(FacetKey(LeastTurn(f)), FacetKey(h), FacetKey(g));
    }
  }

  lemma TurnsTurn(f: Facet, g: Facet)
    requires g in Turns(f)
    ensures Turns(g) == Turns(f)
  {
    assert Turn(Turn(Turn(f))) == f;
  }

  /** Choosing the least rotation forgets the rotation and nothing else: the
      winding stays. */
  lemma LeastTurnExactly(f: Facet, g: Facet)
    requires Clean(f) && Clean(g)
    ensures LeastTurn(f) == LeastTurn(g) <==> Turns(f) == Turns(g)
  {
    LeastTurnIsLeast(f, f);
    LeastTurnIsLeast(g, g);
    TurnsTurn(f, LeastTurn(f));
    TurnsTurn(g, LeastTurn(g));
    if Turns(f) == Turns(g) {
      LeastTurnIsLeast(f, LeastTurn(g));
      LeastTurnIsLeast(g, LeastTurn(f));
      LessTotal(FacetKey(LeastTurn(f)), FacetKey(LeastTurn(g)));
      FacetKeyInjective(LeastTurn(f), LeastTurn(g));
    }
  }

  /** A facet whose corners differ is not a rotation of its mirror image. */
  lemma WindingIsKept(f: Facet)
    requires f.p != f.q && f.q != f.r && f.p != f.r
    ensures Turns(f) != Turns(Facet(f.p, f.r, f.q))
  {
    var mirrored := Facet(f.p, f.r, f.q);
    assert mirrored in Turns(mirrored) && mirrored !in Turns(f);
  }

  function CanonicalFacets(fs: seq<Facet>): (r: seq<Facet>)
    ensures |r| == |fs|
  {
    Sort(FacetKey, Map(LeastTurn, fs))
  }

  ghost predicate AllClean(fs: seq<Facet>) {
    forall f :: f in fs ==> Clean(f)
  }

  lemma TurnsOfClean(fs: seq<Facet>)
    requires AllClean(fs)
    ensures AllClean(Map(LeastTurn, fs)) && Faithful(FacetKey, Map(LeastTurn, fs))
  {
    var turned := Map(LeastTurn, fs);
    forall g | g in turned
      ensures Clean(g)
    {
      var i :| 0 <= i < |turned| && turned[i] == g;
      assert fs[i] in fs;
      LeastTurnIsLeast(fs[i], fs[i]);
    }
    forall g, h | g in turned && h in turned && FacetKey(g) == FacetKey(h)
      ensures g == h
    {
      FacetKeyInjective(g, h);
    }
  }

  lemma CanonicalIsClean(fs: seq<Facet>)
    requires AllClean(fs)
    ensures AllClean(CanonicalFacets(fs))
  {
    TurnsOfClean(fs);
    forall f | f in CanonicalFacets(fs)
      ensures Clean(f)
    {
      assert f in multiset(CanonicalFacets(fs));
    }
  }

  lemma SurfaceByTurns(a: seq<Facet>, b: seq<Facet>)
    requires AllClean(a) && AllClean(b)
    ensures SameSurface(a, b) <==> multiset(Map(LeastTurn, a)) == multiset(Map(LeastTurn, b))
  {
    if SameSurface(a, b) {
      SurfaceGivesTurns(a, b);
    }
    if multiset(Map(LeastTurn, a)) == multiset(Map(LeastTurn, b)) {
      TurnsGiveSurface(a, b);
    }
  }

  lemma {:induction false} SurfaceGivesTurns(a: seq<Facet>, b: seq<Facet>)
    requires AllClean(a) && AllClean(b) && SameSurface(a, b)
    ensures multiset(Map(LeastTurn, a)) == multiset(Map(LeastTurn, b))
    decreases |a|
  {
    SameLength(Turns, a, b);
    if a != [] {
      var i, j := TwinIndex(Turns, a, b);
      LeastTurnExactly(a[i], b[j]);
      WithoutAgrees(Turns, a, b, i, j);
      SurfaceGivesTurns(Without(a, i), Without(b, j));
      WithoutAgrees(LeastTurn, a, b, i, j);
    }
  }

  lemma {:induction false} TurnsGiveSurface(a: seq<Facet>, b: seq<Facet>)
    requires AllClean(a) && AllClean(b) && multiset(Map(LeastTurn, a)) == multiset(Map(LeastTurn, b))
    ensures SameSurface(a, b)
    decreases |a|
  {
    SameLength(LeastTurn, a, b);
    if a != [] {
      var i, j := TwinIndex(LeastTurn, a, b);
      LeastTurnExactly(a[i], b[j]);
      WithoutAgrees(LeastTurn, a, b, i, j);
      TurnsGiveSurface(Without(a, i), Without(b, j));
      WithoutAgrees(Turns, a, b, i, j);
    }
  }

  /** The canonical list determines the surface, and nothing but the surface. */
  lemma CanonicalFacetsExactly(a: seq<Facet>, b: seq<Facet>)
    requires AllClean(a) && AllClean(b)
    ensures CanonicalFacets(a) == CanonicalFacets(b) <==> SameSurface(a, b)
  {
    TurnsOfClean(a);
    SortIsCanonical(FacetKey, Map(LeastTurn, a), Map(LeastTurn, b));
    SurfaceByTurns(a, b);
  }

  /** The canonical list is the same surface. */
  lemma CanonicalIsSameSurface(fs: seq<Facet>)
    requires AllClean(fs)
    ensures SameSurface(CanonicalFacets(fs), fs)
  {
    CanonicalIsClean(fs);
    TurnsOfClean(fs);
    LeastTurnsStay(fs);
    SurfaceByTurns(CanonicalFacets(fs), fs);
  }

  lemma LeastTurnTwice(f: Facet)
    requires Clean(f)
    ensures LeastTurn(LeastTurn(f)) == LeastTurn(f)
  {
    LeastTurnIsLeast(f, f);
    TurnsTurn(f, LeastTurn(f));
    LeastTurnExactly(f, LeastTurn(f));
  }

  lemma LeastTurnsStay(fs: seq<Facet>)
    requires AllClean(fs)
    ensures multiset(Map(LeastTurn, CanonicalFacets(fs))) == multiset(Map(LeastTurn, fs))
  {
    var turned := Map(LeastTurn, fs);
    MapBag(LeastTurn, CanonicalFacets(fs), turned);
    forall i | 0 <= i < |fs|
      ensures Map(LeastTurn, turned)[i] == turned[i]
    {
      assert fs[i] in fs;
      LeastTurnTwice(fs[i]);
    }
    assert Map(LeastTurn, turned) == turned;
  }

  lemma CanonicalTwice(fs: seq<Facet>)
    requires AllClean(fs)
    ensures CanonicalFacets(CanonicalFacets(fs)) == CanonicalFacets(fs)
  {
    CanonicalIsClean(fs);
    CanonicalIsSameSurface(fs);
    CanonicalFacetsExactly(CanonicalFacets(fs), fs);
  }

  // ------------------------------------------------------------------ the script

  lemma ReadIsClean(bytes: seq<Byte>, count: nat)
    requires |bytes| >= 84 + 50 * count
    ensures AllClean(FacetsFrom(bytes, count))
  {
  }

  /** The triangles of a binary STL file. */
  function Triangles(bytes: seq<Byte>): seq<Facet>
    requires IsBinaryStl(bytes)
  {
    FacetsFrom(bytes, WordAt(bytes, 80))
  }

  /** What the script writes back, or nothing for a file it refuses. */
  function Canonicalized(header: seq<Byte>, normal: Facet -> seq<Byte>, bytes: seq<Byte>): Option<seq<Byte>>
    requires |header| == 80
  {
    if !IsBinaryStl(bytes) then None
    else Some(FileBytes(header, normal, CanonicalFacets(Triangles(bytes))))
  }

  lemma OneMoreFacet(bytes: seq<Byte>, i: nat)
    requires |bytes| >= 84 + 50 * (i + 1)
    ensures Map(LeastTurn, FacetsFrom(bytes, i + 1)) == Map(LeastTurn, FacetsFrom(bytes, i)) + [LeastTurn(FacetAt(bytes, 84 + 50 * i))]
  {
    var next := FacetAt(bytes, 84 + 50 * i);
    assert FacetsFrom(bytes, i + 1) == FacetsFrom(bytes, i) + [next];
    MapConcat(LeastTurn, FacetsFrom(bytes, i), [next]);
    assert Map(LeastTurn, [next]) == [LeastTurn(next)];
  }

  method ReadTurned(bytes: seq<Byte>, count: nat) returns (turned: seq<Facet>)
    requires |bytes| >= 84 + 50 * count
    ensures turned == Map(LeastTurn, FacetsFrom(bytes, count))
  {
    turned := [];
    var i := 0;
    while i < count
      invariant i <= count && turned == Map(LeastTurn, FacetsFrom(bytes, i))
    {
      OneMoreFacet(bytes, i);
      turned := turned + [LeastTurn(FacetAt(bytes, 84 + 50 * i))];
      i := i + 1;
    }
  }

  method WriteBody(normal: Facet -> seq<Byte>, fs: seq<Facet>) returns (body: seq<Byte>)
    ensures body == BodyBytes(normal, fs)
  {
    body := [];
    var i := 0;
    while i < |fs|
      invariant i <= |fs| && body == BodyBytes(normal, fs[..i])
    {
      assert fs[..i + 1][..i] == fs[..i];
      body := body + RecordBytes(normal, fs[i]);
      i := i + 1;
    }
    assert fs[..|fs|] == fs;
  }

  /** scripts/canonicalize_stl.rb for one file. */
  method Canonicalize(header: seq<Byte>, normal: Facet -> seq<Byte>, bytes: seq<Byte>) returns (r: Option<seq<Byte>>)
    requires |header| == 80
    ensures r == Canonicalized(header, normal, bytes)
    ensures r.Some? <==> IsBinaryStl(bytes)
  {
    if |bytes| < 84 || WordAt(bytes, 80) == 0 || |bytes| != 84 + 50 * WordAt(bytes, 80) {
      return None;
    }
    var turned := ReadTurned(bytes, WordAt(bytes, 80));
    var sorted := Sort(FacetKey, turned);
    var body := WriteBody(normal, sorted);
    r := Some(header + Bytes32(|sorted|) + body);
  }

  lemma WrittenTriangles(header: seq<Byte>, normal: Facet -> seq<Byte>, bytes: seq<Byte>)
    requires |header| == 80 && IsNormal(normal) && IsBinaryStl(bytes)
    ensures var out := Canonicalized(header, normal, bytes).value;
      IsBinaryStl(out) && Triangles(out) == CanonicalFacets(Triangles(bytes)) && AllClean(Triangles(bytes))
  {
    ReadIsClean(bytes, WordAt(bytes, 80));
    CanonicalIsClean(Triangles(bytes));
    ReadWritten(header, normal, CanonicalFacets(Triangles(bytes)));
  }

  /** Reading the output back gives the same oriented triangles (NaN aside). */
  lemma OutputIsSameSurface(header: seq<Byte>, normal: Facet -> seq<Byte>, bytes: seq<Byte>)
    requires |header| == 80 && IsNormal(normal) && IsBinaryStl(bytes)
    ensures var out := Canonicalized(header, normal, bytes).value;
      IsBinaryStl(out) && SameSurface(Triangles(out), Triangles(bytes))
  {
    WrittenTriangles(header, normal, bytes);
    CanonicalIsSameSurface(Triangles(bytes));
  }

  /** Running the script on its own output changes nothing (NaN aside). */
  lemma CanonicalizingTwice(header: seq<Byte>, normal: Facet -> seq<Byte>, bytes: seq<Byte>)
    requires |header| == 80 && IsNormal(normal) && IsBinaryStl(bytes)
    ensures var out := Canonicalized(header, normal, bytes).value;
      Canonicalized(header, normal, out) == Some(out)
  {
    WrittenTriangles(header, normal, bytes);
    CanonicalTwice(Triangles(bytes));
  }

  /** Two files become the same bytes exactly when they hold the same oriented
      triangles, in any order and each from any starting corner (NaN aside). */
  lemma SameBytesExactly(header: seq<Byte>, normal: Facet -> seq<Byte>, a: seq<Byte>, b: seq<Byte>)
    requires |header| == 80 && IsNormal(normal) && IsBinaryStl(a) && IsBinaryStl(b)
    ensures Canonicalized(header, normal, a) == Canonicalized(header, normal, b) <==> SameSurface(Triangles(a), Triangles(b))
  {
    WrittenTriangles(header, normal, a);
    WrittenTriangles(header, normal, b);
    CanonicalFacetsExactly(Triangles(a), Triangles(b));
  }
}
