/** Where the numbers of a binary STL file lie, byte by byte, and which number each
    of its words stands for. */
module StlLayout {
  import Bags
  import opened Sorting
  import opened StlCanonical

  // --------------------------------------------------------------------- layout

  /** Four bytes, the lowest first. */
  function Little(bytes: seq<Byte>, at: nat): int
    requires at + 4 <= |bytes|
  {
    var b0: int, b1: int, b2: int, b3: int := bytes[at], bytes[at + 1], bytes[at + 2], bytes[at + 3];
    b0 + 256 * b1 + 256 * 256 * b2 + 256 * 256 * 256 * b3
  }

  /** The nine coordinates of a facet, corner after corner. */
  function Coordinates(f: Facet): (r: seq<Word>)
    ensures |r| == 9
  {
    [f.p.x, f.p.y, f.p.z, f.q.x, f.q.y, f.q.z, f.r.x, f.r.y, f.r.z]
  }

  /** A file is taken exactly when its 80-byte header is followed by a positive
      count and 50 bytes for each of that many records. */
  lemma BinaryStlExactly(bytes: seq<Byte>)
    ensures IsBinaryStl(bytes) <==> |bytes| > 84 && |bytes| == 84 + 50 * Little(bytes, 80)
    ensures IsBinaryStl(bytes) ==> |Triangles(bytes)| == Little(bytes, 80)
  {
  }

  /** The k-th coordinate of the i-th facet is the k-th float after the record's
      normal; minus zero is read as zero. */
  lemma CoordinateAt(bytes: seq<Byte>, i: nat, k: nat)
    requires IsBinaryStl(bytes) && i < |Triangles(bytes)| && k < 9
    ensures 84 + 50 * i + 12 + 4 * k + 4 <= |bytes|
    ensures var w := Little(bytes, 84 + 50 * i + 12 + 4 * k);
      Coordinates(Triangles(bytes)[i])[k] == if w == 0x8000_0000 then 0 else w
  {
    FacetCoordinate(bytes, 84 + 50 * i, k);
  }

  lemma FacetCoordinate(bytes: seq<Byte>, at: nat, k: nat)
    requires at + 50 <= |bytes| && k < 9
    ensures Coordinates(FacetAt(bytes, at))[k] == NoMinusZero(WordAt(bytes, at + 12 + 4 * k))
  {
    VertexCoordinates(bytes, at + 12);
    VertexCoordinates(bytes, at + 24);
    VertexCoordinates(bytes, at + 36);
  }

  lemma VertexCoordinates(bytes: seq<Byte>, at: nat)
    requires at + 12 <= |bytes|
    ensures VertexAt(bytes, at).x == NoMinusZero(WordAt(bytes, at))
    ensures VertexAt(bytes, at).y == NoMinusZero(WordAt(bytes, at + 4))
    ensures VertexAt(bytes, at).z == NoMinusZero(WordAt(bytes, at + 8))
  {
  }

  // ----------------------------------------------------------------------- floats

  function Pow2(n: nat): (r: nat)
    ensures r > 0
  {
    if n == 0 then 1 else 2 * Pow2(n - 1)
  }

  /** Sign apart, a binary32 float as a multiple of the least positive one. */
  function Magnitude(bits: nat): nat {
    var exponent, fraction := bits / 0x80_0000, bits % 0x80_0000;
    if exponent == 0 then fraction else (0x80_0000 + fraction) * Pow2(exponent - 1)
  }

  /** The value of a binary32 float as a multiple of the least positive one
      (sections 3.3 and 3.4 of IEEE 754); infinities continue the scale. */
  function ValueOf(w: Word): int {
    if w < 0x8000_0000 then Magnitude(w) else 0 - Magnitude(w - 0x8000_0000)
  }

  lemma {:induction false} Pow2Grows(m: nat, n: nat)
    requires m <= n
    ensures Pow2(m) <= Pow2(n)
  {
    if m < n {
      Pow2Grows(m, n - 1);
    }
  }

  lemma TimesGrows(a: nat, b: nat, k: nat)
    requires a < b && k > 0
    ensures a * k < b * k
  {
  }

  lemma TimesKeeps(k: nat, a: nat, b: nat)
    requires a <= b
    ensures k * a <= k * b
  {
  }

  /** A float lies below every power of two above its exponent. */
  lemma MagnitudeBelow(bits: nat)
    ensures Magnitude(bits) < 0x80_0000 * Pow2(bits / 0x80_0000)
  {
    var exponent, fraction := bits / 0x80_0000, bits % 0x80_0000;
    if exponent > 0 {
      TimesGrows(0x80_0000 + fraction, 0x100_0000, Pow2(exponent - 1));
    }
  }

  lemma MagnitudeGrows(a: nat, b: nat)
    requires a < b
    ensures Magnitude(a) < Magnitude(b)
  {
    var e, f := a / 0x80_0000, b / 0x80_0000;
    if e == f {
      if e > 0 {
        TimesGrows(0x80_0000 + a % 0x80_0000, 0x80_0000 + b % 0x80_0000, Pow2(e - 1));
      }
    } else {
      MagnitudeBelow(a);
      Pow2Grows(e, f - 1);
      TimesKeeps(0x80_0000, Pow2(e), Pow2(f - 1));
      LeastOfExponent(b);
    }
  }

  lemma LeastOfExponent(bits: nat)
    requires bits / 0x80_0000 > 0
    ensures 0x80_0000 * Pow2(bits / 0x80_0000 - 1) <= Magnitude(bits)
  {
    var p := Pow2(bits / 0x80_0000 - 1);
    TimesKeeps(p, 0x80_0000, 0x80_0000 + bits % 0x80_0000);
  }

  /** Words are ordered as the numbers they stand for. */
  lemma OrderIsValueOrder(v: Word, w: Word)
    ensures Order(v) < Order(w) <==> ValueOf(v) < ValueOf(w)
    ensures Order(v) == Order(w) <==> ValueOf(v) == ValueOf(w)
  {
    var a := if v < 0x8000_0000 then v else v - 0x8000_0000;
    var b := if w < 0x8000_0000 then w else w - 0x8000_0000;
    if a < b {
      MagnitudeGrows(a, b);
    } else if b < a {
      MagnitudeGrows(b, a);
    }
    ZeroMagnitude(a);
    ZeroMagnitude(b);
  }

  lemma ZeroMagnitude(bits: nat)
    ensures Magnitude(bits) == 0 <==> bits == 0
  {
    if bits > 0 {
      MagnitudeGrows(0, bits);
    }
  }

  // ------------------------------------------------------------------------ order

  /** The first of the nine coordinates in which the facets differ is smaller. */
  predicate Precedes(f: Facet, g: Facet) {
    exists k :: 0 <= k < 9 && ValueOf(Coordinates(f)[k]) < ValueOf(Coordinates(g)[k]) && SameUpTo(f, g, k)
  }

  predicate SameUpTo(f: Facet, g: Facet, k: nat)
    requires k <= 9
  {
    forall i :: 0 <= i < k ==> ValueOf(Coordinates(f)[i]) == ValueOf(Coordinates(g)[i])
  }

  lemma KeyAt(f: Facet)
    ensures |FacetKey(f)| == 9 && forall k :: 0 <= k < 9 ==> FacetKey(f)[k] == Order(Coordinates(f)[k])
  {
  }

  lemma KeysAgreeUpTo(f: Facet, g: Facet, k: nat)
    requires k <= 9 && |FacetKey(f)| == |FacetKey(g)| == 9
    ensures FacetKey(f)[..k] == FacetKey(g)[..k] <==> SameUpTo(f, g, k)
  {
    KeyAt(f);
    KeyAt(g);
    forall i | 0 <= i < k
      ensures FacetKey(f)[..k][i] == FacetKey(g)[..k][i] <==> ValueOf(Coordinates(f)[i]) == ValueOf(Coordinates(g)[i])
    {
      OrderIsValueOrder(Coordinates(f)[i], Coordinates(g)[i]);
    }
  }

  lemma LessIsPrecedes(f: Facet, g: Facet)
    ensures Less(FacetKey(f), FacetKey(g)) <==> Precedes(f, g)
  {
    var a, b := FacetKey(f), FacetKey(g);
    KeyAt(f);
    KeyAt(g);
    LessIsLexicographic(a, b);
    forall k | 0 <= k < 9
      ensures a[..k] == b[..k] && a[k] < b[k] <==> SameUpTo(f, g, k) && ValueOf(Coordinates(f)[k]) < ValueOf(Coordinates(g)[k])
    {
      KeysAgreeUpTo(f, g, k);
      OrderIsValueOrder(Coordinates(f)[k], Coordinates(g)[k]);
    }
  }

  predicate FacetsAscend(fs: seq<Facet>) {
    forall i, j :: 0 <= i < j < |fs| ==> !Precedes(fs[j], fs[i])
  }

  /** Another start of the same oriented triangle. */
  predicate RotationOf(f: Facet, g: Facet) {
    g == f || g == Facet(f.q, f.r, f.p) || g == Facet(f.r, f.p, f.q)
  }

  ghost predicate StartsLeast(f: Facet) {
    forall g :: RotationOf(f, g) ==> !Precedes(g, f)
  }

  lemma LeastTurnStartsLeast(f: Facet)
    ensures RotationOf(f, LeastTurn(f)) && StartsLeast(LeastTurn(f))
  {
    LeastTurnIsLeast(f, f);
    TurnsTurn(f, LeastTurn(f));
    forall g | RotationOf(LeastTurn(f), g)
      ensures !Precedes(g, LeastTurn(f))
    {
      assert g in Turns(LeastTurn(f));
      LeastTurnIsLeast(f, g);
      LessIsPrecedes(g, LeastTurn(f));
    }
  }

  /** In the written file every facet starts at its least rotation, the facets
      ascend by the values of their coordinates, and the header, the count, the
      normals and the attribute bytes are where a reader looks for them. */
  lemma OutputIsOrdered(header: seq<Byte>, normal: Facet -> seq<Byte>, bytes: seq<Byte>)
    requires |header| == 80 && IsNormal(normal) && IsBinaryStl(bytes)
    ensures var out := Canonicalized(header, normal, bytes).value;
      && |out| == |bytes| && out[..80] == header && IsBinaryStl(out) && |Triangles(out)| == |Triangles(bytes)|
      && (forall f :: f in Triangles(out) ==> StartsLeast(f)) && FacetsAscend(Triangles(out))
      && (forall i :: 0 <= i < |Triangles(out)| ==> RecordAt(out, normal, i))
  {
    WrittenTriangles(header, normal, bytes);
    OutputLength(header, normal, bytes);
    CanonicalStartsLeast(Triangles(bytes));
    CanonicalAscends(Triangles(bytes));
    RecordsInPlace(header, normal, bytes);
  }

  lemma OutputLength(header: seq<Byte>, normal: Facet -> seq<Byte>, bytes: seq<Byte>)
    requires |header| == 80 && IsNormal(normal) && IsBinaryStl(bytes)
    ensures var out := Canonicalized(header, normal, bytes).value; |out| == |bytes| && out[..80] == header
  {
    BodyLength(normal, CanonicalFacets(Triangles(bytes)));
  }

  lemma RecordsInPlace(header: seq<Byte>, normal: Facet -> seq<Byte>, bytes: seq<Byte>)
    requires |header| == 80 && IsNormal(normal) && IsBinaryStl(bytes)
    ensures var out := Canonicalized(header, normal, bytes).value;
      IsBinaryStl(out) && forall i :: 0 <= i < |Triangles(out)| ==> RecordAt(out, normal, i)
  {
    WrittenTriangles(header, normal, bytes);
    var fs := CanonicalFacets(Triangles(bytes));
    forall i | 0 <= i < |fs|
      ensures RecordAt(Canonicalized(header, normal, bytes).value, normal, i)
    {
      WrittenRecord(header, normal, fs, i);
    }
  }

  /** The i-th record opens with its facet's normal and ends with two zero bytes. */
  predicate RecordAt(bytes: seq<Byte>, normal: Facet -> seq<Byte>, i: nat)
    requires IsBinaryStl(bytes) && i < |Triangles(bytes)|
  {
    var at := 84 + 50 * i;
    bytes[at..at + 12] == normal(Triangles(bytes)[i]) && bytes[at + 48] == 0 && bytes[at + 49] == 0
  }

  lemma CanonicalStartsLeast(fs: seq<Facet>)
    ensures forall f :: f in CanonicalFacets(fs) ==> StartsLeast(f)
  {
    forall f | f in CanonicalFacets(fs)
      ensures StartsLeast(f)
    {
      assert f in multiset(CanonicalFacets(fs));
      var i :| 0 <= i < |fs| && LeastTurn(fs[i]) == f;
      LeastTurnStartsLeast(fs[i]);
    }
  }

  lemma CanonicalAscends(fs: seq<Facet>)
    ensures FacetsAscend(CanonicalFacets(fs))
  {
    var r := CanonicalFacets(fs);
    SortSorts(FacetKey, Bags.Map(LeastTurn, fs));
    forall i, j | 0 <= i < j < |r|
      ensures !Precedes(r[j], r[i])
    {
      LessIsPrecedes(r[j], r[i]);
    }
  }

  lemma WrittenRecord(header: seq<Byte>, normal: Facet -> seq<Byte>, fs: seq<Facet>, i: nat)
    requires |header| == 80 && |fs| < 0x1_0000_0000 && IsNormal(normal) && i < |fs|
    ensures var out, at := FileBytes(header, normal, fs), 84 + 50 * i;
      at + 50 <= |out| && out[at..at + 12] == normal(fs[i]) && out[at + 48] == 0 && out[at + 49] == 0
  {
    var out, at := FileBytes(header, normal, fs), 84 + 50 * i;
    BodySlices(normal, fs, i);
    var record := RecordBytes(normal, fs[i]);
    assert out[at..at + 50] == BodyBytes(normal, fs)[50 * i..50 * i + 50] == record;
    assert out[at..at + 12] == out[at..at + 50][..12] == record[..12] == normal(fs[i]);
    assert out[at + 48] == out[at..at + 50][48] == record[48];
    assert out[at + 49] == out[at..at + 50][49] == record[49];
  }
}
