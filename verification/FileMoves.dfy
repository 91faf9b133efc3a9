/** The file manager: which files a move, a feature or a removal touches, said on
    their own fields, and the methods that write them. */
module FileMoves {
  import opened Bags
  import opened FileOrder

  // ------------------------------------------------------------- in the rows' fields

  /** The order the listing shows. */
  predicate Before(f: File, h: File) {
    f.position < h.position || (f.position == h.position && f.id < h.id)
  }

  /** Both are images, or both belong to the printable bundle. */
  predicate Grouped(f: File, h: File) {
    f.kind == Render <==> h.kind == Render
  }

  /** h comes directly after f among the files of its group. */
  ghost predicate Next(files: seq<File>, f: File, h: File) {
    && h in files && Grouped(f, h) && Before(f, h)
    && forall x :: x in files && Grouped(f, x) ==> !(Before(f, x) && Before(x, h))
  }

  /** The file of the group that a move trades places with. */
  ghost predicate Neighbour(files: seq<File>, f: File, up: bool, h: File) {
    if up then h in files && Next(files, h, f) else Next(files, f, h)
  }

  /** The file and its neighbour trade positions and nothing else changes; without a
      neighbour nothing changes. */
  ghost predicate Exchanges(files: seq<File>, after: seq<File>, f: File, up: bool) {
    && |after| == |files|
    && (forall h :: Neighbour(files, f, up, h) ==> Traded(files, after, f, h))
    && ((forall h :: h in files ==> !Neighbour(files, f, up, h)) ==> after == files)
  }

  predicate Traded(files: seq<File>, after: seq<File>, f: File, h: File) {
    && |after| == |files|
    && forall k :: 0 <= k < |files| ==>
         after[k] == files[k].(position :=
           if files[k].id == f.id then h.position else if files[k].id == h.id then f.position else files[k].position)
  }

  /** The render takes the first render's position, those before it each take the
      next one's, and everything else stays. */
  ghost predicate MovesToFront(files: seq<File>, after: seq<File>, f: File) {
    |after| == |files| && forall k :: 0 <= k < |files| ==> FrontAt(files, f, files[k], after[k])
  }

  ghost predicate FrontAt(files: seq<File>, f: File, before: File, after: File) {
    && after == before.(position := after.position)
    && (before.kind != Render || Before(f, before) ==> after == before)
    && (before.id == f.id ==> forall h :: IsFirst(files, h) ==> after.position == h.position)
    && (before.kind == Render && Before(before, f) ==> forall h :: Next(files, before, h) ==> after.position == h.position)
  }

  ghost predicate IsFirst(files: seq<File>, f: File) {
    f in files && f.kind == Render && forall x :: x in files && x.kind == Render ==> !Before(x, f)
  }

  /** All files but one, in their order, numbered from 0 without gaps. */
  ghost predicate Removes(files: seq<File>, after: seq<File>, id: FileId) {
    && DistinctIds(after)
    && (forall a, kind :: HasFile(after, a, kind) <==> a != id && HasFile(files, a, kind))
    && (forall a, b :: a != id && b != id ==> (Precedes(after, a, b) <==> Precedes(files, a, b)))
    && (forall h :: h in after ==> 0 <= h.position < |after|)
    && (forall i, j :: 0 <= i < j < |after| ==> after[i].position != after[j].position)
  }

  ghost predicate HasFile(files: seq<File>, id: FileId, kind: Kind) {
    exists f :: f in files && f.id == id && f.kind == kind
  }

  /** File a is listed before file b. */
  ghost predicate Precedes(files: seq<File>, a: FileId, b: FileId) {
    exists f, h :: f in files && h in files && f.id == a && h.id == b && Before(f, h)
  }

  // ------------------------------------------------------------------- by their places

  /** Files of one group are in the order of their places. */
  lemma PlacesAreOrder(files: seq<File>, g: Scope, f: File, h: File)
    requires DistinctIds(files) && f in files && h in files && InScope(f, g) && InScope(h, g)
    ensures f.id in PeerIds(files, g) && h.id in PeerIds(files, g)
    ensures Before(f, h) <==> IndexOf(PeerIds(files, g), f.id) < IndexOf(PeerIds(files, g), h.id)
    ensures Slots(files, g)[IndexOf(PeerIds(files, g), f.id)] == f.position
  {
    OwnSlot(files, g, f);
    OwnSlot(files, g, h);
    PeersInOrder(files, g);
  }

  lemma NextByPlace(files: seq<File>, f: File, h: File)
    requires DistinctIds(files) && f in files && Next(files, f, h)
    ensures var ids := PeerIds(files, Only(GroupOf(f)));
      f.id in ids && h.id in ids && IndexOf(ids, h.id) == IndexOf(ids, f.id) + 1
  {
    var g := Only(GroupOf(f));
    var ids := PeerIds(files, g);
    PlacesAreOrder(files, g, f, h);
    var i := IndexOf(ids, f.id);
    if IndexOf(ids, h.id) != i + 1 {
      var x := PeerWithPlace(files, g, i + 1);
      PlacesAreOrder(files, g, f, x);
      PlacesAreOrder(files, g, x, h);
    }
  }

  lemma PeerWithPlace(files: seq<File>, g: Scope, i: nat) returns (x: File)
    requires DistinctIds(files) && i < |PeerIds(files, g)|
    ensures x in files && InScope(x, g) && x.id == PeerIds(files, g)[i] && x.id in PeerIds(files, g)
    ensures IndexOf(PeerIds(files, g), x.id) == i
  {
    PeersOf(files, g);
    IndexIsOwn(PeerIds(files, g), i);
    PeerIsFile(files, g, i);
    x := Peers(files, g)[i];
  }

  lemma PlaceGivesNext(files: seq<File>, f: File, h: File)
    requires DistinctIds(files) && f in files && h in files && Grouped(f, h)
    requires var ids := PeerIds(files, Only(GroupOf(f)));
      f.id in ids && h.id in ids && IndexOf(ids, h.id) == IndexOf(ids, f.id) + 1
    ensures Next(files, f, h)
  {
    var g := Only(GroupOf(f));
    PlacesAreOrder(files, g, f, h);
    forall x | x in files && Grouped(f, x)
      ensures !(Before(f, x) && Before(x, h))
    {
      PlacesAreOrder(files, g, f, x);
      PlacesAreOrder(files, g, x, h);
    }
  }

  // --------------------------------------------------------------------------- moving

  lemma NeighbourMeansMovable(files: seq<File>, f: File, up: bool, h: File)
    requires DistinctIds(files) && f in files && Neighbour(files, f, up, h)
    ensures Movable(files, f, up)
    ensures var ids, k := PeerIds(files, Only(GroupOf(f))), Upper(files, f, up);
      if up then ids[k] == h.id && ids[k + 1] == f.id else ids[k] == f.id && ids[k + 1] == h.id
  {
    if up {
      NextByPlace(files, h, f);
    } else {
      NextByPlace(files, f, h);
    }
  }

  lemma MovableHasNeighbour(files: seq<File>, f: File, up: bool) returns (h: File)
    requires DistinctIds(files) && f in files && Movable(files, f, up)
    ensures Neighbour(files, f, up, h)
  {
    var g := Only(GroupOf(f));
    var i := IndexOf(PeerIds(files, g), f.id);
    h := PeerWithPlace(files, g, if up then i - 1 else i + 1);
    if up {
      PlaceGivesNext(files, h, f);
    } else {
      PlaceGivesNext(files, f, h);
    }
  }

  lemma MovedTrades(files: seq<File>, f: File, up: bool, h: File)
    requires DistinctIds(files) && f in files && Neighbour(files, f, up, h)
    ensures Traded(files, Moved(files, f, up), f, h)
  {
    var g := Only(GroupOf(f));
    NeighbourMeansMovable(files, f, up, h);
    PeersOf(files, g);
    var k := Upper(files, f, up);
    IndexIsOwn(PeerIds(files, g), k);
    IndexIsOwn(PeerIds(files, g), k + 1);
    OwnSlot(files, g, f);
    OwnSlot(files, g, h);
    MoveIsAdjacentSwap(files, f, up);
    forall n | 0 <= n < |files|
      ensures Moved(files, f, up)[n] == files[n].(position :=
        if files[n].id == f.id then h.position else if files[n].id == h.id then f.position else files[n].position)
    {
      MovedAt(files, f, up, n);
    }
  }

  /** A move trades the positions of two files that follow each other in their group
      and touches nothing else; at the edge of the group nothing happens. */
  lemma MoveExchanges(files: seq<File>, f: File, up: bool)
    requires DistinctIds(files) && f in files
    ensures Exchanges(files, Moved(files, f, up), f, up)
  {
    forall h | Neighbour(files, f, up, h)
      ensures Traded(files, Moved(files, f, up), f, h)
    {
      MovedTrades(files, f, up, h);
    }
    if Movable(files, f, up) {
      var h := MovableHasNeighbour(files, f, up);
      assert h in files;
    }
  }

  // ------------------------------------------------------------------------ featuring

  lemma FrontIndex(ids: seq<FileId>, id: FileId, other: FileId)
    requires NoRepeats(ids) && id in ids && other in ids
    ensures var order := [id] + WithoutId(ids, id);
      var i, j := IndexOf(ids, id), IndexOf(ids, other);
      other in order && IndexOf(order, other) == if j == i then 0 else if j < i then j + 1 else j
  {
    var order := [id] + WithoutId(ids, id);
    var i, j := IndexOf(ids, id), IndexOf(ids, other);
    FrontNoRepeats(ids, id);
    var k := if j == i then 0 else if j < i then j + 1 else j;
    assert order[k] == other;
    IndexIsOwn(order, k);
  }

  lemma FeaturedPlace(files: seq<File>, f: File, h: File)
    requires DistinctIds(files) && f in files && h in files && f.kind == Render && h.kind == Render
    requires f.id in PeerIds(files, Only(Renders)) && h.id in PeerIds(files, Only(Renders))
    ensures var ids, slots := PeerIds(files, Only(Renders)), Slots(files, Only(Renders));
      var i, j := IndexOf(ids, f.id), IndexOf(ids, h.id);
      Place([f.id] + WithoutId(ids, f.id), slots)(h)
      == h.(position := slots[if j == i then 0 else if j < i then j + 1 else j])
  {
    PeersOf(files, Only(Renders));
    FrontIndex(PeerIds(files, Only(Renders)), f.id, h.id);
  }

  lemma NextSlot(files: seq<File>, h: File, x: File)
    requires DistinctIds(files) && h in files && h.kind == Render && Next(files, h, x)
    ensures var ids := PeerIds(files, Only(Renders));
      h.id in ids && IndexOf(ids, h.id) + 1 < |Slots(files, Only(Renders))|
      && Slots(files, Only(Renders))[IndexOf(ids, h.id) + 1] == x.position
  {
    NextByPlace(files, h, x);
    OwnSlot(files, Only(Renders), x);
  }

  /** A render among the renders, after one of them was featured. */
  lemma FeaturedRender(files: seq<File>, f: File, n: nat)
    requires DistinctIds(files) && f in files && f.kind == Render && n < |files| && files[n].kind == Render
    requires f.id in PeerIds(files, Only(Renders)) && files[n].id in PeerIds(files, Only(Renders))
    ensures FrontAt(files, f, files[n], Featured(files, f)[n])
  {
    var h, after := files[n], Featured(files, f)[n];
    PlacesAreOrder(files, Only(Renders), h, f);
    PlacesAreOrder(files, Only(Renders), f, h);
    FeaturedPlace(files, f, h);
    if h.id == f.id {
      FirstHasFirstSlot(files);
    } else if Before(h, f) {
      forall x | Next(files, h, x)
        ensures after.position == x.position
      {
        NextSlot(files, h, x);
      }
    }
  }

  lemma FeaturedAt(files: seq<File>, f: File, n: nat)
    requires DistinctIds(files) && f in files && f.kind == Render && f.id in PeerIds(files, Only(Renders)) && n < |files|
    ensures FrontAt(files, f, files[n], Featured(files, f)[n])
  {
    OwnSlot(files, Only(Renders), files[n]);
    if files[n].kind == Render {
      FeaturedRender(files, f, n);
    } else {
      StaysOutside(files, f, files[n]);
      IdsTellFiles(files, f, files[n]);
    }
  }

  lemma IdsTellFiles(files: seq<File>, f: File, h: File)
    requires DistinctIds(files) && f in files && h in files && f.kind != h.kind
    ensures f.id != h.id
  {
    SameFile(files, f, h);
  }

  lemma StaysOutside(files: seq<File>, f: File, h: File)
    requires DistinctIds(files) && f.id in PeerIds(files, Only(Renders)) && h.id !in PeerIds(files, Only(Renders))
    ensures h.id !in [f.id] + WithoutId(PeerIds(files, Only(Renders)), f.id)
  {
    var ids := PeerIds(files, Only(Renders));
    BagWithout(ids, IndexOf(ids, f.id));
    assert h.id in [f.id] + WithoutId(ids, f.id) <==> h.id in multiset([f.id] + WithoutId(ids, f.id));
    assert h.id in ids <==> h.id in multiset(ids);
  }

  lemma FirstHasFirstSlot(files: seq<File>)
    requires DistinctIds(files)
    ensures forall x :: IsFirst(files, x) ==> |Slots(files, Only(Renders))| > 0 && x.position == Slots(files, Only(Renders))[0]
  {
    var g := Only(Renders);
    forall x | IsFirst(files, x)
      ensures |Slots(files, g)| > 0 && x.position == Slots(files, g)[0]
    {
      OwnSlot(files, g, x);
      var y := PeerWithPlace(files, g, 0);
      PlacesAreOrder(files, g, y, x);
    }
  }

  /** Featuring a render shifts the renders before it by one place and touches
      nothing else. */
  lemma FeatureMovesToFront(files: seq<File>, f: File)
    requires DistinctIds(files) && f in files && f.kind == Render && f.id in PeerIds(files, Only(Renders))
    ensures MovesToFront(files, Featured(files, f), f)
  {
    forall n | 0 <= n < |files|
      ensures FrontAt(files, f, files[n], Featured(files, f)[n])
    {
      FeaturedAt(files, f, n);
    }
  }

  // ------------------------------------------------------------------------- removing

  /** A renumbered file has the number of its place. */
  lemma ResequencedAt(files: seq<File>, n: nat)
    requires DistinctIds(files) && n < |files|
    ensures files[n].id in PeerIds(files, All) && |PeerIds(files, All)| == |files|
    ensures Resequenced(files)[n] == files[n].(position := IndexOf(PeerIds(files, All), files[n].id))
  {
    OwnSlot(files, All, files[n]);
    SelectWhole(files, All);
    PeersOf(files, All);
  }

  lemma OrderKept(files: seq<File>, m: nat, n: nat)
    requires DistinctIds(files) && m < |files| && n < |files|
    ensures Before(Resequenced(files)[m], Resequenced(files)[n]) <==> Before(files[m], files[n])
  {
    ResequencedAt(files, m);
    ResequencedAt(files, n);
    PlacesAreOrder(files, All, files[m], files[n]);
  }

  lemma PrecedesKept(files: seq<File>, a: FileId, b: FileId)
    requires DistinctIds(files)
    ensures Precedes(Resequenced(files), a, b) <==> Precedes(files, a, b)
  {
    var after := Resequenced(files);
    if Precedes(files, a, b) {
      var m, n := PlacesOfPair(files, a, b);
      ResequencedAt(files, m);
      ResequencedAt(files, n);
      OrderKept(files, m, n);
      assert after[m] in after && after[n] in after;
    }
    if Precedes(after, a, b) {
      var m, n := PlacesOfPair(after, a, b);
      ResequencedAt(files, m);
      ResequencedAt(files, n);
      OrderKept(files, m, n);
      assert files[m] in files && files[n] in files;
    }
  }

  lemma PlacesOfPair(files: seq<File>, a: FileId, b: FileId) returns (m: nat, n: nat)
    requires Precedes(files, a, b)
    ensures m < |files| && n < |files| && files[m].id == a && files[n].id == b && Before(files[m], files[n])
  {
    var f, h :| f in files && h in files && f.id == a && h.id == b && Before(f, h);
    m :| 0 <= m < |files| && files[m] == f;
    n :| 0 <= n < |files| && files[n] == h;
  }

  lemma FilesKept(files: seq<File>, a: FileId, kind: Kind)
    requires DistinctIds(files)
    ensures HasFile(Resequenced(files), a, kind) <==> HasFile(files, a, kind)
  {
    var after := Resequenced(files);
    forall n | 0 <= n < |files|
      ensures after[n].id == files[n].id && after[n].kind == files[n].kind && after[n] in after && files[n] in files
    {
      ResequencedAt(files, n);
    }
  }

  lemma NumbersInRange(files: seq<File>)
    requires DistinctIds(files)
    ensures DistinctIds(Resequenced(files)) && forall h :: h in Resequenced(files) ==> 0 <= h.position < |Resequenced(files)|
    ensures forall i, j :: 0 <= i < j < |files| ==> Resequenced(files)[i].position != Resequenced(files)[j].position
  {
    ResequenceNumbers(files);
    forall n | 0 <= n < |files|
      ensures 0 <= Resequenced(files)[n].position < |files|
    {
      ResequencedAt(files, n);
    }
  }

  lemma ResequencedRemoves(files: seq<File>, id: FileId)
    requires DistinctIds(files)
    ensures Removes(files, Resequenced(Drop(files, id)), id)
  {
    var rest := Drop(files, id);
    DropDistinct(files, id);
    NumbersInRange(rest);
    forall a, kind
      ensures HasFile(Resequenced(rest), a, kind) <==> a != id && HasFile(files, a, kind)
    {
      FilesKept(rest, a, kind);
    }
    forall a, b | a != id && b != id
      ensures Precedes(Resequenced(rest), a, b) <==> Precedes(files, a, b)
    {
      PrecedesKept(rest, a, b);
    }
  }

  // -------------------------------------------------------------------- the service

  function SetPosition(id: FileId, position: int): File -> File {
    (f: File) => if f.id == id then f.(position := position) else f
  }

  lemma OneMorePlaced(files: seq<File>, ids: seq<FileId>, slots: seq<int>, k: nat)
    requires |slots| == |ids| && NoRepeats(ids) && k < |ids|
    ensures Map(SetPosition(ids[k], slots[k]), Placed(files, ids[..k], slots[..k])) == Placed(files, ids[..k + 1], slots[..k + 1])
  {
    forall i | 0 <= i < |files|
      ensures Map(SetPosition(ids[k], slots[k]), Placed(files, ids[..k], slots[..k]))[i] == Placed(files, ids[..k + 1], slots[..k + 1])[i]
    {
      OneMoreAt(files[i].id, ids, slots, k);
    }
  }

  lemma OneMoreAt(id: FileId, ids: seq<FileId>, slots: seq<int>, k: nat)
    requires |slots| == |ids| && NoRepeats(ids) && k < |ids|
    ensures id in ids[..k + 1] <==> id in ids[..k] || id == ids[k]
    ensures id == ids[k] ==> IndexOf(ids[..k + 1], id) == k
    ensures id in ids[..k] ==> id != ids[k] && IndexOf(ids[..k + 1], id) == IndexOf(ids[..k], id)
  {
    assert ids[..k + 1] == ids[..k] + [ids[k]];
    if id == ids[k] {
      IndexIsOwn(ids[..k + 1], k);
    }
    if id in ids[..k] {
      var m := IndexOf(ids[..k], id);
      IndexIsOwn(ids[..k + 1], m);
    }
  }

  class FileManager {
    var files: seq<File>
    var draft: bool

    constructor (files: seq<File>, draft: bool)
      ensures this.files == files && this.draft == draft
    {
      this.files, this.draft := files, draft;
    }

    /** peers.zip(positions).each: one update_columns after the other. */
    method WriteSlots(ids: seq<FileId>, slots: seq<int>)
      requires |slots| == |ids| && NoRepeats(ids)
      modifies this`files
      ensures files == Placed(old(files), ids, slots)
    {
      assert files == Placed(files, ids[..0], slots[..0]);
      var k := 0;
      while k < |ids|
        invariant k <= |ids| && files == Placed(old(files), ids[..k], slots[..k])
      {
        OneMorePlaced(old(files), ids, slots, k);
        files := Map(SetPosition(ids[k], slots[k]), files);
        k := k + 1;
      }
      assert ids[..|ids|] == ids && slots[..|ids|] == slots;
    }

    method SwapPeers(g: Scope, index: nat, target: nat)
      requires DistinctIds(files) && index < |PeerIds(files, g)| && target < |PeerIds(files, g)|
      modifies this`files
      ensures files == Placed(old(files), Swapped(PeerIds(old(files), g), index, target), Slots(old(files), g))
    {
      var ids, slots := PeerIds(files, g), Slots(files, g);
      PeersOf(files, g);
      SwapRearranges(ids, index, target);
      NoRepeatsStays(ids, Swapped(ids, index, target));
      ids := ids[index := ids[target]][target := ids[index]];
      WriteSlots(ids, slots);
    }

    method MoveWithin(keep: Scope, f: File, up: bool)
      requires DistinctIds(files) && f in files && keep == Only(GroupOf(f))
      modifies this`files
      ensures files == Moved(old(files), f, up)
    {
      OwnSlot(files, keep, f);
      var ids := PeerIds(files, keep);
      var index := IndexOf(ids, f.id);
      var target: int := if up then index as int - 1 else index + 1;
      if 0 <= target < |ids| {
        SwapPeers(keep, index, target);
      }
    }

    /** move!; false when the printable bundle is frozen. */
    method Move(f: File, up: bool) returns (ok: bool)
      requires DistinctIds(files) && f in files
      modifies this`files
      ensures ok <==> f.kind == Render || draft
      ensures files == if ok then Moved(old(files), f, up) else old(files)
      ensures ok ==> Exchanges(old(files), files, f, up)
    {
      MoveExchanges(files, f, up);
      if GroupOf(f) == Printable && !draft {
        return false;
      }
      MoveWithin(Only(GroupOf(f)), f, up);
      ok := true;
    }

    /** feature!; false for a file that is not a render. */
    method Feature(f: File) returns (ok: bool)
      requires DistinctIds(files) && f in files
      modifies this`files
      ensures ok <==> f.kind == Render
      ensures ok ==> f.id in PeerIds(old(files), Only(Renders)) && files == Featured(old(files), f)
      ensures ok ==> MovesToFront(old(files), files, f)
      ensures !ok ==> files == old(files)
    {
      if f.kind != Render {
        return false;
      }
      OwnSlot(files, Only(Renders), f);
      PeersOf(files, Only(Renders));
      var ids := PeerIds(files, Only(Renders));
      var slots := Slots(files, Only(Renders));
      FrontNoRepeats(ids, f.id);
      FeatureMovesToFront(files, f);
      WriteSlots([f.id] + WithoutId(ids, f.id), slots);
      ok := true;
    }

    /** destroy!: the row goes, and the whole listing is numbered again. */
    method Remove(f: File) returns (ok: bool)
      requires DistinctIds(files)
      modifies this`files
      ensures ok <==> f.kind == Render || draft
      ensures files == if ok then Resequenced(Drop(old(files), f.id)) else old(files)
      ensures ok ==> Removes(old(files), files, f.id)
    {
      if GroupOf(f) == Printable && !draft {
        return false;
      }
      ResequencedRemoves(files, f.id);
      Discard(f.id);
      ok := true;
    }

    method Discard(id: FileId)
      requires DistinctIds(files)
      modifies this`files
      ensures files == Resequenced(Drop(old(files), id))
    {
      files := Drop(files, id);
      DropDistinct(old(files), id);
      PeersOf(files, All);
      var ids := PeerIds(files, All);
      WriteSlots(ids, Numbers(|ids|));
    }
  }

  lemma FrontNoRepeats(ids: seq<FileId>, id: FileId)
    requires NoRepeats(ids) && id in ids
    ensures NoRepeats([id] + WithoutId(ids, id))
  {
    BagWithout(ids, IndexOf(ids, id));
    NoRepeatsStays(ids, [id] + WithoutId(ids, id));
  }
}
