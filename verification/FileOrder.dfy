/** The order of a listing's files: moving one among its peers, featuring a render,
    removing one. All files of a listing share one run of position slots; a move or
    a feature uses only the slots its own group already has. */
module FileOrder {
  import opened Bags
  import opened Sorting

  type FileId = nat

  datatype Kind = Stl | ThreeMf | Step | Render

  datatype Group = Printable | Renders

  /** All files of a listing, or one group of them. */
  datatype Scope = All | Only(group: Group)

  datatype File = File(id: FileId, kind: Kind, position: int)

  function GroupOf(f: File): Group {
    if f.kind == Render then Renders else Printable
  }

  predicate InScope(f: File, s: Scope) {
    s == All || s == Only(GroupOf(f))
  }

  /** order(:position, :id) */
  function OrderKey(f: File): seq<int> {
    [f.position, f.id]
  }

  function Id(f: File): FileId {
    f.id
  }

  function Position(f: File): int {
    f.position
  }

  function Listing(files: seq<File>): seq<File> {
    Sort(OrderKey, files)
  }

  function Select(files: seq<File>, g: Scope): (r: seq<File>)
    ensures forall f :: f in r <==> f in files && InScope(f, g)
  {
    if files == [] then []
    else
      var rest := Select(files[..|files| - 1], g);
      var last := files[|files| - 1];
      assert files == files[..|files| - 1] + [last];
      if InScope(last, g) then rest + [last] else rest
  }

  /** A group's files in listing order. */
  function Peers(files: seq<File>, g: Scope): seq<File> {
    Select(Listing(files), g)
  }

  function PeerIds(files: seq<File>, g: Scope): seq<FileId> {
    Map(Id, Peers(files, g))
  }

  /** The group's position slots, ascending. */
  function Slots(files: seq<File>, g: Scope): (slots: seq<int>)
    ensures |slots| == |Peers(files, g)|
  {
    Sort(p => [p], Map(Position, Peers(files, g)))
  }

  ghost predicate DistinctIds(files: seq<File>) {
    forall i, j :: 0 <= i < j < |files| ==> files[i].id != files[j].id
  }

  /** No two files of the group share a position. */
  ghost predicate DistinctSlots(files: seq<File>, g: Scope) {
    forall i, j :: 0 <= i < j < |files| && InScope(files[i], g) && InScope(files[j], g) ==>
      files[i].position != files[j].position
  }

  function IndexOf(ids: seq<FileId>, id: FileId): (k: nat)
    requires id in ids
    ensures k < |ids| && ids[k] == id
  {
    if ids[0] == id then 0 else 1 + IndexOf(ids[1..], id)
  }

  /** Gives the k-th file of the order the k-th slot. */
  function Place(ids: seq<FileId>, slots: seq<int>): File -> File
    requires |slots| == |ids|
  {
    (f: File) => if f.id in ids then f.(position := slots[IndexOf(ids, f.id)]) else f
  }

  function Placed(files: seq<File>, ids: seq<FileId>, slots: seq<int>): seq<File>
    requires |slots| == |ids|
  {
    Map(Place(ids, slots), files)
  }

  // ------------------------------------------------------------- what a call makes

  function Swapped(ids: seq<FileId>, i: nat, j: nat): seq<FileId>
    requires i < |ids| && j < |ids|
  {
    ids[i := ids[j]][j := ids[i]]
  }

  predicate Movable(files: seq<File>, f: File, up: bool) {
    var ids := PeerIds(files, Only(GroupOf(f)));
    f.id in ids && (if up then IndexOf(ids, f.id) > 0 else IndexOf(ids, f.id) < |ids| - 1)
  }

  function MovedOrder(files: seq<File>, f: File, up: bool): seq<FileId>
    requires Movable(files, f, up)
  {
    var ids := PeerIds(files, Only(GroupOf(f)));
    var i := IndexOf(ids, f.id);
    Swapped(ids, i, if up then i - 1 else i + 1)
  }

  /** FileManager.move!; at the edge of its group the file stays. */
  function Moved(files: seq<File>, f: File, up: bool): seq<File> {
    if Movable(files, f, up) then Placed(files, MovedOrder(files, f, up), Slots(files, Only(GroupOf(f)))) else files
  }

  function WithoutId(ids: seq<FileId>, id: FileId): (r: seq<FileId>)
    requires id in ids
    ensures |r| == |ids| - 1
  {
    Without(ids, IndexOf(ids, id))
  }

  /** FileManager.feature! */
  function Featured(files: seq<File>, f: File): seq<File>
    requires f.id in PeerIds(files, Only(Renders))
  {
    Placed(files, [f.id] + WithoutId(PeerIds(files, Only(Renders)), f.id), Slots(files, Only(Renders)))
  }

  // ---------------------------------------------------------------- sorting lemmas

  lemma KeysAreFaithful(files: seq<File>)
    requires DistinctIds(files)
    ensures Faithful(OrderKey, files)
  {
    forall f, g | f in files && g in files && OrderKey(f) == OrderKey(g)
      ensures f == g
    {
      assert OrderKey(f)[1] == OrderKey(g)[1];
      var i :| 0 <= i < |files| && files[i] == f;
      var j :| 0 <= j < |files| && files[j] == g;
    }
  }

  lemma {:induction false} SelectBag(files: seq<File>, g: Scope, f: File)
    ensures multiset(Select(files, g))[f] == if InScope(f, g) then multiset(files)[f] else 0
  {
    if files != [] {
      var front, last := files[..|files| - 1], files[|files| - 1];
      assert files == front + [last];
      SelectBag(front, g, f);
    }
  }

  lemma {:induction false} SelectKeepsSorted(files: seq<File>, g: Scope)
    requires Sorted(OrderKey, files)
    ensures Sorted(OrderKey, Select(files, g))
  {
    if files != [] {
      var front, last := files[..|files| - 1], files[|files| - 1];
      SelectKeepsSorted(front, g);
      var rest := Select(front, g);
      forall i | 0 <= i < |rest|
        ensures !Less(OrderKey(last), OrderKey(rest[i]))
      {
        assert rest[i] in rest;
        var j :| 0 <= j < |front| && front[j] == rest[i];
        assert files[j] == front[j];
      }
    }
  }

  /** Sorting and selecting commute. */
  lemma PeersAreSortedSelection(files: seq<File>, g: Scope)
    requires DistinctIds(files)
    ensures Peers(files, g) == Sort(OrderKey, Select(files, g))
  {
    SortSorts(OrderKey, files);
    SelectKeepsSorted(Listing(files), g);
    SortSorts(OrderKey, Select(files, g));
    forall f
      ensures multiset(Peers(files, g))[f] == multiset(Sort(OrderKey, Select(files, g)))[f]
    {
      SelectBag(Listing(files), g, f);
      SelectBag(files, g, f);
    }
    assert multiset(Peers(files, g)) == multiset(Sort(OrderKey, Select(files, g)));
    KeysAreFaithful(files);
    forall f | f in Peers(files, g)
      ensures f in files
    {
      assert f in Listing(files);
      assert f in multiset(Listing(files));
    }
    SortedIsUnique(OrderKey, Peers(files, g), Sort(OrderKey, Select(files, g)));
  }

  // ---------------------------------------------------------------- placing files

  lemma {:induction false} SelectPlaced(files: seq<File>, g: Scope, ids: seq<FileId>, slots: seq<int>)
    requires |slots| == |ids|
    ensures Select(Placed(files, ids, slots), g) == Map(Place(ids, slots), Select(files, g))
  {
    if files != [] {
      var front := files[..|files| - 1];
      SelectPlaced(front, g, ids, slots);
      assert Placed(files, ids, slots)[..|files| - 1] == Placed(front, ids, slots);
    }
  }

  lemma PlacedDistinct(files: seq<File>, ids: seq<FileId>, slots: seq<int>)
    requires |slots| == |ids| && DistinctIds(files)
    ensures DistinctIds(Placed(files, ids, slots))
  {
    PlacingKeepsIds(files, ids, slots);
  }

  lemma PlacingKeepsIds(files: seq<File>, ids: seq<FileId>, slots: seq<int>)
    requires |slots| == |ids|
    ensures forall i :: 0 <= i < |files| ==>
      Placed(files, ids, slots)[i].id == files[i].id && Placed(files, ids, slots)[i].kind == files[i].kind
  {
  }

  lemma {:induction false} IndexIsOwn(ids: seq<FileId>, k: nat)
    requires NoRepeats(ids) && k < |ids|
    ensures IndexOf(ids, ids[k]) == k
  {
    if k > 0 {
      assert ids[1..][k - 1] == ids[k];
      IndexIsOwn(ids[1..], k - 1);
    }
  }

  function Find(files: seq<File>, id: FileId): (f: File)
    requires id in Map(Id, files)
    ensures f in files && f.id == id
  {
    if files[0].id == id then files[0]
    else
      assert id in Map(Id, files[1..]) by {
        var i :| 0 <= i < |files| && Map(Id, files)[i] == id;
        assert Map(Id, files[1..])[i - 1] == id;
      }
      assert files == [files[0]] + files[1..];
      Find(files[1..], id)
  }

  /** The order the listing shows: ascending slots, files tied in one slot by id. */
  predicate InListingOrder(ids: seq<FileId>, slots: seq<int>)
    requires |slots| == |ids|
  {
    forall i, j :: 0 <= i < j < |ids| ==> slots[i] < slots[j] || (slots[i] == slots[j] && ids[i] < ids[j])
  }

  lemma KeysCompare(f: File, h: File)
    ensures Less(OrderKey(f), OrderKey(h)) <==> f.position < h.position || (f.position == h.position && f.id < h.id)
  {
    var a, b := OrderKey(f), OrderKey(h);
    assert a[1..] == [f.id] && b[1..] == [h.id];
    assert Less(a[1..], b[1..]) <==> f.id < h.id by {
      assert a[1..][1..] == [] && b[1..][1..] == [];
    }
  }

  /** The group in the given order, in the given slots. */
  function Arranged(peers: seq<File>, ids: seq<FileId>, slots: seq<int>): (r: seq<File>)
    requires |slots| == |ids| && forall k :: 0 <= k < |ids| ==> ids[k] in Map(Id, peers)
    ensures |r| == |ids|
    ensures forall k :: 0 <= k < |ids| ==> r[k] == Find(peers, ids[k]).(position := slots[k])
  {
    seq(|ids|, k requires 0 <= k < |ids| => Find(peers, ids[k]).(position := slots[k]))
  }

  lemma ArrangedIsSorted(peers: seq<File>, ids: seq<FileId>, slots: seq<int>)
    requires |slots| == |ids| && (forall k :: 0 <= k < |ids| ==> ids[k] in Map(Id, peers)) && InListingOrder(ids, slots)
    ensures Sorted(OrderKey, Arranged(peers, ids, slots))
  {
    var r := Arranged(peers, ids, slots);
    forall i, j | 0 <= i < j < |r|
      ensures !Less(OrderKey(r[j]), OrderKey(r[i]))
    {
      KeysCompare(r[j], r[i]);
    }
  }

  lemma PeersOf(files: seq<File>, g: Scope)
    requires DistinctIds(files)
    ensures DistinctIds(Select(files, g)) && multiset(Peers(files, g)) == multiset(Select(files, g))
    ensures |Peers(files, g)| == |Select(files, g)|
    ensures NoRepeats(PeerIds(files, g))
  {
    PeersAreSortedSelection(files, g);
    SelectDistinct(files, g);
    SortedDistinct(Select(files, g));
  }

  lemma {:induction false} SelectDistinct(files: seq<File>, g: Scope)
    requires DistinctIds(files)
    ensures DistinctIds(Select(files, g))
  {
    if files != [] {
      var front, last := files[..|files| - 1], files[|files| - 1];
      SelectDistinct(front, g);
      var rest := Select(front, g);
      forall i | 0 <= i < |rest|
        ensures rest[i].id != last.id
      {
        assert rest[i] in rest;
        var j :| 0 <= j < |front| && front[j] == rest[i];
        assert files[j] == front[j];
      }
    }
  }

  lemma SortedDistinct(files: seq<File>)
    requires DistinctIds(files)
    ensures NoRepeats(Map(Id, Sort(OrderKey, files)))
  {
    var s := Sort(OrderKey, files);
    NoRepeatsStays(files, s);
    forall i, j | 0 <= i < j < |s|
      ensures s[i].id != s[j].id
    {
      assert s[i] in multiset(files) && s[j] in multiset(files);
      SameFile(files, s[i], s[j]);
    }
  }

  lemma PeersOfPlaced(files: seq<File>, g: Scope, ids: seq<FileId>, slots: seq<int>, target: seq<File>)
    requires DistinctIds(files) && |slots| == |ids|
    requires Sorted(OrderKey, target) && multiset(target) == multiset(Select(Placed(files, ids, slots), g))
    ensures Peers(Placed(files, ids, slots), g) == target
  {
    var placed := Placed(files, ids, slots);
    PlacedDistinct(files, ids, slots);
    PeersAreSortedSelection(placed, g);
    PeersOf(placed, g);
    SortSorts(OrderKey, Select(placed, g));
    KeysAreFaithful(Select(placed, g));
    forall f | f in target
      ensures f in Select(placed, g)
    {
      assert f in multiset(target);
    }
    SortedIsUnique(OrderKey, target, Peers(placed, g));
  }

  /** A group put on slots is listed in that order when the order breaks ties by id. */
  lemma PlacedInOrder(files: seq<File>, g: Scope, ids: seq<FileId>, slots: seq<int>)
    requires DistinctIds(files) && |slots| == |ids| && InListingOrder(ids, slots)
    requires multiset(ids) == multiset(PeerIds(files, g))
    ensures PeerIds(Placed(files, ids, slots), g) == ids
    ensures Map(Position, Peers(Placed(files, ids, slots), g)) == slots
  {
    IdsInPeers(files, g, ids);
    ArrangedIsSorted(Peers(files, g), ids, slots);
    ArrangedIsSelection(files, g, ids, slots);
    PeersOfPlaced(files, g, ids, slots, Arranged(Peers(files, g), ids, slots));
    ArrangedReads(Peers(files, g), ids, slots);
  }

  lemma ArrangedReads(peers: seq<File>, ids: seq<FileId>, slots: seq<int>)
    requires |slots| == |ids| && forall k :: 0 <= k < |ids| ==> ids[k] in Map(Id, peers)
    ensures Map(Id, Arranged(peers, ids, slots)) == ids && Map(Position, Arranged(peers, ids, slots)) == slots
  {
  }

  lemma IdsInPeers(files: seq<File>, g: Scope, ids: seq<FileId>)
    requires DistinctIds(files) && multiset(ids) == multiset(PeerIds(files, g))
    ensures forall k :: 0 <= k < |ids| ==> ids[k] in PeerIds(files, g)
    ensures NoRepeats(ids) && |ids| == |Peers(files, g)|
  {
    PeersOf(files, g);
    NoRepeatsStays(PeerIds(files, g), ids);
    forall k | 0 <= k < |ids|
      ensures ids[k] in PeerIds(files, g)
    {
      assert ids[k] in multiset(ids);
    }
    assert |multiset(ids)| == |multiset(PeerIds(files, g))|;
  }

  lemma ArrangedIsSelected(files: seq<File>, g: Scope, ids: seq<FileId>, slots: seq<int>, k: nat)
    requires DistinctIds(files) && |slots| == |ids| && NoRepeats(ids) && k < |ids| && ids[k] in PeerIds(files, g)
    ensures Find(Peers(files, g), ids[k]).(position := slots[k]) in Select(Placed(files, ids, slots), g)
  {
    var f := Find(Peers(files, g), ids[k]);
    PeersOf(files, g);
    SelectPlaced(files, g, ids, slots);
    assert f in multiset(Select(files, g));
    var i :| 0 <= i < |Select(files, g)| && Select(files, g)[i] == f;
    IndexIsOwn(ids, k);
    assert Map(Place(ids, slots), Select(files, g))[i] == f.(position := slots[k]);
  }

  lemma ArrangedIsSelection(files: seq<File>, g: Scope, ids: seq<FileId>, slots: seq<int>)
    requires DistinctIds(files) && |slots| == |ids| && multiset(ids) == multiset(PeerIds(files, g))
    requires forall k :: 0 <= k < |ids| ==> ids[k] in PeerIds(files, g)
    ensures multiset(Arranged(Peers(files, g), ids, slots)) == multiset(Select(Placed(files, ids, slots), g))
  {
    var target, selected := Arranged(Peers(files, g), ids, slots), Select(Placed(files, ids, slots), g);
    IdsInPeers(files, g, ids);
    forall k | 0 <= k < |target|
      ensures target[k] in selected
    {
      ArrangedIsSelected(files, g, ids, slots, k);
    }
    ArrangedNoRepeats(Peers(files, g), ids, slots);
    SelectionLength(files, g, ids, slots);
    ContainedIsRearranged(target, selected);
  }

  lemma ArrangedNoRepeats(peers: seq<File>, ids: seq<FileId>, slots: seq<int>)
    requires |slots| == |ids| && NoRepeats(ids) && forall k :: 0 <= k < |ids| ==> ids[k] in Map(Id, peers)
    ensures NoRepeats(Arranged(peers, ids, slots))
  {
    var r := Arranged(peers, ids, slots);
    assert forall k :: 0 <= k < |r| ==> r[k].id == ids[k];
  }

  lemma SelectionLength(files: seq<File>, g: Scope, ids: seq<FileId>, slots: seq<int>)
    requires DistinctIds(files) && |slots| == |ids|
    ensures |Select(Placed(files, ids, slots), g)| == |Peers(files, g)| && NoRepeats(Select(Placed(files, ids, slots), g))
  {
    PeersOf(files, g);
    SelectPlaced(files, g, ids, slots);
    PlacedDistinct(files, ids, slots);
    SelectDistinct(Placed(files, ids, slots), g);
  }

  // ------------------------------------------------------------------ the promises

  lemma SlotsArePositions(files: seq<File>, g: Scope)
    requires DistinctIds(files)
    ensures Slots(files, g) == Map(Position, Peers(files, g))
  {
    PeersAreSortedSelection(files, g);
    SortSorts(OrderKey, Select(files, g));
    var peers, ps := Peers(files, g), Map(Position, Peers(files, g));
    var key := (p: int) => [p];
    forall i, j | 0 <= i < j < |ps|
      ensures !Less(key(ps[j]), key(ps[i]))
    {
      assert !Less(OrderKey(peers[j]), OrderKey(peers[i]));
      assert OrderKey(peers[j])[0] == ps[j] && OrderKey(peers[i])[0] == ps[i];
    }
    forall p, q | key(p) == key(q)
      ensures p == q
    {
      assert key(p)[0] == key(q)[0];
    }
    SortOfSorted(key, ps);
    assert Slots(files, g) == Sort(key, ps);
  }

  lemma PeersInOrder(files: seq<File>, g: Scope)
    requires DistinctIds(files)
    ensures InListingOrder(PeerIds(files, g), Slots(files, g))
  {
    SlotsArePositions(files, g);
    PeersAreSortedSelection(files, g);
    SortSorts(OrderKey, Select(files, g));
    PeersOf(files, g);
    var peers := Peers(files, g);
    forall i, j | 0 <= i < j < |peers|
      ensures peers[i].position < peers[j].position || (peers[i].position == peers[j].position && peers[i].id < peers[j].id)
    {
      assert !Less(OrderKey(peers[j]), OrderKey(peers[i]));
      KeysCompare(peers[j], peers[i]);
      assert PeerIds(files, g)[i] != PeerIds(files, g)[j];
    }
  }

  lemma SlotsAscend(files: seq<File>, g: Scope, i: nat, j: nat)
    requires DistinctIds(files) && DistinctSlots(files, g) && i < j < |Slots(files, g)|
    ensures Slots(files, g)[i] < Slots(files, g)[j]
  {
    PeersInOrder(files, g);
    SlotsArePositions(files, g);
    var k := PeerAt(files, g, i);
    var l := PeerAt(files, g, j);
  }

  lemma PeerIsFile(files: seq<File>, g: Scope, i: nat)
    requires DistinctIds(files) && i < |Peers(files, g)|
    ensures Peers(files, g)[i] in files && InScope(Peers(files, g)[i], g)
  {
    PeersOf(files, g);
    assert Peers(files, g)[i] in multiset(Select(files, g));
  }

  lemma PeerAt(files: seq<File>, g: Scope, i: nat) returns (k: nat)
    requires DistinctIds(files) && i < |Peers(files, g)|
    ensures k < |files| && files[k] == Peers(files, g)[i] && files[k].id == PeerIds(files, g)[i] && InScope(files[k], g)
  {
    PeerIsFile(files, g, i);
    k :| 0 <= k < |files| && files[k] == Peers(files, g)[i];
  }

  /** A file of the group sits in the slot of its place in the order. */
  lemma OwnSlot(files: seq<File>, g: Scope, f: File)
    requires DistinctIds(files) && f in files
    ensures f.id in PeerIds(files, g) <==> InScope(f, g)
    ensures InScope(f, g) ==> Slots(files, g)[IndexOf(PeerIds(files, g), f.id)] == f.position
  {
    SlotsArePositions(files, g);
    if InScope(f, g) {
      MemberIsPeer(files, g, f);
    }
    if f.id in PeerIds(files, g) {
      var k := IndexOf(PeerIds(files, g), f.id);
      PeerIsFile(files, g, k);
      SameFile(files, f, Peers(files, g)[k]);
    }
  }

  lemma MemberIsPeer(files: seq<File>, g: Scope, f: File)
    requires DistinctIds(files) && f in files && InScope(f, g)
    ensures f.id in PeerIds(files, g)
  {
    PeersOf(files, g);
    assert f in Select(files, g);
    assert f in multiset(Peers(files, g));
    var k :| 0 <= k < |Peers(files, g)| && Peers(files, g)[k] == f;
    assert PeerIds(files, g)[k] == f.id;
  }

  lemma SameFile(files: seq<File>, f: File, h: File)
    requires DistinctIds(files) && f in files && h in files
    ensures f.id == h.id ==> f == h
  {
    var i :| 0 <= i < |files| && files[i] == f;
    var j :| 0 <= j < |files| && files[j] == h;
  }

  lemma {:induction false} SwapRearranges(ids: seq<FileId>, i: nat, j: nat)
    requires i < |ids| && j < |ids|
    ensures multiset(Swapped(ids, i, j)) == multiset(ids)
  {
    assert multiset(ids[i := ids[j]]) == multiset(ids) - multiset{ids[i]} + multiset{ids[j]};
    var once := ids[i := ids[j]];
    assert multiset(once[j := ids[i]]) == multiset(once) - multiset{once[j]} + multiset{ids[i]};
  }

  /** The upper of the two places a move exchanges. */
  function Upper(files: seq<File>, f: File, up: bool): (k: nat)
    requires Movable(files, f, up)
    ensures k + 1 < |PeerIds(files, Only(GroupOf(f)))|
  {
    var i := IndexOf(PeerIds(files, Only(GroupOf(f))), f.id);
    if up then i - 1 else i
  }

  lemma SwapIsSymmetric(ids: seq<FileId>, i: nat, j: nat)
    requires i < |ids| && j < |ids|
    ensures Swapped(ids, i, j) == Swapped(ids, j, i)
  {
  }

  lemma MoveRearranges(files: seq<File>, f: File, up: bool)
    requires Movable(files, f, up)
    ensures var ids, k := PeerIds(files, Only(GroupOf(f))), Upper(files, f, up);
      MovedOrder(files, f, up) == Swapped(ids, k, k + 1) && multiset(MovedOrder(files, f, up)) == multiset(ids)
  {
    var ids, k := PeerIds(files, Only(GroupOf(f))), Upper(files, f, up);
    SwapRearranges(ids, k, k + 1);
    SwapIsSymmetric(ids, k, k + 1);
  }

  /** A move exchanges the slots of two neighbours and leaves every other file. */
  lemma MovedAt(files: seq<File>, f: File, up: bool, n: nat)
    requires DistinctIds(files) && n < |files| && Movable(files, f, up)
    ensures var g, k := Only(GroupOf(f)), Upper(files, f, up);
      var ids, slots := PeerIds(files, g), Slots(files, g);
      Moved(files, f, up)[n] == files[n].(position :=
        if files[n].id == ids[k] then slots[k + 1] else if files[n].id == ids[k + 1] then slots[k] else files[n].position)
  {
    var g, k := Only(GroupOf(f)), Upper(files, f, up);
    var ids, order := PeerIds(files, g), MovedOrder(files, f, up);
    var id := files[n].id;
    MoveRearranges(files, f, up);
    PeersOf(files, g);
    NoRepeatsStays(ids, order);
    OwnSlot(files, g, files[n]);
    assert id in multiset(order) <==> id in multiset(ids);
    if id in ids {
      var i := IndexOf(ids, id);
      IndexIsOwn(order, if i == k then k + 1 else if i == k + 1 then k else i);
    }
  }

  /** The file and the neighbour it would change places with share one slot. */
  predicate TiedWithNeighbour(files: seq<File>, f: File, up: bool)
    requires Movable(files, f, up)
  {
    var slots, k := Slots(files, Only(GroupOf(f))), Upper(files, f, up);
    slots[k] == slots[k + 1]
  }

  /** A move changes nothing exactly at the edge of the group and next to a file
      tied with this one. */
  lemma MoveStaysExactly(files: seq<File>, f: File, up: bool)
    requires DistinctIds(files)
    ensures Moved(files, f, up) == files <==> !Movable(files, f, up) || TiedWithNeighbour(files, f, up)
  {
    if Movable(files, f, up) {
      var g, k := Only(GroupOf(f)), Upper(files, f, up);
      forall n | 0 <= n < |files|
        ensures TiedWithNeighbour(files, f, up) ==> Moved(files, f, up)[n] == files[n]
      {
        MovedAt(files, f, up, n);
        OwnSlot(files, g, files[n]);
        PeersOf(files, g);
        IndexIsOwn(PeerIds(files, g), k);
        IndexIsOwn(PeerIds(files, g), k + 1);
      }
      if !TiedWithNeighbour(files, f, up) {
        SlotsArePositions(files, g);
        var n := PeerAt(files, g, k);
        MovedAt(files, f, up, n);
      }
    }
  }

  /** The two places hold different slots, the file going down comes before any
      file tied in the slot it enters, the file going up after any. */
  predicate SwapShows(ids: seq<FileId>, slots: seq<int>, k: nat)
    requires |slots| == |ids| && k + 1 < |ids|
  {
    && slots[k] < slots[k + 1]
    && (forall i :: 0 <= i < k && slots[i] == slots[k] ==> ids[i] < ids[k + 1])
    && (forall i :: k + 1 < i < |ids| && slots[i] == slots[k + 1] ==> ids[k] < ids[i])
  }

  lemma SwapShowsExactly(ids: seq<FileId>, slots: seq<int>, k: nat)
    requires |slots| == |ids| && k + 1 < |ids| && InListingOrder(ids, slots)
    ensures InListingOrder(Swapped(ids, k, k + 1), slots) <==> SwapShows(ids, slots, k)
  {
    var order := Swapped(ids, k, k + 1);
    if InListingOrder(order, slots) {
      assert order[k] == ids[k + 1] && order[k + 1] == ids[k];
      forall i | 0 <= i < k && slots[i] == slots[k]
        ensures ids[i] < ids[k + 1]
      {
        assert order[i] == ids[i];
      }
      forall i | k + 1 < i < |ids| && slots[i] == slots[k + 1]
        ensures ids[k] < ids[i]
      {
        assert order[i] == ids[i];
      }
    }
  }

  predicate MoveShows(files: seq<File>, f: File, up: bool)
    requires Movable(files, f, up)
  {
    SwapShows(PeerIds(files, Only(GroupOf(f))), Slots(files, Only(GroupOf(f))), Upper(files, f, up))
  }

  lemma MoveShowsExactly(files: seq<File>, f: File, up: bool)
    requires DistinctIds(files) && Movable(files, f, up)
    ensures InListingOrder(MovedOrder(files, f, up), Slots(files, Only(GroupOf(f)))) <==> MoveShows(files, f, up)
  {
    var g := Only(GroupOf(f));
    MoveRearranges(files, f, up);
    PeersInOrder(files, g);
    SwapShowsExactly(PeerIds(files, g), Slots(files, g), Upper(files, f, up));
  }

  lemma MoveKeepsSlots(files: seq<File>, f: File, up: bool)
    requires DistinctIds(files) && Movable(files, f, up)
    ensures var g, after := Only(GroupOf(f)), Moved(files, f, up);
      DistinctIds(after) && Slots(after, g) == Slots(files, g) && |PeerIds(after, g)| == |PeerIds(files, g)|
  {
    MoveRearranges(files, f, up);
    GroupReordered(files, Only(GroupOf(f)), MovedOrder(files, f, up));
  }

  lemma DistinctSlotsShow(files: seq<File>, f: File, up: bool)
    requires DistinctIds(files) && Movable(files, f, up) && DistinctSlots(files, Only(GroupOf(f)))
    ensures MoveShows(files, f, up)
  {
    var g, k := Only(GroupOf(f)), Upper(files, f, up);
    var slots := Slots(files, g);
    SlotsAscend(files, g, k, k + 1);
    forall i | 0 <= i < k
      ensures slots[i] < slots[k]
    {
      SlotsAscend(files, g, i, k);
    }
    forall i | k + 1 < i < |slots|
      ensures slots[k + 1] < slots[i]
    {
      SlotsAscend(files, g, k + 1, i);
    }
  }

  /** The group keeps its slots and every file outside it stays as it is. The
      listing then shows an adjacent swap exactly when the ids tied on either
      slot allow it, as distinct positions always do. */
  lemma MoveIsAdjacentSwap(files: seq<File>, f: File, up: bool)
    requires DistinctIds(files) && Movable(files, f, up)
    ensures var g := Only(GroupOf(f));
      var after := Moved(files, f, up);
      && (PeerIds(after, g) == MovedOrder(files, f, up) <==> MoveShows(files, f, up))
      && (DistinctSlots(files, g) ==> MoveShows(files, f, up))
      && Slots(after, g) == Slots(files, g) && DistinctIds(after) && |after| == |files|
      && forall k :: 0 <= k < |files| && !InScope(files[k], g) ==> after[k] == files[k]
  {
    var g := Only(GroupOf(f));
    MoveRearranges(files, f, up);
    GroupReordered(files, g, MovedOrder(files, f, up));
    MoveShowsExactly(files, f, up);
    if DistinctSlots(files, g) {
      DistinctSlotsShow(files, f, up);
    }
  }

  /** Any reordering of a group on its own slots: it is listed in that order
      exactly when the order breaks ties by id. */
  lemma GroupReordered(files: seq<File>, g: Scope, ids: seq<FileId>)
    requires DistinctIds(files) && multiset(ids) == multiset(PeerIds(files, g))
    ensures |ids| == |Slots(files, g)|
    ensures var after := Placed(files, ids, Slots(files, g));
      && (PeerIds(after, g) == ids <==> InListingOrder(ids, Slots(files, g)))
      && Slots(after, g) == Slots(files, g) && DistinctIds(after)
      && forall k :: 0 <= k < |files| && !InScope(files[k], g) ==> after[k] == files[k]
  {
    var slots := Slots(files, g);
    IdsInPeers(files, g, ids);
    var after := Placed(files, ids, slots);
    PlacedDistinct(files, ids, slots);
    ReorderingKeepsSlots(files, g, ids);
    if InListingOrder(ids, slots) {
      PlacedInOrder(files, g, ids, slots);
    }
    PeersInOrder(after, g);
    forall k | 0 <= k < |files| && !InScope(files[k], g)
      ensures after[k] == files[k]
    {
      OwnSlot(files, g, files[k]);
      assert files[k].id in multiset(ids) <==> files[k].id in multiset(PeerIds(files, g));
    }
  }

  lemma ReorderingKeepsSlots(files: seq<File>, g: Scope, ids: seq<FileId>)
    requires DistinctIds(files) && multiset(ids) == multiset(PeerIds(files, g)) && |ids| == |Slots(files, g)|
    ensures Slots(Placed(files, ids, Slots(files, g)), g) == Slots(files, g)
  {
    var slots := Slots(files, g);
    var after := Placed(files, ids, slots);
    IdsInPeers(files, g, ids);
    ArrangedIsSelection(files, g, ids, slots);
    PlacedDistinct(files, ids, slots);
    PeersOf(after, g);
    MapBag(Position, Peers(after, g), Arranged(Peers(files, g), ids, slots));
    ArrangedReads(Peers(files, g), ids, slots);
    var key := (p: int) => [p];
    forall p, q | key(p) == key(q)
      ensures p == q
    {
      assert key(p)[0] == key(q)[0];
    }
    SortIsCanonical(key, Map(Position, Peers(after, g)), Map(Position, Peers(files, g)));
  }

  lemma PlacedTwice(files: seq<File>, a: seq<FileId>, b: seq<FileId>, slots: seq<int>)
    requires |slots| == |a| == |b| && multiset(a) == multiset(b)
    ensures Placed(Placed(files, a, slots), b, slots) == Placed(files, b, slots)
  {
    forall k | 0 <= k < |files|
      ensures Placed(Placed(files, a, slots), b, slots)[k] == Placed(files, b, slots)[k]
    {
      assert files[k].id in multiset(a) <==> files[k].id in multiset(b);
    }
  }

  lemma PlacedWhereTheyAre(files: seq<File>, g: Scope)
    requires DistinctIds(files)
    ensures Placed(files, PeerIds(files, g), Slots(files, g)) == files
  {
    forall k | 0 <= k < |files|
      ensures Placed(files, PeerIds(files, g), Slots(files, g))[k] == files[k]
    {
      OwnSlot(files, g, files[k]);
    }
  }

  /** The opposite move puts every file back exactly when the first one showed
      as an adjacent swap — or, where the first one met a tie and changed nothing,
      when the opposite one changes nothing either. */
  lemma OppositeMoveUndoes(files: seq<File>, f: File, up: bool)
    requires DistinctIds(files) && Movable(files, f, up)
    ensures Moved(Moved(files, f, up), f, !up) == files
       <==> if TiedWithNeighbour(files, f, up) then !Movable(files, f, !up) || TiedWithNeighbour(files, f, !up)
            else MoveShows(files, f, up)
    ensures DistinctSlots(files, Only(GroupOf(f))) ==> Moved(Moved(files, f, up), f, !up) == files
  {
    MoveStaysExactly(files, f, up);
    MoveIsAdjacentSwap(files, f, up);
    if TiedWithNeighbour(files, f, up) {
      MoveStaysExactly(files, f, !up);
    } else if MoveShows(files, f, up) {
      ShownMoveIsUndone(files, f, up);
    } else if Moved(Moved(files, f, up), f, !up) == files {
      UndoneMoveShows(files, f, up);
    }
  }

  lemma UndoneMovesSamePair(files: seq<File>, f: File, up: bool)
    requires DistinctIds(files) && Movable(files, f, up) && !TiedWithNeighbour(files, f, up)
    requires Moved(Moved(files, f, up), f, !up) == files
    ensures var g, k := Only(GroupOf(f)), Upper(files, f, up);
      var ids, after := PeerIds(files, g), PeerIds(Moved(files, f, up), g);
      |after| == |ids| && after[k] == ids[k + 1] && after[k + 1] == ids[k]
  {
    var g, k := Only(GroupOf(f)), Upper(files, f, up);
    var after := Moved(files, f, up);
    MoveKeepsSlots(files, f, up);
    var a, b := MovedPair(files, f, up);
    ChangedIsInPair(after, f, !up, files, a);
    ChangedIsInPair(after, f, !up, files, b);
    PeersInOrder(files, g);
    PairIsSame(PeerIds(files, g), Slots(files, g), k, PeerIds(after, g), Upper(after, f, !up));
  }

  /** One of two neighbouring files, in the other's slot. */
  predicate Lands(ids: seq<FileId>, slots: seq<int>, k: nat, id: FileId, position: int)
    requires |slots| == |ids| && k + 1 < |ids|
  {
    (id == ids[k] && position == slots[k + 1]) || (id == ids[k + 1] && position == slots[k])
  }

  /** Two places that hold the same two files, each back in its old slot, are the
      same places. */
  lemma PairIsSame(ids: seq<FileId>, slots: seq<int>, k: nat, after: seq<FileId>, l: nat)
    requires |slots| == |ids| == |after| && k + 1 < |ids| && l + 1 < |ids| && InListingOrder(ids, slots)
    requires slots[k] != slots[k + 1]
    requires Lands(after, slots, l, ids[k], slots[k]) && Lands(after, slots, l, ids[k + 1], slots[k + 1])
    ensures l == k && after[k] == ids[k + 1] && after[k + 1] == ids[k]
  {
    assert slots[k] < slots[k + 1] && slots[l] <= slots[l + 1];
  }

  /** The two files a move exchanges. */
  lemma MovedPair(files: seq<File>, f: File, up: bool) returns (a: nat, b: nat)
    requires DistinctIds(files) && Movable(files, f, up)
    ensures var g, k := Only(GroupOf(f)), Upper(files, f, up);
      var ids, slots, after := PeerIds(files, g), Slots(files, g), Moved(files, f, up);
      && a < |files| && b < |files| && |after| == |files| && a != b
      && files[a].id == after[a].id == ids[k] && files[b].id == after[b].id == ids[k + 1]
      && files[a].position == after[b].position == slots[k] && files[b].position == after[a].position == slots[k + 1]
      && (slots[k] != slots[k + 1] ==> after[a] != files[a] && after[b] != files[b])
  {
    var g, k := Only(GroupOf(f)), Upper(files, f, up);
    SlotsArePositions(files, g);
    PeersOf(files, g);
    a := PeerAt(files, g, k);
    b := PeerAt(files, g, k + 1);
    MovedAt(files, f, up, a);
    MovedAt(files, f, up, b);
  }

  lemma ChangedIsInPair(files: seq<File>, f: File, up: bool, after: seq<File>, n: nat)
    requires DistinctIds(files) && after == Moved(files, f, up) && |after| == |files| && n < |files| && after[n] != files[n]
    ensures Movable(files, f, up)
    ensures var g := Only(GroupOf(f));
      Lands(PeerIds(files, g), Slots(files, g), Upper(files, f, up), files[n].id, after[n].position)
  {
    MovedAt(files, f, up, n);
  }

  lemma KeepsItsSlot(files: seq<File>, f: File, up: bool, i: nat)
    requires DistinctIds(files) && Movable(files, f, up) && i < |PeerIds(files, Only(GroupOf(f)))|
    requires i != Upper(files, f, up) && i != Upper(files, f, up) + 1
    ensures var g := Only(GroupOf(f));
      var id, after := PeerIds(files, g)[i], PeerIds(Moved(files, f, up), g);
      id in after && |after| == |Slots(files, g)| && Slots(files, g)[IndexOf(after, id)] == Slots(files, g)[i]
  {
    var g := Only(GroupOf(f));
    var n := PeerAt(files, g, i);
    PeersOf(files, g);
    MovedAt(files, f, up, n);
    MoveIsAdjacentSwap(files, f, up);
    SlotsArePositions(files, g);
    OwnSlot(Moved(files, f, up), g, Moved(files, f, up)[n]);
  }

  lemma UndoneMoveShows(files: seq<File>, f: File, up: bool)
    requires DistinctIds(files) && Movable(files, f, up) && !TiedWithNeighbour(files, f, up)
    requires Moved(Moved(files, f, up), f, !up) == files
    ensures MoveShows(files, f, up)
  {
    var g, k := Only(GroupOf(f)), Upper(files, f, up);
    var ids, after := PeerIds(files, g), Moved(files, f, up);
    UndoneMovesSamePair(files, f, up);
    MoveKeepsSlots(files, f, up);
    forall i | 0 <= i < |ids| && i != k && i != k + 1
      ensures SameSlot(ids, PeerIds(after, g), Slots(files, g), i)
    {
      KeepsItsSlot(files, f, up, i);
    }
    BothInOrder(files, after, g);
    TiesAreKept(ids, PeerIds(after, g), Slots(files, g), k);
  }

  lemma BothInOrder(files: seq<File>, after: seq<File>, g: Scope)
    requires DistinctIds(files) && DistinctIds(after)
    ensures InListingOrder(PeerIds(files, g), Slots(files, g)) && InListingOrder(PeerIds(after, g), Slots(after, g))
    ensures NoRepeats(PeerIds(files, g))
  {
    PeersInOrder(files, g);
    PeersInOrder(after, g);
    PeersOf(files, g);
  }

  predicate SameSlot(ids: seq<FileId>, after: seq<FileId>, slots: seq<int>, i: nat)
    requires |slots| == |ids| == |after| && i < |ids|
  {
    ids[i] in after && slots[IndexOf(after, ids[i])] == slots[i]
  }

  lemma TiesAreKept(ids: seq<FileId>, after: seq<FileId>, slots: seq<int>, k: nat)
    requires |slots| == |ids| == |after| && InListingOrder(ids, slots) && InListingOrder(after, slots) && NoRepeats(ids)
    requires k + 1 < |ids| && slots[k] != slots[k + 1] && after[k] == ids[k + 1] && after[k + 1] == ids[k]
    requires forall i :: 0 <= i < |ids| && i != k && i != k + 1 ==> SameSlot(ids, after, slots, i)
    ensures SwapShows(ids, slots, k)
  {
    forall i | 0 <= i < |ids| && i != k && i != k + 1
      ensures i < k && slots[i] == slots[k] ==> ids[i] < ids[k + 1]
      ensures k + 1 < i && slots[i] == slots[k + 1] ==> ids[k] < ids[i]
    {
      assert SameSlot(ids, after, slots, i);
      TieIsKept(ids, after, slots, k, i, IndexOf(after, ids[i]));
    }
  }

  lemma TieIsKept(ids: seq<FileId>, after: seq<FileId>, slots: seq<int>, k: nat, i: nat, m: nat)
    requires |slots| == |ids| == |after| && InListingOrder(ids, slots) && InListingOrder(after, slots) && NoRepeats(ids)
    requires k + 1 < |ids| && slots[k] != slots[k + 1] && after[k] == ids[k + 1] && after[k + 1] == ids[k]
    requires i < |ids| && i != k && i != k + 1 && m < |ids| && after[m] == ids[i] && slots[m] == slots[i]
    ensures i < k && slots[i] == slots[k] ==> ids[i] < ids[k + 1]
    ensures k + 1 < i && slots[i] == slots[k + 1] ==> ids[k] < ids[i]
  {
    assert m != k && m != k + 1;
  }

  /** Files that are all in scope are listed as any rearrangement in listing order. */
  lemma ListedAs(files: seq<File>, g: Scope, peers: seq<File>)
    requires DistinctIds(files) && (forall f :: f in files ==> InScope(f, g))
    requires multiset(peers) == multiset(files) && InListingOrder(Map(Id, peers), Map(Position, peers))
    ensures Peers(files, g) == peers && Slots(files, g) == Map(Position, peers)
  {
    SelectWhole(files, g);
    InOrderIsSorted(peers);
    assert Placed(files, [], []) == files;
    PeersOfPlaced(files, g, [], [], peers);
    SlotsArePositions(files, g);
  }

  lemma InOrderIsSorted(peers: seq<File>)
    requires InListingOrder(Map(Id, peers), Map(Position, peers))
    ensures Sorted(OrderKey, peers)
  {
    forall i, j | 0 <= i < j < |peers|
      ensures !Less(OrderKey(peers[j]), OrderKey(peers[i]))
    {
      assert Map(Id, peers)[i] == peers[i].id && Map(Position, peers)[i] == peers[i].position;
      KeysCompare(peers[j], peers[i]);
    }
  }

  /** Two renders tied in one slot, and a render with a smaller id after them. */
  predicate TiedTrio(a: File, b: File, c: File) {
    a.kind == b.kind == c.kind == Render && a.position == b.position < c.position && c.id < a.id < b.id
  }

  lemma TrioListed(files: seq<File>, a: File, b: File, c: File)
    requires TiedTrio(a, b, c) && files == [a, b, c]
    ensures DistinctIds(files)
    ensures PeerIds(files, Only(Renders)) == Map(Id, files) && Slots(files, Only(Renders)) == Map(Position, files)
  {
    ListedAs(files, Only(Renders), files);
  }

  lemma JumpedListed(files: seq<File>, a: File, b: File, c: File)
    requires TiedTrio(a, b, c) && files == [a, b.(position := c.position), c.(position := a.position)]
    ensures DistinctIds(files)
    ensures PeerIds(files, Only(Renders)) == Map(Id, [files[2], files[0], files[1]])
    ensures Slots(files, Only(Renders)) == Map(Position, [files[2], files[0], files[1]])
  {
    var listed := [files[2], files[0], files[1]];
    assert multiset(listed) == multiset(files);
    ListedAs(files, Only(Renders), listed);
  }

  lemma IdsOfThree(x: File, y: File, z: File)
    ensures Map(Id, [x, y, z]) == [x.id, y.id, z.id]
  {
    assert |Map(Id, [x, y, z])| == 3;
  }

  /** The last of three listed renders moves up. */
  lemma LastMovesUp(files: seq<File>, f: File)
    requires DistinctIds(files) && |files| == 3 && f == files[2] && f.kind == Render
    requires PeerIds(files, Only(Renders)) == Map(Id, files) && Slots(files, Only(Renders)) == Map(Position, files)
    ensures Moved(files, f, true)
         == [files[0], files[1].(position := f.position), f.(position := files[1].position)]
  {
    PeersOf(files, Only(Renders));
    IndexIsOwn(PeerIds(files, Only(Renders)), 2);
    assert Movable(files, f, true) && Upper(files, f, true) == 1;
    MovedAt(files, f, true, 0);
    MovedAt(files, f, true, 1);
    MovedAt(files, f, true, 2);
  }

  lemma TrioMoved(files: seq<File>, a: File, b: File, c: File)
    requires TiedTrio(a, b, c) && files == [a, b, c]
    ensures Moved(files, c, true) == [a, b.(position := c.position), c.(position := a.position)]
  {
    TrioListed(files, a, b, c);
    LastMovesUp(files, c);
  }

  lemma FirstTiedStays(files: seq<File>, f: File)
    requires DistinctIds(files) && f.kind == Render && |PeerIds(files, Only(Renders))| > 1
    requires PeerIds(files, Only(Renders))[0] == f.id && Slots(files, Only(Renders))[0] == Slots(files, Only(Renders))[1]
    ensures Moved(files, f, false) == files
  {
    MoveStaysExactly(files, f, false);
  }

  /** On tied positions a move can jump: the last of three such renders, moved up,
      is listed first, and moving it down again changes nothing. */
  lemma TiedMoveJumps(files: seq<File>, a: File, b: File, c: File)
    requires TiedTrio(a, b, c) && files == [a, b, c]
    ensures PeerIds(files, Only(Renders)) == [a.id, b.id, c.id]
    ensures PeerIds(Moved(files, c, true), Only(Renders)) == [c.id, a.id, b.id]
    ensures Moved(Moved(files, c, true), c, false) == Moved(files, c, true)
  {
    TrioListed(files, a, b, c);
    TrioMoved(files, a, b, c);
    JumpedListed(Moved(files, c, true), a, b, c);
    IdsOfThree(a, b, c);
    IdsOfThree(c.(position := a.position), a, b.(position := c.position));
    FirstTiedStays(Moved(files, c, true), c);
  }

  lemma ShownMoveIsUndone(files: seq<File>, f: File, up: bool)
    requires DistinctIds(files) && Movable(files, f, up) && MoveShows(files, f, up)
    ensures Movable(Moved(files, f, up), f, !up) && Moved(Moved(files, f, up), f, !up) == files
  {
    var ids := PeerIds(files, Only(GroupOf(f)));
    var i := IndexOf(ids, f.id);
    var j := if up then i - 1 else i + 1;
    MoveIsAdjacentSwap(files, f, up);
    SwappedBack(files, Only(GroupOf(f)), i, j);
  }

  /** Swapping two places twice, on the group's own slots. */
  lemma SwappedBack(files: seq<File>, g: Scope, i: nat, j: nat)
    requires DistinctIds(files) && i < |PeerIds(files, g)| && j < |PeerIds(files, g)|
    ensures var ids, slots := PeerIds(files, g), Slots(files, g);
      var swapped := Swapped(ids, i, j);
      && ids[i] in swapped && IndexOf(swapped, ids[i]) == j && Swapped(swapped, j, i) == ids
      && Placed(Placed(files, swapped, slots), ids, slots) == files
  {
    var ids, slots := PeerIds(files, g), Slots(files, g);
    var swapped := Swapped(ids, i, j);
    PeersOf(files, g);
    SwapRearranges(ids, i, j);
    NoRepeatsStays(ids, swapped);
    IndexIsOwn(swapped, j);
    PlacedTwice(files, swapped, ids, slots);
    PlacedWhereTheyAre(files, g);
  }

  /** Featuring a render keeps the renders' slots and every other file. It puts
      the render first and keeps the others in order exactly when that order
      breaks ties by id, as it does on distinct positions. */
  lemma FeatureIsMoveToFront(files: seq<File>, f: File)
    requires DistinctIds(files) && f.id in PeerIds(files, Only(Renders))
    ensures var g := Only(Renders);
      var after := Featured(files, f);
      var order := [f.id] + WithoutId(PeerIds(files, g), f.id);
      && (PeerIds(after, g) == order <==> InListingOrder(order, Slots(files, g)))
      && (DistinctSlots(files, g) ==> PeerIds(after, g) == order)
      && Slots(after, g) == Slots(files, g) && DistinctIds(after)
      && forall k :: 0 <= k < |files| && !InScope(files[k], g) ==> after[k] == files[k]
  {
    var g := Only(Renders);
    var ids := PeerIds(files, g);
    var order := [f.id] + WithoutId(ids, f.id);
    BagWithout(ids, IndexOf(ids, f.id));
    GroupReordered(files, g, order);
    if DistinctSlots(files, g) {
      forall i, j | 0 <= i < j < |order|
        ensures Slots(files, g)[i] < Slots(files, g)[j]
      {
        SlotsAscend(files, g, i, j);
      }
    }
  }

  // ------------------------------------------------------------------- removing

  function Numbers(n: nat): (r: seq<int>)
    ensures |r| == n && forall k :: 0 <= k < n ==> r[k] == k
  {
    seq(n, k requires 0 <= k < n => k)
  }

  function Drop(files: seq<File>, id: FileId): (r: seq<File>)
    ensures forall f :: f in r <==> f in files && f.id != id
  {
    if files == [] then []
    else
      var rest := Drop(files[..|files| - 1], id);
      assert files == files[..|files| - 1] + [files[|files| - 1]];
      if files[|files| - 1].id == id then rest else rest + [files[|files| - 1]]
  }

  function Resequenced(files: seq<File>): seq<File> {
    Placed(files, PeerIds(files, All), Numbers(|PeerIds(files, All)|))
  }

  lemma {:induction false} DropDistinct(files: seq<File>, id: FileId)
    requires DistinctIds(files)
    ensures DistinctIds(Drop(files, id))
  {
    if files != [] {
      var front, last := files[..|files| - 1], files[|files| - 1];
      DropDistinct(front, id);
      var rest := Drop(front, id);
      forall i | 0 <= i < |rest|
        ensures rest[i].id != last.id
      {
        assert rest[i] in rest;
        var j :| 0 <= j < |front| && front[j] == rest[i];
        assert files[j] == front[j];
      }
    }
  }

  /** Resequencing keeps the order of the whole listing and numbers it from 0, so no
      two files of it share a position afterwards. */
  lemma ResequenceNumbers(files: seq<File>)
    requires DistinctIds(files)
    ensures var after := Resequenced(files);
      && PeerIds(after, All) == PeerIds(files, All) && Slots(after, All) == Numbers(|PeerIds(files, All)|)
      && DistinctIds(after) && DistinctSlots(after, All)
  {
    var ids := PeerIds(files, All);
    var after := Resequenced(files);
    PlacedInOrder(files, All, ids, Numbers(|ids|));
    PlacedDistinct(files, ids, Numbers(|ids|));
    SlotsArePositions(after, All);
    PeersOf(after, All);
    forall i, j | 0 <= i < j < |after|
      ensures after[i].position != after[j].position
    {
      OwnSlot(after, All, after[i]);
      OwnSlot(after, All, after[j]);
    }
  }

  lemma {:induction false} DropBag(files: seq<File>, id: FileId, f: File)
    ensures multiset(Drop(files, id))[f] == if f.id == id then 0 else multiset(files)[f]
  {
    if files != [] {
      var front, last := files[..|files| - 1], files[|files| - 1];
      assert files == front + [last];
      DropBag(front, id, f);
    }
  }

  lemma {:induction false} DropKeepsSorted(files: seq<File>, id: FileId)
    requires Sorted(OrderKey, files)
    ensures Sorted(OrderKey, Drop(files, id))
  {
    if files != [] {
      var front, last := files[..|files| - 1], files[|files| - 1];
      DropKeepsSorted(front, id);
      var rest := Drop(front, id);
      forall i | 0 <= i < |rest|
        ensures !Less(OrderKey(last), OrderKey(rest[i]))
      {
        assert rest[i] in rest;
        var j :| 0 <= j < |front| && front[j] == rest[i];
        assert files[j] == front[j];
      }
    }
  }

  lemma {:induction false} SelectWhole(files: seq<File>, g: Scope)
    requires forall f :: f in files ==> InScope(f, g)
    ensures Select(files, g) == files
  {
    if files != [] {
      SelectWhole(files[..|files| - 1], g);
    }
  }

  /** Removing a file leaves the others listed in their order, numbered from 0. */
  lemma RemovalKeepsOrder(files: seq<File>, id: FileId)
    requires DistinctIds(files)
    ensures var after := Resequenced(Drop(files, id));
      PeerIds(after, All) == Map(Id, Drop(Listing(files), id)) && Slots(after, All) == Numbers(|PeerIds(after, All)|)
  {
    var rest := Drop(files, id);
    DropDistinct(files, id);
    ResequenceNumbers(rest);
    SelectWhole(Listing(rest), All);
    SortSorts(OrderKey, files);
    SortSorts(OrderKey, rest);
    DropKeepsSorted(Listing(files), id);
    forall f
      ensures multiset(Drop(Listing(files), id))[f] == multiset(Listing(rest))[f]
    {
      DropBag(Listing(files), id, f);
      DropBag(files, id, f);
    }
    assert multiset(Drop(Listing(files), id)) == multiset(Listing(rest));
    KeysAreFaithful(rest);
    forall f | f in Listing(rest)
      ensures f in rest
    {
      assert f in multiset(Listing(rest));
    }
    SortedIsUnique(OrderKey, Listing(rest), Drop(Listing(files), id));
  }
}
