/** The unique indexes on transaction ids cover one rail each: how one transfer comes
    to be named by a single purchase and by a batch. */
module RailHazards {
  import opened Wrappers
  import opened Sums
  import opened Ledger
  import opened Market
  import opened MarketRuns
  import opened MarketHistory

  ghost function GrossOf(s: Store, ks: set<PurchaseId>): map<PurchaseId, nat>
    requires ks <= s.purchases.Keys
  {
    map k | k in ks :: s.purchases[k].amount
  }

  /** The payment credits `payTo` with `amount` of `asset`: what the mirror compares. */
  ghost predicate Pays(s: Store, payment: Payment, payTo: Account, asset: Asset, amount: nat) {
    && UnitsOf(s.purchases, payment) != {}
    && (forall k :: k in UnitsOf(s.purchases, payment) ==> s.purchases[k].payTo == payTo && s.purchases[k].asset == asset)
    && Total(GrossOf(s, UnitsOf(s.purchases, payment))) == amount
  }

  /** A transfer named on both rails: a single purchase and a batch that wait for
      the amount it paid, to the same payee, are both matched to it by the mirror. */
  lemma RailsCanShareATransfer(w: World, single: Payment, batch: Payment, tx: TxId, payTo: Account, asset: Asset, amount: nat)
    requires batch in w.store.batches && single !in w.store.batches && tx in w.executed
    requires Pays(w.store, tx, payTo, asset, amount)
    requires Pays(w.store, single, payTo, asset, amount) && Pays(w.store, batch, payTo, asset, amount)
    requires AllIn(w.store, single, Verified) && AllIn(w.store, batch, Verified)
    requires !Claimed(w.store, single, tx) && !Claimed(w.store, batch, tx)
    ensures var events := [MirrorMatched(batch, tx), MirrorMatched(single, tx)];
      Possible(w, events) && !RailsDisjoint(Exec(w, events).store.purchases, Exec(w, events).store.batches)
  {
    var u := Step(w, MirrorMatched(batch, tx));
    var v := Step(u, MirrorMatched(single, tx));
    BatchTakesFirst(w, single, batch, tx);
    SingleTakesToo(u, single, batch, tx);
    RunOfTwo(w, [MirrorMatched(batch, tx), MirrorMatched(single, tx)], u, v);
  }

  lemma BatchTakesFirst(w: World, single: Payment, batch: Payment, tx: TxId)
    requires batch in w.store.batches && single !in w.store.batches && tx in w.executed
    requires AllIn(w.store, single, Verified) && AllIn(w.store, batch, Verified)
    requires !Claimed(w.store, single, tx) && !Claimed(w.store, batch, tx)
    ensures var s := Step(w, MirrorMatched(batch, tx)).store;
      && batch in s.batches && s.batches[batch].tx == Some(tx) && single !in s.batches
      && AllIn(s, single, Verified) && !Claimed(s, single, tx)
  {
    var u := Step(w, MirrorMatched(batch, tx));
    assert UnitsOf(u.store.purchases, single) == UnitsOf(w.store.purchases, single);
  }

  lemma SingleTakesToo(u: World, single: Payment, batch: Payment, tx: TxId)
    requires batch in u.store.batches && u.store.batches[batch].tx == Some(tx) && single !in u.store.batches
    requires AllIn(u.store, single, Verified) && !Claimed(u.store, single, tx) && tx in u.executed
    ensures var s := Step(u, MirrorMatched(single, tx)).store; !RailsDisjoint(s.purchases, s.batches)
  {
    var v := Step(u, MirrorMatched(single, tx));
    var k :| k in UnitsOf(u.store.purchases, single);
    assert v.store.purchases[k].tx == Some(tx) && v.store.batches[batch].tx == Some(tx);
  }

  // -------------------------------------------------- such a world can be reached

  const SINGLE: Payment := 10
  const BATCH: Payment := 11

  const SHELF := Catalog(0, map[7 := None], map[1 := Listing(7, Published)], map[1 := Offer(1, true, None)])
  const ONE_UNIT := Purchase(1, 0, 100, 0, false, Pending, NoReason, None)
  const HALF_UNIT := ONE_UNIT.(amount := 50)

  /** The shop with a single purchase and a batch of the same price, in the given
      statuses. */
  function Shop(single: Status, batch: Status, reason: Reason): Store {
    Store(SHELF,
          map[PurchaseId(SINGLE, 0) := ONE_UNIT.(status := single, reason := reason),
              PurchaseId(BATCH, 0) := HALF_UNIT.(status := batch), PurchaseId(BATCH, 1) := HALF_UNIT.(status := batch)],
          map[BATCH := Batch(2, false, batch, NoReason, None)], map[], map[], map[])
  }

  const SET_UP := [AccountSet(7, None), ListingAdded(1, Listing(7, Published)), OfferAdded(1, Offer(1, true, None))]

  const BUYING := [
    Reserving(SINGLE, [Unit(1, 100)], false, 0, 0, false),
    Reserving(BATCH, [Unit(1, 50), Unit(1, 50)], true, 0, 0, false)]

  const PAYING := [VerifyAccepted(SINGLE), VerifyAccepted(BATCH), SettleLost(SINGLE, true)]

  lemma RunOfTwo(w: World, events: seq<Event>, u: World, v: World)
    requires |events| == 2 && Enabled(w, events[0]) && Step(w, events[0]) == u && Enabled(u, events[1]) && Step(u, events[1]) == v
    ensures Possible(w, events) && Exec(w, events) == v
  {
    assert events[1..][1..] == [] && events[1..][0] == events[1];
    assert Possible(v, []) && Exec(v, []) == v;
    assert Possible(u, events[1..]) && Exec(u, events[1..]) == v;
  }

  lemma RunOfThree(w: World, events: seq<Event>, t: World, u: World, v: World)
    requires |events| == 3 && Enabled(w, events[0]) && Step(w, events[0]) == t
    requires Enabled(t, events[1]) && Step(t, events[1]) == u && Enabled(u, events[2]) && Step(u, events[2]) == v
    ensures Possible(w, events) && Exec(w, events) == v
  {
    RunOfTwo(t, events[1..], u, v);
  }

  lemma ShelfIsSetUp()
    ensures Possible(START, SET_UP) && Exec(START, SET_UP) == World(Store(SHELF, map[], map[], map[], map[], map[]), {})
  {
    var u := Step(START, SET_UP[0]);
    var v := Step(u, SET_UP[1]);
    RunOfThree(START, SET_UP, u, v, Step(v, SET_UP[2]));
  }

  /** The shop with the single purchase only. */
  const ONE_SOLD := Store(SHELF, map[PurchaseId(SINGLE, 0) := ONE_UNIT], map[], map[], map[], map[])

  lemma SingleIsReserved()
    ensures Step(World(Store(SHELF, map[], map[], map[], map[], map[]), {}), BUYING[0]) == World(ONE_SOLD, {})
  {
    var w := World(Store(SHELF, map[], map[], map[], map[], map[]), {});
    assert NewKeys(SINGLE, 1) == {PurchaseId(SINGLE, 0)};
    assert UnitsOf(w.store.purchases, SINGLE) == {};
    assert Step(w, BUYING[0]).store.purchases == ONE_SOLD.purchases;
  }

  lemma BatchIsReserved()
    ensures Step(World(ONE_SOLD, {}), BUYING[1]) == World(Shop(Pending, Pending, NoReason), {})
  {
    var w := World(ONE_SOLD, {});
    assert NewKeys(BATCH, 2) == {PurchaseId(BATCH, 0), PurchaseId(BATCH, 1)};
    assert UnitsOf(w.store.purchases, BATCH) == {};
    assert Step(w, BUYING[1]).store.purchases == Shop(Pending, Pending, NoReason).purchases;
  }

  lemma BothAreReserved()
    ensures var w := World(Store(SHELF, map[], map[], map[], map[], map[]), {});
      Possible(w, BUYING) && Exec(w, BUYING) == World(Shop(Pending, Pending, NoReason), {})
  {
    SingleIsReserved();
    BatchIsReserved();
    RunOfTwo(World(Store(SHELF, map[], map[], map[], map[], map[]), {}), BUYING, World(ONE_SOLD, {}),
             World(Shop(Pending, Pending, NoReason), {}));
  }

  lemma ShopUnits(single: Status, batch: Status, reason: Reason)
    ensures UnitsOf(Shop(single, batch, reason).purchases, SINGLE) == {PurchaseId(SINGLE, 0)}
    ensures UnitsOf(Shop(single, batch, reason).purchases, BATCH) == {PurchaseId(BATCH, 0), PurchaseId(BATCH, 1)}
  {
  }

  lemma SingleVerifies()
    ensures Step(World(Shop(Pending, Pending, NoReason), {}), VerifyAccepted(SINGLE)) == World(Shop(Verified, Pending, NoReason), {})
  {
    var w, u := World(Shop(Pending, Pending, NoReason), {}), World(Shop(Verified, Pending, NoReason), {});
    ShopUnits(Pending, Pending, NoReason);
    assert Step(w, VerifyAccepted(SINGLE)).store.purchases == u.store.purchases;
    assert Step(w, VerifyAccepted(SINGLE)).store.batches == u.store.batches;
  }

  lemma BatchVerifies()
    ensures Step(World(Shop(Verified, Pending, NoReason), {}), VerifyAccepted(BATCH)) == World(Shop(Verified, Verified, NoReason), {})
  {
    var w, u := World(Shop(Verified, Pending, NoReason), {}), World(Shop(Verified, Verified, NoReason), {});
    ShopUnits(Verified, Pending, NoReason);
    assert Step(w, VerifyAccepted(BATCH)).store.purchases == u.store.purchases;
    assert Step(w, VerifyAccepted(BATCH)).store.batches == u.store.batches;
  }

  lemma SingleSettlesUnheard()
    ensures var w := World(Shop(Verified, Verified, NoReason), {});
      Enabled(w, SettleLost(SINGLE, true)) && Step(w, SettleLost(SINGLE, true)) == World(Shop(Verified, Verified, Facilitator), {SINGLE})
  {
    var w, u := World(Shop(Verified, Verified, NoReason), {}), World(Shop(Verified, Verified, Facilitator), {SINGLE});
    ShopUnits(Verified, Verified, NoReason);
    assert PurchaseId(SINGLE, 0) in UnitsOf(w.store.purchases, SINGLE);
    assert Step(w, SettleLost(SINGLE, true)).store.purchases == u.store.purchases;
    assert Step(w, SettleLost(SINGLE, true)).store.batches == u.store.batches;
  }

  lemma OneTransferExecutes()
    ensures var w := World(Shop(Pending, Pending, NoReason), {});
      Possible(w, PAYING) && Exec(w, PAYING) == World(Shop(Verified, Verified, Facilitator), {SINGLE})
  {
    SingleVerifies();
    BatchVerifies();
    SingleSettlesUnheard();
    RunOfThree(World(Shop(Pending, Pending, NoReason), {}), PAYING, World(Shop(Verified, Pending, NoReason), {}),
               World(Shop(Verified, Verified, NoReason), {}), World(Shop(Verified, Verified, Facilitator), {SINGLE}));
  }

  lemma {:induction false} RunsJoin(w: World, a: seq<Event>, b: seq<Event>)
    requires Possible(w, a) && Possible(Exec(w, a), b)
    ensures Possible(w, a + b) && Exec(w, a + b) == Exec(Exec(w, a), b)
    decreases |a|
  {
    if a == [] {
      assert a + b == b;
    } else {
      assert (a + b)[1..] == a[1..] + b;
      RunsJoin(Step(w, a[0]), a[1..], b);
    }
  }

  const BEFORE_MATCHING := SET_UP + BUYING + PAYING

  const WAITING := World(Shop(Verified, Verified, Facilitator), {SINGLE})

  lemma WaitingIsReachable()
    ensures Possible(START, BEFORE_MATCHING) && Exec(START, BEFORE_MATCHING) == WAITING
  {
    ShelfIsSetUp();
    BothAreReserved();
    RunsJoin(START, SET_UP, BUYING);
    OneTransferExecutes();
    RunsJoin(START, SET_UP + BUYING, PAYING);
  }

  /** From the empty shop: one executed transfer ends up named on both rails. */
  lemma SharedTransferIsReachable()
    ensures var run := BEFORE_MATCHING + [MirrorMatched(BATCH, SINGLE), MirrorMatched(SINGLE, SINGLE)];
      && Possible(START, BEFORE_MATCHING) && Exec(START, BEFORE_MATCHING).executed == {SINGLE} && Possible(START, run)
      && !RailsDisjoint(Exec(START, run).store.purchases, Exec(START, run).store.batches)
  {
    WaitingIsReachable();
    WaitingIsUnclaimed();
    BothPayAlike();
    RailsCanShareATransfer(WAITING, SINGLE, BATCH, SINGLE, 0, 0, 100);
    RunsJoin(START, BEFORE_MATCHING, [MirrorMatched(BATCH, SINGLE), MirrorMatched(SINGLE, SINGLE)]);
  }

  lemma BothPayAlike()
    ensures Pays(WAITING.store, SINGLE, 0, 0, 100) && Pays(WAITING.store, BATCH, 0, 0, 100)
  {
    var s := WAITING.store;
    ShopUnits(Verified, Verified, Facilitator);
    var none: map<PurchaseId, nat> := map[];
    TotalInsert(none, PurchaseId(SINGLE, 0), 100);
    assert GrossOf(s, UnitsOf(s.purchases, SINGLE)) == none[PurchaseId(SINGLE, 0) := 100];
    TotalInsert(none, PurchaseId(BATCH, 0), 50);
    TotalInsert(none[PurchaseId(BATCH, 0) := 50], PurchaseId(BATCH, 1), 50);
    assert GrossOf(s, UnitsOf(s.purchases, BATCH)) == none[PurchaseId(BATCH, 0) := 50][PurchaseId(BATCH, 1) := 50];
  }

  lemma WaitingIsUnclaimed()
    ensures var s := WAITING.store;
      && BATCH in s.batches && SINGLE !in s.batches && AllIn(s, SINGLE, Verified) && AllIn(s, BATCH, Verified)
      && !Claimed(s, SINGLE, SINGLE) && !Claimed(s, BATCH, SINGLE)
  {
    ShopUnits(Verified, Verified, Facilitator);
  }
}
