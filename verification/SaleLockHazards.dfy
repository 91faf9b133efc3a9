/** The one way round the locks: an offer created while a listing change or a
    closure is still collecting the model's offers. */
module SaleLockHazards {
  import opened Wrappers
  import opened Ledger
  import opened Market
  import opened SaleLocks
  import opened SaleLockSafety

  const OLD_SALE := PurchaseId(1, 0)
  const NEW_SALE := PurchaseId(2, 0)
  const NEW_ROWS: map<PurchaseId, OfferId> := map[NEW_SALE := 2]

  /** One published listing with one active offer, and one failed purchase of it. */
  const SHOP := Db(map[1 := Listing(7, Published)], map[1 := Offer(1, true, None)], {1}, map[], map[], None, map[],
                   map[OLD_SALE := Sale(1, false, FailedVerification, false, false)])

  // ------------------------------------------------------ how the shop got there

  const OLD_ROWS: map<PurchaseId, OfferId> := map[OLD_SALE := 1]

  const OPENING := [AddListing(1, 7), AddOffer(1, 1, None), Publish(1)]
  const FIRST_SALE := [BeginBuying(30, OLD_ROWS, false), LockOffer(30, 1), SeeActive(30), SeeListing(30, 1), InsertRows(30),
                      CommitBuying(30), Fail(OLD_SALE)]

  const OPENED := SHOP.(sales := map[])

  function Serving(locks: map<OfferId, Txn>, activeSeen: bool, seen: set<OfferId>, inserted: bool): Db {
    OPENED.(offerLocks := locks, work := map[30 := Buying(OLD_ROWS, false, activeSeen, seen, inserted)])
  }

  lemma {:induction false} RunThrough(states: seq<Db>, events: seq<Event>)
    requires |states| == |events| + 1
    requires forall i :: 0 <= i < |events| ==> Goes(states[i], events[i], states[i + 1])
    ensures Possible(states[0], events) && Exec(states[0], events) == states[|events|]
    decreases |events|
  {
    if events != [] {
      RunThrough(states[1..], events[1..]);
    }
  }

  lemma ShopCanOpen()
    ensures Possible(START, OPENING) && Exec(START, OPENING) == OPENED
  {
    OneOfferIsAdded();
    var s1 := START.(listings := map[1 := Listing(7, Draft)]);
    var s2 := s1.(offers := map[1 := Offer(1, true, None)], used := {1});
    assert Step(s2, Publish(1)).listings == map[1 := Listing(7, Published)];
    RunThrough([START, s1, s2, OPENED], OPENING);
  }

  lemma OneOfferIsAdded()
    ensures var s1 := START.(listings := map[1 := Listing(7, Draft)]);
      Goes(START, AddListing(1, 7), s1)
      && Goes(s1, AddOffer(1, 1, None), s1.(offers := map[1 := Offer(1, true, None)], used := {1}))
  {
    var s1 := START.(listings := map[1 := Listing(7, Draft)]);
    assert Step(START, AddListing(1, 7)).listings == s1.listings;
    assert Step(s1, AddOffer(1, 1, None)).offers == map[1 := Offer(1, true, None)];
    assert Step(s1, AddOffer(1, 1, None)).used == {1};
  }

  lemma OnlyOldOffer()
    ensures forall o :: o in OLD_ROWS.Values <==> o == 1
  {
    assert OLD_ROWS[OLD_SALE] == 1;
  }

  lemma FirstSaleBooks()
    ensures Goes(Serving(map[1 := 30], true, {1}, true), CommitBuying(30), BOOKED)
  {
    var s := Serving(map[1 := 30], true, {1}, true);
    var a := Step(s, CommitBuying(30));
    assert a.offerLocks == map[] && a.work == map[];
    assert a.sales == BOOKED.sales;
  }

  const BOOKED := OPENED.(sales := map[OLD_SALE := Sale(1, false, Pending, false, false)])

  /** `s` takes the step to `t`. */
  predicate Goes(s: Db, e: Event, t: Db) {
    Enabled(s, e) && Step(s, e) == t
  }

  lemma FirstBuyerLocks()
    ensures Goes(OPENED, BeginBuying(30, OLD_ROWS, false), Serving(map[], false, {}, false))
    ensures Goes(Serving(map[], false, {}, false), LockOffer(30, 1), Serving(map[1 := 30], false, {}, false))
  {
    OnlyOldOffer();
    assert OLD_SALE in OLD_ROWS;
    assert Step(OPENED, BeginBuying(30, OLD_ROWS, false)).work == Serving(map[], false, {}, false).work;
    var s := Serving(map[], false, {}, false);
    assert Wants(s, s.work[30], 1);
    assert Step(s, LockOffer(30, 1)).offerLocks == map[1 := 30];
  }

  lemma FirstBuyerLooks()
    ensures Goes(Serving(map[1 := 30], false, {}, false), SeeActive(30), Serving(map[1 := 30], true, {}, false))
    ensures Goes(Serving(map[1 := 30], true, {}, false), SeeListing(30, 1), Serving(map[1 := 30], true, {1}, false))
  {
    OnlyOldOffer();
    assert Step(Serving(map[1 := 30], false, {}, false), SeeActive(30)).work == Serving(map[1 := 30], true, {}, false).work;
    var s := Serving(map[1 := 30], true, {}, false);
    assert {} + {1} == {1} && Step(s, SeeListing(30, 1)).work[30].seen == {1};
    assert Step(s, SeeListing(30, 1)).work == Serving(map[1 := 30], true, {1}, false).work;
  }

  lemma FirstBuyerInserts()
    ensures Goes(Serving(map[1 := 30], true, {1}, false), InsertRows(30), Serving(map[1 := 30], true, {1}, true))
    ensures Goes(BOOKED, Fail(OLD_SALE), SHOP)
  {
    OnlyOldOffer();
    assert OLD_ROWS.Values == {1};
    assert Step(Serving(map[1 := 30], true, {1}, false), InsertRows(30)).work == Serving(map[1 := 30], true, {1}, true).work;
    assert Step(BOOKED, Fail(OLD_SALE)).sales == SHOP.sales;
  }

  lemma FirstSaleFails()
    ensures Possible(OPENED, FIRST_SALE) && Exec(OPENED, FIRST_SALE) == SHOP
  {
    FirstBuyerLocks();
    FirstBuyerLooks();
    FirstBuyerInserts();
    FirstSaleBooks();
    RunThrough([OPENED, Serving(map[], false, {}, false), Serving(map[1 := 30], false, {}, false),
                Serving(map[1 := 30], true, {}, false), Serving(map[1 := 30], true, {1}, false),
                Serving(map[1 := 30], true, {1}, true), BOOKED, SHOP], FIRST_SALE);
  }

  /** The shop both hazards start from is reached from the empty one. */
  lemma ShopIsReachable()
    ensures Possible(START, OPENING + FIRST_SALE) && Exec(START, OPENING + FIRST_SALE) == SHOP
  {
    ShopCanOpen();
    FirstSaleFails();
    RunsJoin(START, OPENING, FIRST_SALE);
  }

  lemma OnlyNewOffer()
    ensures forall o :: o in NEW_ROWS.Values <==> o == 2
  {
    assert NEW_ROWS[NEW_SALE] == 2;
  }

  lemma RunSplits(db: Db, first: Event, rest: seq<Event>)
    requires Enabled(db, first) && Possible(Step(db, first), rest)
    ensures Possible(db, [first] + rest) && Exec(db, [first] + rest) == Exec(Step(db, first), rest)
  {
  }

  lemma {:induction false} RunsJoin(db: Db, first: seq<Event>, rest: seq<Event>)
    requires Possible(db, first) && Possible(Exec(db, first), rest)
    ensures Possible(db, first + rest) && Exec(db, first + rest) == Exec(Exec(db, first), rest)
    decreases |first|
  {
    if first == [] {
      assert first + rest == rest;
    } else {
      RunsJoin(Step(db, first[0]), first[1..], rest);
      assert (first + rest)[1..] == first[1..] + rest;
    }
  }

  lemma RunOfTwo(s: Db, b: seq<Event>, s1: Db, s2: Db)
    requires |b| == 2 && Enabled(s, b[0]) && s1 == Step(s, b[0]) && Enabled(s1, b[1]) && s2 == Step(s1, b[1])
    ensures Possible(s, b) && Exec(s, b) == s2
  {
    RunSplits(s1, b[1], []);
    RunSplits(s, b[0], [b[1]]);
    assert [b[0]] + [b[1]] == b;
  }

  /** A second offer appears, and a buyer locks it and reads its listing. */
  const BUYER_ARRIVES := [AddOffer(2, 1, None), BeginBuying(20, NEW_ROWS, false), LockOffer(20, 2)]
  const BUYER_LOOKS := [SeeActive(20), SeeListing(20, 2)]

  function WithBuyer(db: Db, activeSeen: bool, seen: set<OfferId>): Db {
    db.(offers := db.offers[2 := Offer(1, true, None)], used := db.used + {2},
        offerLocks := db.offerLocks[2 := 20], work := db.work[20 := Buying(NEW_ROWS, false, activeSeen, seen, false)])
  }

  predicate Open(db: Db) {
    && 20 !in db.work && 2 !in db.used && 2 !in db.offers && 2 !in db.offerLocks && 1 !in db.rowLocks
    && 1 in db.listings && db.listings[1].status == Published
  }

  lemma BuyerCanArrive(db: Db)
    requires Open(db)
    ensures Possible(db, BUYER_ARRIVES) && Exec(db, BUYER_ARRIVES) == WithBuyer(db, false, {})
  {
    OnlyNewOffer();
    assert NEW_SALE in NEW_ROWS;
    var b := BUYER_ARRIVES;
    var s1 := Step(db, b[0]);
    var s2 := Step(s1, b[1]);
    RunSplits(s2, b[2], []);
    RunSplits(s1, b[1], [b[2]]);
    RunSplits(db, b[0], [b[1]] + [b[2]]);
    assert [b[0]] + ([b[1]] + [b[2]]) == b;
  }

  lemma BuyerCanLook(db: Db)
    requires Open(db)
    ensures Possible(WithBuyer(db, false, {}), BUYER_LOOKS)
    ensures Exec(WithBuyer(db, false, {}), BUYER_LOOKS) == WithBuyer(db, true, {2})
  {
    OnlyNewOffer();
    BuyerSeesListing(db);
    var s, s1 := WithBuyer(db, false, {}), WithBuyer(db, true, {});
    assert Step(s, SeeActive(20)).work == s1.work;
    RunThrough([s, s1, WithBuyer(db, true, {2})], BUYER_LOOKS);
  }

  lemma BuyerSeesListing(db: Db)
    requires Open(db)
    ensures Goes(WithBuyer(db, true, {}), SeeListing(20, 2), WithBuyer(db, true, {2}))
  {
    OnlyNewOffer();
    var s := WithBuyer(db, true, {});
    assert Step(s, SeeListing(20, 2)).work[20].seen == {2};
    assert Step(s, SeeListing(20, 2)).work == WithBuyer(db, true, {2}).work;
  }

  // ------------------------------------------------------------------ pausing

  const PAUSE_BEGINS := [BeginChange(10, 1, Pause)]
  const PAUSE_LOCKS := [LockOffer(10, 1), LockRow(10)]
  const PAUSE_ENDS := [CommitChange(10), InsertRows(20)]

  function Pausing(): Db {
    SHOP.(work := map[10 := Changing(1, Pause, {1}, false)])
  }

  /** The pause has committed, and the buyer's rows are in its transaction. */
  function PausedWithBuyer(inserted: bool): Db {
    WithBuyer(SHOP, true, {2}).(
      listings := map[1 := Listing(7, Paused)],
      work := map[20 := Buying(NEW_ROWS, false, true, {2}, inserted)])
  }

  lemma PauseCanBegin()
    ensures Possible(SHOP, PAUSE_BEGINS) && Exec(SHOP, PAUSE_BEGINS) == Pausing() && Open(Pausing())
  {
    var s := Step(SHOP, PAUSE_BEGINS[0]);
    assert (set o | o in SHOP.offers && SHOP.offers[o].model == 1 && SHOP.offers[o].active) == {1};
    assert s.work[10].snapshot == {1};
    assert s.work == map[10 := Changing(1, Pause, {1}, false)];
    assert s == Pausing();
    RunSplits(SHOP, PAUSE_BEGINS[0], []);
  }

  function PauseLocked(): Db {
    WithBuyer(SHOP, true, {2}).(
      offerLocks := map[1 := 10, 2 := 20], rowLocks := map[1 := 10],
      work := map[10 := Changing(1, Pause, {1}, true), 20 := Buying(NEW_ROWS, false, true, {2}, false)])
  }

  lemma PauseCanLock()
    ensures Possible(WithBuyer(Pausing(), true, {2}), PAUSE_LOCKS)
    ensures Exec(WithBuyer(Pausing(), true, {2}), PAUSE_LOCKS) == PauseLocked()
  {
    var s := WithBuyer(Pausing(), true, {2});
    var s1 := Step(s, PAUSE_LOCKS[0]);
    var s2 := Step(s1, PAUSE_LOCKS[1]);
    assert s2.work == PauseLocked().work && s2.offerLocks == PauseLocked().offerLocks && s2.rowLocks == PauseLocked().rowLocks;
    RunOfTwo(s, PAUSE_LOCKS, s1, s2);
  }

  lemma PauseCanCommit()
    ensures Enabled(PauseLocked(), CommitChange(10)) && Step(PauseLocked(), CommitChange(10)) == PausedWithBuyer(false)
  {
    assert LegalFrom(Pause, PauseLocked().listings[1].status);
    var s := Step(PauseLocked(), CommitChange(10));
    PauseReleases();
    assert s.listings == PausedWithBuyer(false).listings;
  }

  /** The pause's locks go, the buyer's stay. */
  lemma PauseReleases()
    ensures Ended(PauseLocked(), 10).work == PausedWithBuyer(false).work
    ensures Ended(PauseLocked(), 10).offerLocks == PausedWithBuyer(false).offerLocks
    ensures Ended(PauseLocked(), 10).rowLocks == map[]
  {
  }

  lemma RowsCanFollow()
    ensures Enabled(PausedWithBuyer(false), InsertRows(20)) && Step(PausedWithBuyer(false), InsertRows(20)) == PausedWithBuyer(true)
  {
    OnlyNewOffer();
    assert NEW_ROWS.Values == {2};
    assert Step(PausedWithBuyer(false), InsertRows(20)).work == PausedWithBuyer(true).work;
  }

  lemma PauseCanEnd()
    ensures Possible(PauseLocked(), PAUSE_ENDS) && Exec(PauseLocked(), PAUSE_ENDS) == PausedWithBuyer(true)
  {
    PauseCanCommit();
    RowsCanFollow();
    RunOfTwo(PauseLocked(), PAUSE_ENDS, PausedWithBuyer(false), PausedWithBuyer(true));
  }

  /** A listing is paused while a second offer is being added to it: a buyer of the
      new offer commits a reservation after the pause. */
  lemma PausedListingSells()
    ensures var run := OPENING + FIRST_SALE + (PAUSE_BEGINS + (BUYER_ARRIVES + (BUYER_LOOKS + (PAUSE_LOCKS + PAUSE_ENDS))));
      && Possible(START, run)
      && Enabled(Exec(START, run), CommitBuying(20)) && 2 in Exec(START, run).work[20].rows.Values
      && !PublishedOffer(Exec(START, run).listings, Exec(START, run).offers, 2)
  {
    ShopIsReachable();
    OnlyNewOffer();
    PauseCanBegin();
    BuyerCanArrive(Pausing());
    BuyerCanLook(Pausing());
    PauseCanLock();
    PauseCanEnd();
    RunsJoin(WithBuyer(Pausing(), true, {2}), PAUSE_LOCKS, PAUSE_ENDS);
    RunsJoin(WithBuyer(Pausing(), false, {}), BUYER_LOOKS, PAUSE_LOCKS + PAUSE_ENDS);
    RunsJoin(Pausing(), BUYER_ARRIVES, BUYER_LOOKS + (PAUSE_LOCKS + PAUSE_ENDS));
    RunsJoin(SHOP, PAUSE_BEGINS, BUYER_ARRIVES + (BUYER_LOOKS + (PAUSE_LOCKS + PAUSE_ENDS)));
    RunsJoin(START, OPENING + FIRST_SALE, PAUSE_BEGINS + (BUYER_ARRIVES + (BUYER_LOOKS + (PAUSE_LOCKS + PAUSE_ENDS))));
    assert NEW_ROWS.Keys !! PausedWithBuyer(true).sales.Keys;
  }

  // ------------------------------------------------------------------- closing

  const CLOSING_BEGINS := [BeginClosing(10, 7)]
  const CLOSING_LOCKS := [LockOffer(10, 1), LockRows(10)]
  const CLOSING_CHECKS := [SeeNothingOwed(10), SeeNothingInFlight(10)]

  function ClosingShop(): Db {
    SHOP.(advisory := Some(10), work := map[10 := Closing(7, {1}, Gathering)])
  }

  function ClosingAt(stage: Stage): Db {
    WithBuyer(ClosingShop(), true, {2}).(
      offerLocks := map[1 := 10, 2 := 20], rowLocks := map[1 := 10],
      work := map[10 := Closing(7, {1}, stage), 20 := Buying(NEW_ROWS, false, true, {2}, false)])
  }

  lemma ClosingCanBegin()
    ensures Possible(SHOP, CLOSING_BEGINS) && Exec(SHOP, CLOSING_BEGINS) == ClosingShop() && Open(ClosingShop())
  {
    var s := Step(SHOP, CLOSING_BEGINS[0]);
    assert (set o | o in SHOP.offers && OfDesigner(SHOP.listings, SHOP.offers, o, 7)) == {1};
    assert s == ClosingShop();
    RunSplits(SHOP, CLOSING_BEGINS[0], []);
  }

  lemma ClosingCanLock()
    ensures Possible(WithBuyer(ClosingShop(), true, {2}), CLOSING_LOCKS)
    ensures Exec(WithBuyer(ClosingShop(), true, {2}), CLOSING_LOCKS) == ClosingAt(RowsHeld)
  {
    var s := WithBuyer(ClosingShop(), true, {2});
    var s1 := Step(s, CLOSING_LOCKS[0]);
    ClosingLocksRows();
    assert s1 == OneOfferHeld();
    RunOfTwo(s, CLOSING_LOCKS, s1, ClosingAt(RowsHeld));
  }

  function OneOfferHeld(): Db {
    WithBuyer(ClosingShop(), true, {2}).(offerLocks := map[2 := 20][1 := 10])
  }

  lemma ClosingMayLockRows()
    ensures Enabled(OneOfferHeld(), LockRows(10))
  {
  }

  lemma ClosingLocksRows()
    ensures Enabled(OneOfferHeld(), LockRows(10)) && Step(OneOfferHeld(), LockRows(10)) == ClosingAt(RowsHeld)
  {
    ClosingMayLockRows();
    var h := OneOfferHeld();
    assert (set m | m in h.listings && h.listings[m].designer == 7) == {1};
    var s := Step(h, LockRows(10));
    assert s.work == ClosingAt(RowsHeld).work && s.offerLocks == ClosingAt(RowsHeld).offerLocks;
    assert s.rowLocks == ClosingAt(RowsHeld).rowLocks;
  }

  lemma ClosingSeesNothingOwed()
    ensures Enabled(ClosingAt(RowsHeld), SeeNothingOwed(10))
    ensures Step(ClosingAt(RowsHeld), SeeNothingOwed(10)) == ClosingAt(NothingOwed)
  {
  }

  lemma ClosingSeesNothingInFlight()
    ensures Enabled(ClosingAt(NothingOwed), SeeNothingInFlight(10))
    ensures Step(ClosingAt(NothingOwed), SeeNothingInFlight(10)) == ClosingAt(NothingInFlight)
  {
  }

  lemma ClosingCanCheck()
    ensures Possible(ClosingAt(RowsHeld), CLOSING_CHECKS) && Exec(ClosingAt(RowsHeld), CLOSING_CHECKS) == ClosingAt(NothingInFlight)
  {
    ClosingSeesNothingOwed();
    ClosingSeesNothingInFlight();
    RunOfTwo(ClosingAt(RowsHeld), CLOSING_CHECKS, ClosingAt(NothingOwed), ClosingAt(NothingInFlight));
  }

  const BUYER_ENDS := [InsertRows(20), CommitBuying(20)]

  /** The closure commits with the buyer still open. */
  lemma ClosingMayCommit()
    ensures Enabled(ClosingAt(NothingInFlight), CommitClosing(10))
  {
    var s := ClosingAt(NothingInFlight);
    assert OfModel(s.offers, s.sales[OLD_SALE].offer, 1);
    assert SoldModel(s, 1);
  }

  lemma ClosingCanCommit()
    ensures Enabled(ClosingAt(NothingInFlight), CommitClosing(10))
    ensures ClosedUnderBuyer(Step(ClosingAt(NothingInFlight), CommitClosing(10)), false)
  {
    ClosingMayCommit();
    var s := ClosingAt(NothingInFlight);
    assert OfModel(s.offers, s.sales[OLD_SALE].offer, 1);
    assert SoldModel(s, 1);
    var c := Step(s, CommitClosing(10));
    assert c.work == map[20 := Buying(NEW_ROWS, false, true, {2}, false)];
    assert c.offers == s.offers;
  }

  predicate ClosedUnderBuyer(c: Db, inserted: bool) {
    && c.listings == map[1 := Listing(7, Retired)] && c.offers == ClosingAt(NothingInFlight).offers && c.sales == SHOP.sales
    && c.work == map[20 := Buying(NEW_ROWS, false, true, {2}, inserted)]
  }

  lemma BuyerCanInsert(c: Db)
    requires ClosedUnderBuyer(c, false)
    ensures Enabled(c, InsertRows(20)) && ClosedUnderBuyer(Step(c, InsertRows(20)), true)
  {
    OnlyNewOffer();
    assert NEW_ROWS.Values == {2};
  }

  lemma BuyerCanCommit(c: Db)
    requires ClosedUnderBuyer(c, true)
    ensures Enabled(c, CommitBuying(20)) && !ClosedOk(Step(c, CommitBuying(20)), 7)
  {
    var s := Step(c, CommitBuying(20));
    assert s.sales[NEW_SALE] == Sale(2, false, Pending, false, false);
    assert OfDesigner(s.listings, s.offers, 2, 7) && !Quit(s.sales[NEW_SALE]);
  }

  lemma BuyerCanEnd(c: Db)
    requires ClosedUnderBuyer(c, false)
    ensures Possible(c, BUYER_ENDS) && Idle(c, BUYER_ENDS, 7) && !ClosedOk(Exec(c, BUYER_ENDS), 7)
  {
    var b := BUYER_ENDS;
    BuyerCanInsert(c);
    var s := Step(c, b[0]);
    BuyerCanCommit(s);
    RunOfTwo(c, b, s, Step(s, b[1]));
    assert b[1..] == [b[1]] && b[1..][1..] == [];
  }

  /** An offer added under an account closure: the closure commits, the designer
      does nothing more, and a real purchase of the designer is in flight. */
  lemma ClosureCanMissASale()
    ensures var run := OPENING + FIRST_SALE + (CLOSING_BEGINS + (BUYER_ARRIVES + (BUYER_LOOKS + (CLOSING_LOCKS + CLOSING_CHECKS))));
      && Possible(START, run) && Enabled(Exec(START, run), CommitClosing(10)) && Exec(START, run).work[10].designer == 7
      && var c := Step(Exec(START, run), CommitClosing(10));
         Possible(c, BUYER_ENDS) && Idle(c, BUYER_ENDS, 7) && !ClosedOk(Exec(c, BUYER_ENDS), 7)
  {
    ShopIsReachable();
    ClosingCanBegin();
    BuyerCanArrive(ClosingShop());
    BuyerCanLook(ClosingShop());
    ClosingCanLock();
    ClosingCanCheck();
    RunsJoin(WithBuyer(ClosingShop(), true, {2}), CLOSING_LOCKS, CLOSING_CHECKS);
    RunsJoin(WithBuyer(ClosingShop(), false, {}), BUYER_LOOKS, CLOSING_LOCKS + CLOSING_CHECKS);
    RunsJoin(ClosingShop(), BUYER_ARRIVES, BUYER_LOOKS + (CLOSING_LOCKS + CLOSING_CHECKS));
    RunsJoin(SHOP, CLOSING_BEGINS, BUYER_ARRIVES + (BUYER_LOOKS + (CLOSING_LOCKS + CLOSING_CHECKS)));
    RunsJoin(START, OPENING + FIRST_SALE, CLOSING_BEGINS + (BUYER_ARRIVES + (BUYER_LOOKS + (CLOSING_LOCKS + CLOSING_CHECKS))));
    ClosingCanCommit();
    BuyerCanEnd(Step(ClosingAt(NothingInFlight), CommitClosing(10)));
  }
}
