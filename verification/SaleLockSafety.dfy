/** No sale while off sale, and closure is final: what every interleaving of the
    lock-level steps keeps. */
module SaleLockSafety {
  import opened Wrappers
  import opened Ledger
  import opened Market
  import opened SaleLocks

  /** No listing change or closure is still collecting the model's offers. A new
      offer row is not in the list such a transaction has read, and until the
      listing row is locked nothing keeps the insert out. */
  predicate NobodyGathering(db: Db, m: ModelId)
    requires m in db.listings
  {
    forall t :: t in db.work ==>
      && (db.work[t].Changing? && db.work[t].model == m ==> db.work[t].rowHeld)
      && (db.work[t].Closing? && db.work[t].designer == db.listings[m].designer ==> db.work[t].stage != Gathering)
  }

  predicate Quiet(db: Db, e: Event) {
    e.AddOffer? && e.model in db.listings ==> NobodyGathering(db, e.model)
  }

  /** The designer's own actions on listings and offers. */
  predicate ActsFor(db: Db, e: Event, d: DesignerId) {
    match e
    case AddListing(_, designer) => designer == d
    case Publish(m) => m in db.listings && db.listings[m].designer == d
    case AddOffer(_, m, _) => m in db.listings && db.listings[m].designer == d
    case CommitChange(t) =>
      t in db.work && db.work[t].Changing? && db.work[t].model in db.listings && db.listings[db.work[t].model].designer == d
    case _ => false
  }

  // ------------------------------------------------------- transactions end

  lemma EndedKeepsInv(db: Db, t: Txn)
    requires Inv(db)
    ensures Inv(Ended(db, t))
  {
  }

  // ------------------------------------------------------------ opening steps

  predicate IsWorkEvent(e: Event) {
    e.BeginBuying? || e.BeginChange? || e.BeginClosing? || e.LockOffer? || e.SeeActive? || e.SeeListing? || e.InsertRows?
    || e.LockRow? || e.LockRows? || e.SeeNothingOwed? || e.SeeNothingInFlight?
  }

  lemma WorkKeepsBuyers(db: Db, e: Event)
    requires Inv(db) && Enabled(db, e) && IsWorkEvent(e)
    ensures Buyers(Step(db, e))
  {
    var a := Step(db, e);
    forall u | u in a.work && a.work[u].Buying?
      ensures BuyerOk(a.listings, a.offers, a.offerLocks, u, a.work[u])
    {
      assert u in db.work && db.work[u].Buying? ==> BuyerOk(db.listings, db.offers, db.offerLocks, u, db.work[u]);
    }
  }

  lemma WorkKeepsChanges(db: Db, e: Event)
    requires Inv(db) && Enabled(db, e) && IsWorkEvent(e)
    ensures Changes(Step(db, e))
  {
    var a := Step(db, e);
    forall u | u in a.work && a.work[u].Changing?
      ensures ChangeOk(a.offers, a.used, a.offerLocks, a.rowLocks, u, a.work[u])
    {
      assert u in db.work && db.work[u].Changing? ==> ChangeOk(db.offers, db.used, db.offerLocks, db.rowLocks, u, db.work[u]);
    }
  }

  /** More locks in other hands leave a closure as it was. */
  lemma ClosingSurvives(db: Db, a: Db, u: Txn, w: Work)
    requires a == db.(offerLocks := a.offerLocks, rowLocks := a.rowLocks, work := a.work)
    requires forall o :: o in db.offerLocks ==> o in a.offerLocks && a.offerLocks[o] == db.offerLocks[o]
    requires forall m :: m in db.rowLocks ==> m in a.rowLocks && a.rowLocks[m] == db.rowLocks[m]
    requires w.Closing? && ClosingOk(db, u, w)
    ensures ClosingOk(a, u, w)
  {
  }

  lemma ClosingAdvances(db: Db, e: Event)
    requires SalesOk(db) && Enabled(db, e)
    requires e.BeginClosing? || e.LockRows? || e.SeeNothingOwed? || e.SeeNothingInFlight?
    requires !e.BeginClosing? ==> ClosingOk(db, e.t, db.work[e.t])
    ensures Step(db, e).work[e.t].Closing? && ClosingOk(Step(db, e), e.t, Step(db, e).work[e.t])
  {
  }

  lemma WorkKeepsClosings(db: Db, e: Event)
    requires Inv(db) && Enabled(db, e) && IsWorkEvent(e)
    ensures Closings(Step(db, e))
  {
    var a := Step(db, e);
    forall u | u in a.work && a.work[u].Closing?
      ensures ClosingOk(a, u, a.work[u])
    {
      if (e.BeginClosing? || e.LockRows? || e.SeeNothingOwed? || e.SeeNothingInFlight?) && e.t == u {
        ClosingAdvances(db, e);
      } else {
        assert ClosingOk(db, u, db.work[u]);
        ClosingSurvives(db, a, u, a.work[u]);
      }
    }
  }

  lemma WorkKeepsSales(db: Db, e: Event)
    requires SalesOk(db) && Enabled(db, e) && IsWorkEvent(e)
    ensures SalesOk(Step(db, e))
  {
    var a := Step(db, e);
    forall k | k in a.sales ensures SaleOk(a, a.sales[k]) { assert SaleOk(db, db.sales[k]); }
  }

  lemma WorkKeepsClosed(db: Db, e: Event, d: DesignerId)
    requires ClosedOk(db, d) && Enabled(db, e) && IsWorkEvent(e)
    ensures ClosedOk(Step(db, e), d)
  {
    assert Step(db, e).sales == db.sales && Step(db, e).offers == db.offers;
  }

  // -------------------------------------------------------------- purchases

  predicate IsSaleEvent(e: Event) {
    e.Verify? || e.Fail? || e.Settle? || e.Mint? || e.Deliver? || e.PayOut?
  }

  /** A purchase under a closure's checks stays harmless: its share, if one falls
      due, still blocks the second check. */
  lemma SaleMoveUnderClosing(db: Db, k: PurchaseId, now: Sale, minted: bool, t: Txn)
    requires k in db.sales && now.offer == db.sales[k].offer && t in db.work && db.work[t].Closing? && ClosingOk(db, t, db.work[t])
    requires minted ==> now.offer !in db.offerLocks
    requires Quit(db.sales[k]) ==> Quit(now)
    requires ShareStillBlocks(db.sales[k]) && !minted ==> ShareStillBlocks(now)
    ensures ClosingOk(db.(sales := db.sales[k := now]), t, db.work[t])
  {
    var d := db.work[t].designer;
    if db.work[t].stage == NothingOwed && minted {
      assert !OfDesigner(db.listings, db.offers, now.offer, d);
    }
  }

  lemma SaleMoveKeepsInv(db: Db, e: Event)
    requires Inv(db) && Enabled(db, e) && IsSaleEvent(e)
    ensures Inv(Step(db, e))
  {
    var now := Step(db, e).sales[e.key];
    var a := db.(sales := db.sales[e.key := now]);
    forall u | u in a.work && a.work[u].Closing?
      ensures ClosingOk(a, u, a.work[u])
    {
      assert ClosingOk(db, u, db.work[u]);
      SaleMoveUnderClosing(db, e.key, now, e.Mint?, u);
    }
    OneSaleKeepsRest(db, e.key, now);
  }

  lemma OneSaleKeepsRest(db: Db, k: PurchaseId, now: Sale)
    requires k in db.sales && SalesOk(db) && SaleOk(db, now) && Buyers(db) && Changes(db)
    ensures var a := db.(sales := db.sales[k := now]);
      SalesOk(a) && Buyers(a) && Changes(a)
  {
  }

  lemma SaleMoveKeepsClosed(db: Db, e: Event, d: DesignerId)
    requires ClosedOk(db, d) && Enabled(db, e) && IsSaleEvent(e)
    ensures ClosedOk(Step(db, e), d)
  {
    var a := Step(db, e);
    assert a.listings == db.listings && a.offers == db.offers;
    assert forall k :: k in a.sales ==> a.sales[k].offer == db.sales[k].offer;
  }

  /** A committing buyer holds offers, so no closure of their designers is past
      its lock phase. */
  lemma NewRowsMissClosings(db: Db, t: Txn, u: Txn, k: PurchaseId)
    requires Inv(db) && Enabled(db, CommitBuying(t)) && k in db.work[t].rows
    requires u in db.work && db.work[u].Closing? && OfDesigner(db.listings, db.offers, db.work[t].rows[k], db.work[u].designer)
    ensures db.work[u].stage == Gathering
  {
    assert BuyerOk(db.listings, db.offers, db.offerLocks, t, db.work[t]);
    assert ClosingOk(db, u, db.work[u]);
    assert db.work[t].rows[k] in db.work[t].rows.Values;
  }

  function Booked(db: Db, t: Txn): Db
    requires Enabled(db, CommitBuying(t))
  {
    db.(sales := db.sales + NewSales(db.work[t].rows, db.work[t].sandbox))
  }

  lemma BookingKeepsInv(db: Db, t: Txn)
    requires Inv(db) && Enabled(db, CommitBuying(t))
    ensures Inv(Booked(db, t))
  {
    var a := Booked(db, t);
    var w := db.work[t];
    assert BuyerOk(db.listings, db.offers, db.offerLocks, t, w);
    forall k | k in a.sales ensures SaleOk(a, a.sales[k]) {
      if k in w.rows {
        assert w.rows[k] in w.rows.Values;
      } else {
        assert SaleOk(db, db.sales[k]);
      }
    }
    forall u | u in a.work && a.work[u].Closing?
      ensures ClosingOk(a, u, a.work[u])
    {
      assert ClosingOk(db, u, db.work[u]);
      forall k | k in w.rows && OfDesigner(db.listings, db.offers, w.rows[k], db.work[u].designer)
        ensures db.work[u].stage == Gathering
      {
        NewRowsMissClosings(db, t, u, k);
      }
    }
  }

  lemma BookingKeepsClosed(db: Db, t: Txn, d: DesignerId)
    requires Inv(db) && ClosedOk(db, d) && Enabled(db, CommitBuying(t))
    ensures ClosedOk(Booked(db, t), d)
  {
    var w := db.work[t];
    assert BuyerOk(db.listings, db.offers, db.offerLocks, t, w);
    forall k | k in w.rows ensures !OfDesigner(db.listings, db.offers, w.rows[k], d) {
      assert w.rows[k] in w.rows.Values;
    }
  }

  // ---------------------------------------------------------------- listings

  /** An open listing change that holds its row holds every active offer of the
      model, so no buyer has seen the listing. */
  lemma HeldRowMissesBuyers(db: Db, t: Txn, u: Txn, o: OfferId)
    requires Inv(db) && t in db.work && db.work[t].Changing? && db.work[t].rowHeld
    requires u in db.work && db.work[u].Buying? && o in db.work[u].seen
    ensures db.offers[o].model != db.work[t].model
  {
    assert ChangeOk(db.offers, db.used, db.offerLocks, db.rowLocks, t, db.work[t]);
    assert BuyerOk(db.listings, db.offers, db.offerLocks, u, db.work[u]);
  }

  function Relisted(db: Db, m: ModelId, status: ListingStatus): Db
    requires m in db.listings
  {
    db.(listings := db.listings[m := db.listings[m].(status := status)])
  }

  lemma RelistingKeepsInv(db: Db, m: ModelId, status: ListingStatus)
    requires Inv(db) && m in db.listings
    requires status == Published || forall u, o :: u in db.work && db.work[u].Buying? && o in db.work[u].seen ==> db.offers[o].model != m
    ensures Inv(Relisted(db, m, status))
  {
    var a := Relisted(db, m, status);
    forall u | u in a.work && a.work[u].Buying?
      ensures BuyerOk(a.listings, a.offers, a.offerLocks, u, a.work[u])
    {
      assert BuyerOk(db.listings, db.offers, db.offerLocks, u, db.work[u]);
    }
    forall u | u in a.work && a.work[u].Closing?
      ensures ClosingOk(a, u, a.work[u])
    {
      assert ClosingOk(db, u, db.work[u]);
    }
    forall k | k in a.sales ensures SaleOk(a, a.sales[k]) { assert SaleOk(db, db.sales[k]); }
  }

  lemma RelistingKeepsClosed(db: Db, m: ModelId, status: ListingStatus, d: DesignerId)
    requires ClosedOk(db, d) && m in db.listings && db.listings[m].designer != d
    ensures ClosedOk(Relisted(db, m, status), d)
  {
  }

  predicate IsOfferEvent(e: Event) {
    e.AddListing? || e.AddOffer? || e.Deactivate? || e.RemoveOffer?
  }

  lemma OfferEventKeepsBuyers(db: Db, e: Event)
    requires Inv(db) && Enabled(db, e) && IsOfferEvent(e)
    ensures Buyers(Step(db, e)) && SalesOk(Step(db, e))
  {
    var a := Step(db, e);
    forall u | u in a.work && a.work[u].Buying?
      ensures BuyerOk(a.listings, a.offers, a.offerLocks, u, a.work[u])
    {
      assert BuyerOk(db.listings, db.offers, db.offerLocks, u, db.work[u]);
    }
    forall k | k in a.sales ensures SaleOk(a, a.sales[k]) { assert SaleOk(db, db.sales[k]); }
  }

  lemma OfferEventKeepsChanges(db: Db, e: Event)
    requires Inv(db) && Enabled(db, e) && IsOfferEvent(e) && Quiet(db, e)
    ensures Changes(Step(db, e))
  {
    var a := Step(db, e);
    forall u | u in a.work && a.work[u].Changing?
      ensures ChangeOk(a.offers, a.used, a.offerLocks, a.rowLocks, u, a.work[u])
    {
      assert ChangeOk(db.offers, db.used, db.offerLocks, db.rowLocks, u, db.work[u]);
    }
  }

  lemma OfferEventKeepsClosing(db: Db, e: Event, u: Txn)
    requires SalesOk(db) && Enabled(db, e) && IsOfferEvent(e) && Quiet(db, e)
    requires u in db.work && db.work[u].Closing? && ClosingOk(db, u, db.work[u])
    ensures ClosingOk(Step(db, e), u, db.work[u])
  {
    assert forall k :: k in db.sales ==> SaleOk(db, db.sales[k]);
    var a, d := Step(db, e), db.work[u].designer;
    assert forall o :: o in db.offers && OfDesigner(a.listings, a.offers, o, d) ==> OfDesigner(db.listings, db.offers, o, d);
  }

  lemma OfferEventKeepsClosings(db: Db, e: Event)
    requires Inv(db) && Enabled(db, e) && IsOfferEvent(e) && Quiet(db, e)
    ensures Closings(Step(db, e))
  {
    var a := Step(db, e);
    forall u | u in a.work && a.work[u].Closing?
      ensures ClosingOk(a, u, a.work[u])
    {
      OfferEventKeepsClosing(db, e, u);
    }
  }

  lemma OfferEventKeepsClosed(db: Db, e: Event, d: DesignerId)
    requires Inv(db) && ClosedOk(db, d) && Enabled(db, e) && IsOfferEvent(e) && !ActsFor(db, e, d)
    ensures ClosedOk(Step(db, e), d)
  {
  }

  // ----------------------------------------------------------------- closure

  function ClosedDb(db: Db, d: DesignerId): Db {
    db.(listings := ClosedListings(db, d), offers := ClosedOffers(db, d))
  }

  /** What stays of an offer after a closure: everything of other designers, and
      the closing designer's offers on sold listings. */
  lemma OffersAfterClosing(db: Db, d: DesignerId, o: OfferId, x: DesignerId)
    requires forall p :: p in db.offers ==> db.offers[p].model in db.listings
    ensures o in ClosedOffers(db, d) ==> o in db.offers && ClosedOffers(db, d)[o] == db.offers[o] && db.offers[o].model in ClosedListings(db, d)
    ensures o in db.offers && !OfDesigner(db.listings, db.offers, o, d) ==> o in ClosedOffers(db, d)
    ensures OfDesigner(ClosedListings(db, d), ClosedOffers(db, d), o, x) ==> OfDesigner(db.listings, db.offers, o, x)
    ensures !OfDesigner(db.listings, db.offers, o, d) ==>
              (PublishedOffer(db.listings, db.offers, o) ==> PublishedOffer(ClosedListings(db, d), ClosedOffers(db, d), o))
  {
  }

  lemma ClosingKeepsBuyers(db: Db, t: Txn)
    requires Inv(db) && Enabled(db, CommitClosing(t))
    ensures Buyers(Ended(ClosedDb(db, db.work[t].designer), t))
  {
    var d := db.work[t].designer;
    var a := Ended(ClosedDb(db, d), t);
    assert ClosingOk(db, t, db.work[t]);
    forall u | u in a.work && a.work[u].Buying?
      ensures BuyerOk(a.listings, a.offers, a.offerLocks, u, a.work[u])
    {
      assert BuyerOk(db.listings, db.offers, db.offerLocks, u, db.work[u]);
      forall o | o in a.work[u].rows.Values && a.work[u].activeSeen
        ensures ActiveOffer(a.offers, o) && Holds(a.offerLocks, u, o)
        ensures PublishedOffer(db.listings, db.offers, o) ==> PublishedOffer(a.listings, a.offers, o)
      {
        OffersAfterClosing(db, d, o, d);
      }
    }
  }

  lemma ClosingKeepsChanges(db: Db, t: Txn)
    requires Inv(db) && Enabled(db, CommitClosing(t))
    ensures Changes(Ended(ClosedDb(db, db.work[t].designer), t))
  {
  }

  lemma ClosingKeepsSales(db: Db, t: Txn)
    requires Inv(db) && Enabled(db, CommitClosing(t))
    ensures SalesOk(Ended(ClosedDb(db, db.work[t].designer), t))
  {
    var d := db.work[t].designer;
    var a := Ended(ClosedDb(db, d), t);
    forall k | k in a.sales ensures SaleOk(a, a.sales[k]) {
      assert SaleOk(db, db.sales[k]);
      assert OfModel(db.offers, db.sales[k].offer, db.offers[db.sales[k].offer].model);
      assert SoldModel(db, db.offers[db.sales[k].offer].model);
    }
  }

  /** A committing closure leaves nothing open for its own designer, and takes
      nothing back for those closed before. */
  lemma ClosingKeepsClosed(db: Db, t: Txn, x: DesignerId)
    requires Inv(db) && Enabled(db, CommitClosing(t)) && (ClosedOk(db, x) || x == db.work[t].designer)
    ensures ClosedOk(Ended(ClosedDb(db, db.work[t].designer), t), x)
  {
    var d := db.work[t].designer;
    var a := Ended(ClosedDb(db, d), t);
    assert ClosingOk(db, t, db.work[t]);
    forall k | k in a.sales && OfDesigner(a.listings, a.offers, a.sales[k].offer, x)
      ensures Quit(a.sales[k])
    {
      OffersAfterClosing(db, d, a.sales[k].offer, x);
    }
  }

  // -------------------------------------------------------------------- runs

  /** One step keeps the invariant, as long as no offer is created under a listing
      change or closure that is still collecting its locks. */
  lemma StepKeepsInv(db: Db, e: Event)
    requires Inv(db) && Enabled(db, e) && Quiet(db, e)
    ensures Inv(Step(db, e))
  {
    if IsWorkEvent(e) {
      WorkKeepsBuyers(db, e);
      WorkKeepsChanges(db, e);
      WorkKeepsClosings(db, e);
      WorkKeepsSales(db, e);
    } else if IsSaleEvent(e) {
      SaleMoveKeepsInv(db, e);
    } else if IsOfferEvent(e) {
      OfferEventKeepsBuyers(db, e);
      OfferEventKeepsChanges(db, e);
      OfferEventKeepsClosings(db, e);
    } else {
      CommitKeepsInv(db, e);
    }
  }

  lemma CommitKeepsInv(db: Db, e: Event)
    requires Inv(db) && Enabled(db, e)
    requires e.CommitBuying? || e.CommitChange? || e.CommitClosing? || e.Abort? || e.Publish?
    ensures Inv(Step(db, e))
  {
    match e {
      case CommitBuying(t) =>
        BookingKeepsInv(db, t);
        EndedKeepsInv(Booked(db, t), t);
      case CommitChange(t) =>
        forall u, o | u in db.work && db.work[u].Buying? && o in db.work[u].seen
          ensures db.offers[o].model != db.work[t].model
        {
          HeldRowMissesBuyers(db, t, u, o);
        }
        RelistingKeepsInv(db, db.work[t].model, Target(db.work[t].action));
        EndedKeepsInv(Relisted(db, db.work[t].model, Target(db.work[t].action)), t);
      case CommitClosing(t) =>
        ClosingKeepsBuyers(db, t);
        ClosingKeepsChanges(db, t);
        ClosingKeepsSales(db, t);
      case Abort(t) => EndedKeepsInv(db, t);
      case Publish(m) => RelistingKeepsInv(db, m, Published);
    }
  }

  lemma StepKeepsClosed(db: Db, e: Event, d: DesignerId)
    requires Inv(db) && ClosedOk(db, d) && Enabled(db, e) && !ActsFor(db, e, d)
    ensures ClosedOk(Step(db, e), d)
  {
    if IsWorkEvent(e) {
      WorkKeepsClosed(db, e, d);
    } else if IsSaleEvent(e) {
      SaleMoveKeepsClosed(db, e, d);
    } else if IsOfferEvent(e) {
      OfferEventKeepsClosed(db, e, d);
    } else {
      match e {
        case CommitBuying(t) =>
          BookingKeepsClosed(db, t, d);
        case CommitChange(t) =>
          RelistingKeepsClosed(db, db.work[t].model, Target(db.work[t].action), d);
        case CommitClosing(t) => ClosingKeepsClosed(db, t, d);
        case Abort(t) =>
        case Publish(m) => RelistingKeepsClosed(db, m, Published, d);
      }
    }
  }

  /** Quietness is also necessary: an offer created under a collecting change or
      closure escapes the locks that transaction is about to rely on. */
  lemma StepKeepsInvExactly(db: Db, e: Event)
    requires Inv(db) && Enabled(db, e)
    ensures Inv(Step(db, e)) <==> Quiet(db, e)
  {
    if Quiet(db, e) {
      StepKeepsInv(db, e);
    } else {
      var a := Step(db, e);
      var t :| t in db.work && ((db.work[t].Changing? && db.work[t].model == e.model && !db.work[t].rowHeld)
                                || (db.work[t].Closing? && db.work[t].designer == db.listings[e.model].designer && db.work[t].stage == Gathering));
      if db.work[t].Changing? {
        assert ChangeOk(db.offers, db.used, db.offerLocks, db.rowLocks, t, db.work[t]);
        assert OfModel(a.offers, e.offer, e.model);
        assert !ChangeOk(a.offers, a.used, a.offerLocks, a.rowLocks, t, a.work[t]);
      } else {
        assert ClosingOk(db, t, db.work[t]);
        assert OfDesigner(a.listings, a.offers, e.offer, db.work[t].designer);
        assert !ClosingOk(a, t, a.work[t]);
      }
    }
  }

  ghost function Exec(db: Db, run: seq<Event>): Db
    requires Possible(db, run)
    decreases |run|
  {
    if run == [] then db else Exec(Step(db, run[0]), run[1..])
  }

  /** Every event of the run can happen when its turn comes. */
  ghost predicate Possible(db: Db, run: seq<Event>)
    decreases |run|
  {
    run == [] || (Enabled(db, run[0]) && Possible(Step(db, run[0]), run[1..]))
  }

  /** No offer is created under a change or closure that is still collecting its locks. */
  ghost predicate QuietRun(db: Db, run: seq<Event>)
    requires Possible(db, run)
    decreases |run|
  {
    run == [] || (Quiet(db, run[0]) && QuietRun(Step(db, run[0]), run[1..]))
  }

  lemma {:induction false} RunKeepsInv(db: Db, run: seq<Event>)
    requires Inv(db) && Possible(db, run) && QuietRun(db, run)
    ensures Inv(Exec(db, run))
    decreases |run|
  {
    if run != [] {
      StepKeepsInv(db, run[0]);
      RunKeepsInv(Step(db, run[0]), run[1..]);
    }
  }

  /** Whatever happened before, and however buyers, pauses, retirements, revisions
      and closures interleaved, a reservation is inserted and committed while each
      of its offers is active and each of its listings is published. */
  lemma NoSaleWhileOffSale(run: seq<Event>, e: Event, o: OfferId)
    requires Possible(START, run) && QuietRun(START, run) && Enabled(Exec(START, run), e)
    requires e.InsertRows? || e.CommitBuying?
    requires o in Exec(START, run).work[e.t].rows.Values
    ensures var db := Exec(START, run);
      o in db.offers && db.offers[o].active
      && db.offers[o].model in db.listings && db.listings[db.offers[o].model].status == Published
  {
    RunKeepsInv(START, run);
    var db := Exec(START, run);
    assert BuyerOk(db.listings, db.offers, db.offerLocks, e.t, db.work[e.t]);
  }

  /** The closed designer does nothing in the run. */
  ghost predicate Idle(db: Db, run: seq<Event>, d: DesignerId)
    requires Possible(db, run)
    decreases |run|
  {
    run != [] ==> !ActsFor(db, run[0], d) && Idle(Step(db, run[0]), run[1..], d)
  }

  lemma {:induction false} ClosedStaysClosed(db: Db, run: seq<Event>, d: DesignerId)
    requires Inv(db) && ClosedOk(db, d) && Possible(db, run) && QuietRun(db, run) && Idle(db, run, d)
    ensures ClosedOk(Exec(db, run), d)
    decreases |run|
  {
    if run != [] {
      StepKeepsInv(db, run[0]);
      StepKeepsClosed(db, run[0], d);
      ClosedStaysClosed(Step(db, run[0]), run[1..], d);
    }
  }

  /** The offer is on a listing of the designer. */
  ghost predicate SoldBy(db: Db, o: OfferId, d: DesignerId) {
    o in db.offers && db.offers[o].model in db.listings && db.listings[db.offers[o].model].designer == d
  }

  /** Closure is final for money: from its commit on, in every later state of every
      run in which the designer does nothing, no real purchase of the designer is
      in flight and no share is owed — whatever reservations, settlements,
      deliveries and payouts were racing with it. */
  lemma ClosureIsFinal(before: seq<Event>, t: Txn, after: seq<Event>)
    requires Possible(START, before) && QuietRun(START, before) && Enabled(Exec(START, before), CommitClosing(t))
    requires Possible(Step(Exec(START, before), CommitClosing(t)), after)
    requires QuietRun(Step(Exec(START, before), CommitClosing(t)), after)
    requires Idle(Step(Exec(START, before), CommitClosing(t)), after, Exec(START, before).work[t].designer)
    ensures var last, d := Exec(Step(Exec(START, before), CommitClosing(t)), after), Exec(START, before).work[t].designer;
      && (forall m :: m in last.listings && last.listings[m].designer == d ==> last.listings[m].status == Retired)
      && (forall k :: k in last.sales && SoldBy(last, last.sales[k].offer, d) ==>
            && !last.sales[k].owed
            && (last.sales[k].sandbox || last.sales[k].status == Delivered
                || last.sales[k].status == FailedVerification || last.sales[k].status == FailedSettlement))
  {
    var db := Exec(START, before);
    RunKeepsInv(START, before);
    ClosingKeepsClosed(db, t, db.work[t].designer);
    StepKeepsInv(db, CommitClosing(t));
    ClosedStaysClosed(Step(db, CommitClosing(t)), after, db.work[t].designer);
  }
}
