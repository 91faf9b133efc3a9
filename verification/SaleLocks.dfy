/** Reservations, listing changes and account closures at the level of their
    locks: every read, check, lock and commit is a step of its own, and the
    transactions of different requests interleave. */
module SaleLocks {
  import opened Wrappers
  import opened Ledger
  import opened Market

  type Txn = nat

  datatype Action = Pause | Resume | Retire | Restore

  /** A committed purchase row; `owed` is a treasury-held designer share no payout covers. */
  datatype Sale = Sale(offer: OfferId, sandbox: bool, status: Status, licensed: bool, owed: bool)

  datatype Stage = Gathering | RowsHeld | NothingOwed | NothingInFlight

  /** An open transaction and how far it has come. */
  datatype Work =
    | Buying(rows: map<PurchaseId, OfferId>, sandbox: bool, activeSeen: bool, seen: set<OfferId>, inserted: bool)
    | Changing(model: ModelId, action: Action, snapshot: set<OfferId>, rowHeld: bool)
    | Closing(designer: DesignerId, offersSeen: set<OfferId>, stage: Stage)

  datatype Db = Db(
    listings: map<ModelId, Listing>,
    offers: map<OfferId, Offer>,
    /** Every offer id ever given out. */
    used: set<OfferId>,
    offerLocks: map<OfferId, Txn>,
    rowLocks: map<ModelId, Txn>,
    advisory: Option<Txn>,
    work: map<Txn, Work>,
    sales: map<PurchaseId, Sale>)

  datatype Event =
    | BeginBuying(t: Txn, rows: map<PurchaseId, OfferId>, sandbox: bool)
    | BeginChange(t: Txn, model: ModelId, action: Action)
    | BeginClosing(t: Txn, designer: DesignerId)
    | LockOffer(t: Txn, offer: OfferId)
    | SeeActive(t: Txn)
    | SeeListing(t: Txn, offer: OfferId)
    | InsertRows(t: Txn)
    | CommitBuying(t: Txn)
    | LockRow(t: Txn)
    | CommitChange(t: Txn)
    | LockRows(t: Txn)
    | SeeNothingOwed(t: Txn)
    | SeeNothingInFlight(t: Txn)
    | CommitClosing(t: Txn)
    | Abort(t: Txn)
    | AddListing(model: ModelId, designer: DesignerId)
    | Publish(model: ModelId)
    | AddOffer(offer: OfferId, model: ModelId, maxUnits: Option<nat>)
    | Deactivate(offer: OfferId)
    | RemoveOffer(offer: OfferId)
    | Verify(key: PurchaseId)
    | Fail(key: PurchaseId)
    | Settle(key: PurchaseId, treasury: bool)
    | Mint(key: PurchaseId)
    | Deliver(key: PurchaseId)
    | PayOut(key: PurchaseId)

  // ------------------------------------------------------------------ queries

  /** Models::Availability::TRANSITIONS. */
  predicate LegalFrom(action: Action, status: ListingStatus) {
    match action
    case Pause => status == Published
    case Resume => status == Paused
    case Retire => status == Published || status == Paused
    case Restore => status == Retired
  }

  function Target(action: Action): ListingStatus {
    match action
    case Pause => Paused
    case Resume => Published
    case Retire => Retired
    case Restore => Paused
  }

  predicate InFlight(s: Status) {
    s == Pending || s == Verified || s == Settled
  }

  predicate OfModel(offers: map<OfferId, Offer>, o: OfferId, m: ModelId) {
    o in offers && offers[o].model == m
  }

  predicate OfDesigner(listings: map<ModelId, Listing>, offers: map<OfferId, Offer>, o: OfferId, d: DesignerId) {
    o in offers && offers[o].model in listings && listings[offers[o].model].designer == d
  }

  predicate PublishedOffer(listings: map<ModelId, Listing>, offers: map<OfferId, Offer>, o: OfferId) {
    o in offers && offers[o].model in listings && listings[offers[o].model].status == Published
  }

  predicate ActiveOffer(offers: map<OfferId, Offer>, o: OfferId) {
    o in offers && offers[o].active
  }

  predicate Holds(locks: map<OfferId, Txn>, t: Txn, o: OfferId) {
    o in locks && locks[o] == t
  }

  /** What a transaction still has to lock before it goes on. */
  predicate Wants(db: Db, w: Work, o: OfferId) {
    match w
    case Buying(rows, _, activeSeen, _, _) => o in rows.Values && !activeSeen
    case Changing(model, _, snapshot, rowHeld) => o in snapshot && !rowHeld
    case Closing(_, offersSeen, stage) => o in offersSeen && stage == Gathering
  }

  predicate Gathered(db: Db, t: Txn, w: Work) {
    match w
    case Buying(rows, _, _, _, _) => forall o :: o in rows.Values ==> o in db.offers && Holds(db.offerLocks, t, o)
    case Changing(_, _, snapshot, _) => forall o :: o in snapshot && ActiveOffer(db.offers, o) ==> Holds(db.offerLocks, t, o)
    case Closing(_, offersSeen, _) => forall o :: o in offersSeen && o in db.offers ==> Holds(db.offerLocks, t, o)
  }

  predicate SoldModel(db: Db, m: ModelId) {
    exists k :: k in db.sales && OfModel(db.offers, db.sales[k].offer, m)
  }

  predicate OpenClosing(db: Db, d: DesignerId) {
    exists t :: t in db.work && db.work[t].Closing? && db.work[t].designer == d
  }

  // -------------------------------------------------------------------- steps

  predicate Enabled(db: Db, e: Event) {
    match e
    case BeginBuying(t, rows, _) => t !in db.work && rows != map[]
    case BeginChange(t, m, _) => t !in db.work && m in db.listings
    case BeginClosing(t, d) => t !in db.work && db.advisory == None
    case LockOffer(t, o) => t in db.work && Wants(db, db.work[t], o) && o in db.offers && o !in db.offerLocks
    case SeeActive(t) =>
      t in db.work && db.work[t].Buying? && Gathered(db, t, db.work[t])
      && forall o :: o in db.work[t].rows.Values ==> ActiveOffer(db.offers, o)
    case SeeListing(t, o) =>
      t in db.work && db.work[t].Buying? && db.work[t].activeSeen && o in db.work[t].rows.Values
      && PublishedOffer(db.listings, db.offers, o)
    case InsertRows(t) => t in db.work && db.work[t].Buying? && db.work[t].seen == db.work[t].rows.Values
    case CommitBuying(t) => t in db.work && db.work[t].Buying? && db.work[t].inserted && db.work[t].rows.Keys !! db.sales.Keys
    case LockRow(t) =>
      t in db.work && db.work[t].Changing? && !db.work[t].rowHeld && Gathered(db, t, db.work[t])
      && db.work[t].model in db.listings && db.work[t].model !in db.rowLocks
    case CommitChange(t) =>
      t in db.work && db.work[t].Changing? && db.work[t].rowHeld && db.work[t].model in db.listings
      && LegalFrom(db.work[t].action, db.listings[db.work[t].model].status)
      && (db.work[t].action == Resume ==> exists o :: o in db.offers && db.offers[o].model == db.work[t].model && db.offers[o].active)
    case LockRows(t) =>
      t in db.work && db.work[t].Closing? && db.work[t].stage == Gathering && Gathered(db, t, db.work[t])
      && forall m :: m in db.listings && db.listings[m].designer == db.work[t].designer ==> m !in db.rowLocks
    case SeeNothingOwed(t) =>
      t in db.work && db.work[t].Closing? && db.work[t].stage == RowsHeld
      && forall k :: k in db.sales && OfDesigner(db.listings, db.offers, db.sales[k].offer, db.work[t].designer) ==> !db.sales[k].owed
    case SeeNothingInFlight(t) =>
      t in db.work && db.work[t].Closing? && db.work[t].stage == NothingOwed
      && forall k :: k in db.sales && OfDesigner(db.listings, db.offers, db.sales[k].offer, db.work[t].designer) ==>
           db.sales[k].sandbox || !InFlight(db.sales[k].status)
    case CommitClosing(t) =>
      t in db.work && db.work[t].Closing? && db.work[t].stage == NothingInFlight
      && forall o :: OfDesigner(db.listings, db.offers, o, db.work[t].designer) && o in db.offerLocks ==>
           SoldModel(db, db.offers[o].model) || db.offerLocks[o] == t
    case Abort(t) => t in db.work
    case AddListing(m, d) => m !in db.listings && !OpenClosing(db, d)
    case Publish(m) => m in db.listings && m !in db.rowLocks
    case AddOffer(o, m, _) => o !in db.used && m in db.listings && m !in db.rowLocks
    case Deactivate(o) => o in db.offers && o !in db.offerLocks
    case RemoveOffer(o) =>
      o in db.offers && o !in db.offerLocks && forall k :: k in db.sales ==> db.sales[k].offer != o
    case Verify(k) => k in db.sales && db.sales[k].status == Pending
    case Fail(k) => k in db.sales && (db.sales[k].status == Pending || db.sales[k].status == Verified)
    case Settle(k, _) => k in db.sales && db.sales[k].status == Verified
    case Mint(k) => k in db.sales && db.sales[k].status == Settled && !db.sales[k].licensed && db.sales[k].offer !in db.offerLocks
    case Deliver(k) => k in db.sales && db.sales[k].status == Settled && db.sales[k].licensed
    case PayOut(k) => k in db.sales && db.sales[k].owed && db.advisory == None
  }

  /** Commit or rollback: the transaction's locks are free again. */
  function Ended(db: Db, t: Txn): Db {
    db.(offerLocks := map o | o in db.offerLocks && db.offerLocks[o] != t :: db.offerLocks[o],
        rowLocks := map m | m in db.rowLocks && db.rowLocks[m] != t :: db.rowLocks[m],
        advisory := if db.advisory == Some(t) then None else db.advisory,
        work := map u | u in db.work && u != t :: db.work[u])
  }

  function NewSales(rows: map<PurchaseId, OfferId>, sandbox: bool): map<PurchaseId, Sale> {
    map k | k in rows :: Sale(rows[k], sandbox, Pending, false, false)
  }

  /** Closure's last part: sold listings retire, the others go with their offers. */
  function ClosedListings(db: Db, d: DesignerId): map<ModelId, Listing> {
    map m | m in db.listings && (db.listings[m].designer != d || SoldModel(db, m)) ::
      if db.listings[m].designer == d then db.listings[m].(status := Retired) else db.listings[m]
  }

  function ClosedOffers(db: Db, d: DesignerId): map<OfferId, Offer> {
    map o | o in db.offers && (!OfDesigner(db.listings, db.offers, o, d) || SoldModel(db, db.offers[o].model)) :: db.offers[o]
  }

  function Step(db: Db, e: Event): Db
    requires Enabled(db, e)
  {
    match e
    case BeginBuying(t, rows, sandbox) => db.(work := db.work[t := Buying(rows, sandbox, false, {}, false)])
    case BeginChange(t, m, action) =>
      db.(work := db.work[t := Changing(m, action, (set o | o in db.offers && db.offers[o].model == m && db.offers[o].active), false)])
    case BeginClosing(t, d) =>
      db.(advisory := Some(t),
          work := db.work[t := Closing(d, (set o | o in db.offers && OfDesigner(db.listings, db.offers, o, d)), Gathering)])
    case LockOffer(t, o) => db.(offerLocks := db.offerLocks[o := t])
    case SeeActive(t) => db.(work := db.work[t := db.work[t].(activeSeen := true)])
    case SeeListing(t, o) => db.(work := db.work[t := db.work[t].(seen := db.work[t].seen + {o})])
    case InsertRows(t) => db.(work := db.work[t := db.work[t].(inserted := true)])
    case CommitBuying(t) => Ended(db.(sales := db.sales + NewSales(db.work[t].rows, db.work[t].sandbox)), t)
    case LockRow(t) => db.(rowLocks := db.rowLocks[db.work[t].model := t], work := db.work[t := db.work[t].(rowHeld := true)])
    case CommitChange(t) =>
      var m := db.work[t].model;
      Ended(db.(listings := db.listings[m := db.listings[m].(status := Target(db.work[t].action))]), t)
    case LockRows(t) =>
      var mine := set m | m in db.listings && db.listings[m].designer == db.work[t].designer;
      db.(rowLocks := map m | m in db.rowLocks.Keys + mine :: if m in mine then t else db.rowLocks[m],
          work := db.work[t := db.work[t].(stage := RowsHeld)])
    case SeeNothingOwed(t) => db.(work := db.work[t := db.work[t].(stage := NothingOwed)])
    case SeeNothingInFlight(t) => db.(work := db.work[t := db.work[t].(stage := NothingInFlight)])
    case CommitClosing(t) =>
      var d := db.work[t].designer;
      Ended(db.(listings := ClosedListings(db, d), offers := ClosedOffers(db, d)), t)
    case Abort(t) => Ended(db, t)
    case AddListing(m, d) => db.(listings := db.listings[m := Listing(d, Draft)])
    case Publish(m) => db.(listings := db.listings[m := db.listings[m].(status := Published)])
    case AddOffer(o, m, maxUnits) => db.(offers := db.offers[o := Offer(m, true, maxUnits)], used := db.used + {o})
    case Deactivate(o) => db.(offers := db.offers[o := db.offers[o].(active := false)])
    case RemoveOffer(o) => db.(offers := db.offers - {o})
    case Verify(k) => db.(sales := db.sales[k := db.sales[k].(status := Verified)])
    case Fail(k) =>
      db.(sales := db.sales[k := db.sales[k].(status :=
            if db.sales[k].status == Pending then FailedVerification else FailedSettlement)])
    case Settle(k, treasury) =>
      db.(sales := db.sales[k := db.sales[k].(status := Settled, owed := treasury && !db.sales[k].sandbox)])
    case Mint(k) => db.(sales := db.sales[k := db.sales[k].(licensed := true)])
    case Deliver(k) => db.(sales := db.sales[k := db.sales[k].(status := Delivered)])
    case PayOut(k) => db.(sales := db.sales[k := db.sales[k].(owed := false)])
  }

  // ---------------------------------------------------------------- invariants

  /** A buyer's checks stay true until it ends, because it holds the offers. */
  ghost predicate BuyerOk(listings: map<ModelId, Listing>, offers: map<OfferId, Offer>, locks: map<OfferId, Txn>, t: Txn, w: Work)
    requires w.Buying?
  {
    && (w.activeSeen ==> forall o :: o in w.rows.Values ==> ActiveOffer(offers, o) && Holds(locks, t, o))
    && (forall o :: o in w.seen ==> w.activeSeen && o in w.rows.Values && PublishedOffer(listings, offers, o))
    && (w.inserted ==> w.seen == w.rows.Values)
  }

  /** A listing change has all active offers of its model in its sights, and from
      the row lock on it holds every one of them. */
  ghost predicate ChangeOk(offers: map<OfferId, Offer>, used: set<OfferId>, locks: map<OfferId, Txn>, rows: map<ModelId, Txn>, t: Txn, w: Work)
    requires w.Changing?
  {
    && w.snapshot <= used
    && (forall o :: OfModel(offers, o, w.model) && offers[o].active ==> o in w.snapshot)
    && (w.rowHeld ==>
          && w.model in rows && rows[w.model] == t
          && forall o :: OfModel(offers, o, w.model) && offers[o].active ==> Holds(locks, t, o))
  }

  ghost predicate ClosingHolds(db: Db, t: Txn, d: DesignerId) {
    && (forall m :: m in db.listings && db.listings[m].designer == d ==> m in db.rowLocks && db.rowLocks[m] == t)
    && (forall o :: OfDesigner(db.listings, db.offers, o, d) ==> Holds(db.offerLocks, t, o))
  }

  /** A share that fell due after the first check belongs to a settled purchase
      without a licence: its delivery needs an offer lock the closure holds. */
  ghost predicate ShareStillBlocks(sale: Sale) {
    sale.owed ==> sale.status == Settled && !sale.licensed
  }

  ghost predicate Quit(sale: Sale) {
    !sale.owed && (sale.sandbox || !InFlight(sale.status))
  }

  ghost predicate ClosingOk(db: Db, t: Txn, w: Work)
    requires w.Closing?
  {
    && db.advisory == Some(t) && w.offersSeen <= db.used
    && (forall o :: OfDesigner(db.listings, db.offers, o, w.designer) ==> o in w.offersSeen)
    && (w.stage != Gathering ==> ClosingHolds(db, t, w.designer))
    && (w.stage == NothingOwed ==>
          forall k :: k in db.sales && OfDesigner(db.listings, db.offers, db.sales[k].offer, w.designer) ==> ShareStillBlocks(db.sales[k]))
    && (w.stage == NothingInFlight ==>
          forall k :: k in db.sales && OfDesigner(db.listings, db.offers, db.sales[k].offer, w.designer) ==> Quit(db.sales[k]))
  }

  ghost predicate SaleOk(db: Db, sale: Sale) {
    && sale.offer in db.offers && db.offers[sale.offer].model in db.listings
    && (sale.licensed ==> MoneyMoved(sale.status))
    && (sale.status == Delivered ==> sale.licensed)
    && (sale.owed ==> MoneyMoved(sale.status) && !sale.sandbox)
  }

  /** All of the designer's listings are retired, no real purchase of them is in
      flight and no share is owed. */
  ghost predicate ClosedOk(db: Db, d: DesignerId) {
    && (forall m :: m in db.listings && db.listings[m].designer == d ==> db.listings[m].status == Retired)
    && (forall k :: k in db.sales && OfDesigner(db.listings, db.offers, db.sales[k].offer, d) ==> Quit(db.sales[k]))
  }

  ghost predicate Buyers(db: Db) {
    forall t :: t in db.work && db.work[t].Buying? ==> BuyerOk(db.listings, db.offers, db.offerLocks, t, db.work[t])
  }

  ghost predicate Changes(db: Db) {
    forall t :: t in db.work && db.work[t].Changing? ==> ChangeOk(db.offers, db.used, db.offerLocks, db.rowLocks, t, db.work[t])
  }

  ghost predicate Closings(db: Db) {
    forall t :: t in db.work && db.work[t].Closing? ==> ClosingOk(db, t, db.work[t])
  }

  ghost predicate SalesOk(db: Db) {
    && db.offers.Keys <= db.used
    && (forall o :: o in db.offers ==> db.offers[o].model in db.listings)
    && (forall k :: k in db.sales ==> SaleOk(db, db.sales[k]))
  }

  ghost predicate Inv(db: Db) {
    SalesOk(db) && Buyers(db) && Changes(db) && Closings(db)
  }

  const START := Db(map[], map[], {}, map[], map[], None, map[], map[])
}
