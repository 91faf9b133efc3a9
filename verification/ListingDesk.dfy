/** Listing changes and account closure as they run once their locks are held,
    each equal to the commit step of the lock-level machine. */
module ListingDesk {
  import opened Wrappers
  import opened Ledger
  import opened Market
  import opened SaleLocks
  import opened SaleLockSafety

  datatype ClosureError = OutstandingEarnings | PurchaseInProgress

  /** What the closure's two checks answer, in their order. */
  function ClosureVerdict(db: Db, d: DesignerId): Option<ClosureError> {
    if exists k :: k in db.sales && OfDesigner(db.listings, db.offers, db.sales[k].offer, d) && db.sales[k].owed then
      Some(OutstandingEarnings)
    else if exists k :: k in db.sales && OfDesigner(db.listings, db.offers, db.sales[k].offer, d)
              && !db.sales[k].sandbox && InFlight(db.sales[k].status) then
      Some(PurchaseInProgress)
    else None
  }

  predicate HasActiveOffer(offers: map<OfferId, Offer>, model: ModelId) {
    exists o :: o in offers && offers[o].model == model && offers[o].active
  }

  /** The designer's listings with any purchase are retired, the others are gone with
      their offers; nobody else's change. */
  ghost predicate Closes(s: Db, t: Db, d: DesignerId) {
    && t == s.(listings := t.listings, offers := t.offers)
    && (forall m :: m in t.listings <==> m in s.listings && (s.listings[m].designer != d || HasSales(s, m)))
    && (forall m :: m in t.listings && m in s.listings ==>
          t.listings[m] == if s.listings[m].designer == d then Listing(d, Retired) else s.listings[m])
    && (forall o :: o in t.offers <==> o in s.offers && (!SoldBy(s, o, d) || HasSales(s, s.offers[o].model)))
    && (forall o :: o in t.offers && o in s.offers ==> t.offers[o] == s.offers[o])
  }

  ghost predicate HasSales(s: Db, m: ModelId) {
    exists k :: k in s.sales && s.sales[k].offer in s.offers && s.offers[s.sales[k].offer].model == m
  }

  /** Refused for earnings that are owed; else for a real purchase in progress; else
      not at all. */
  ghost predicate Tells(s: Db, d: DesignerId, error: Option<ClosureError>) {
    var owed := exists k :: k in s.sales && SoldBy(s, s.sales[k].offer, d) && s.sales[k].owed;
    var busy := exists k :: k in s.sales && SoldBy(s, s.sales[k].offer, d) && !s.sales[k].sandbox
                            && (s.sales[k].status == Pending || s.sales[k].status == Verified || s.sales[k].status == Settled);
    && (error == Some(OutstandingEarnings) <==> owed)
    && (error == Some(PurchaseInProgress) <==> !owed && busy)
    && (error.None? <==> !owed && !busy)
  }

  lemma VerdictTells(s: Db, d: DesignerId)
    ensures Tells(s, d, ClosureVerdict(s, d))
  {
    forall o
      ensures SoldBy(s, o, d) <==> OfDesigner(s.listings, s.offers, o, d)
    {
    }
  }

  predicate OffersActively(offers: map<OfferId, Offer>, o: OfferId, model: ModelId) {
    o in offers && offers[o].model == model && offers[o].active
  }

  ghost predicate Offered(offers: map<OfferId, Offer>, model: ModelId) {
    exists o :: OffersActively(offers, o, model)
  }

  /** What may follow what: a pause of a published listing, a resumption of a paused
      one that has an active offer, a retirement of either, a restoration to paused. */
  predicate MayChange(status: ListingStatus, action: Action, offered: bool) {
    match action
    case Pause => status == Published
    case Resume => status == Paused && offered
    case Retire => status == Published || status == Paused
    case Restore => status == Retired
  }

  lemma CommitMayChange(db: Db, t: Txn)
    requires t in db.work && db.work[t].Changing? && db.work[t].rowHeld && db.work[t].model in db.listings
    ensures Enabled(db, CommitChange(t))
       <==> MayChange(db.listings[db.work[t].model].status, db.work[t].action, HasActiveOffer(db.offers, db.work[t].model))
  {
  }

  lemma ActivelyOffered(offers: map<OfferId, Offer>, model: ModelId)
    ensures HasActiveOffer(offers, model) <==> Offered(offers, model)
  {
    if HasActiveOffer(offers, model) {
      var o :| o in offers && offers[o].model == model && offers[o].active;
      assert OffersActively(offers, o, model);
    }
  }

  lemma ListingsAreClosed(s: Db, d: DesignerId, mine: set<ModelId>, sold: set<ModelId>, left: map<ModelId, Listing>)
    requires mine == (set m | m in s.listings && s.listings[m].designer == d) && forall m :: m in sold <==> SoldModel(s, m)
    requires left == (map m | m in s.listings ::
      if m in mine * sold then s.listings[m].(status := Retired) else s.listings[m]) - (mine - sold)
    ensures left == ClosedListings(s, d)
  {
  }

  lemma OffersAreClosed(s: Db, d: DesignerId, mine: set<ModelId>, sold: set<ModelId>, left: map<OfferId, Offer>)
    requires mine == (set m | m in s.listings && s.listings[m].designer == d) && forall m :: m in sold <==> SoldModel(s, m)
    requires left == map o | o in s.offers && s.offers[o].model !in mine - sold :: s.offers[o]
    ensures left == ClosedOffers(s, d)
  {
    assert forall o :: o in s.offers ==> (OfDesigner(s.listings, s.offers, o, d) <==> s.offers[o].model in mine);
  }

  lemma ClosedAsPromised(s: Db, d: DesignerId)
    ensures Closes(s, s.(listings := ClosedListings(s, d), offers := ClosedOffers(s, d)), d)
  {
    forall m
      ensures SoldModel(s, m) <==> HasSales(s, m)
    {
    }
  }

  class Desk {
    var listings: map<ModelId, Listing>
    var offers: map<OfferId, Offer>
    var sales: map<PurchaseId, Sale>

    constructor (listings: map<ModelId, Listing>, offers: map<OfferId, Offer>, sales: map<PurchaseId, Sale>)
      ensures Books() == Db(listings, offers, {}, map[], map[], None, map[], sales)
    {
      this.listings, this.offers, this.sales := listings, offers, sales;
    }

    ghost function Books(): Db
      reads this
    {
      Db(listings, offers, {}, map[], map[], None, map[], sales)
    }

    /** Models::Availability.call under its locks, in a database where it is
        transaction `t`: it goes through exactly when the commit step may be taken,
        leaves that step's listings, and no open reservation has seen this one on
        sale. */
    method ChangeListing(ghost db: Db, ghost t: Txn, model: ModelId, action: Action) returns (ok: bool)
      requires Inv(db) && db.listings == listings && db.offers == offers && model in listings
      requires t in db.work && db.work[t].Changing? && db.work[t].rowHeld
      requires db.work[t].model == model && db.work[t].action == action
      modifies this`listings
      ensures ok <==> Enabled(db, CommitChange(t))
      ensures ok <==> MayChange(old(listings)[model].status, action, Offered(offers, model))
      ensures ok ==> listings == old(listings)[model := old(listings)[model].(status :=
        match action case Pause => Paused case Resume => Published case Retire => Retired case Restore => Paused)]
      ensures listings == if ok then Step(db, CommitChange(t)).listings else old(listings)
      ensures forall u, o :: u in db.work && db.work[u].Buying? && o in db.work[u].seen ==> !OfModel(offers, o, model)
    {
      forall u, o | u in db.work && db.work[u].Buying? && o in db.work[u].seen
        ensures !OfModel(offers, o, model)
      {
        assert BuyerOk(db.listings, db.offers, db.offerLocks, u, db.work[u]);
        HeldRowMissesBuyers(db, t, u, o);
      }
      ActivelyOffered(offers, model);
      CommitMayChange(db, t);
      if !LegalFrom(action, listings[model].status) {
        return false;
      }
      if action == Resume && !HasActiveOffer(offers, model) {
        return false;
      }
      listings := listings[model := listings[model].(status := Target(action))];
      ok := true;
    }

    /** The listings with any purchase, failed and sandbox ones included. */
    method ModelsWithHistory() returns (sold: set<ModelId>)
      ensures forall m :: m in sold <==> SoldModel(Books(), m)
      ensures forall m :: m in sold <==> HasSales(Books(), m)
    {
      var todo := sales.Keys;
      sold := {};
      ghost var seen: set<PurchaseId> := {};
      while todo != {}
        invariant seen + todo == sales.Keys
        invariant forall m :: m in sold <==> exists k :: k in seen && OfModel(offers, sales[k].offer, m)
        decreases todo
      {
        var k :| k in todo;
        if sales[k].offer in offers {
          sold := sold + {offers[sales[k].offer].model};
        }
        todo, seen := todo - {k}, seen + {k};
      }
      assert seen == sales.Keys;
    }

    /** Designers::AccountClosure.prepare!. */
    method PrepareClosure(d: DesignerId) returns (error: Option<ClosureError>)
      requires forall o :: o in offers ==> offers[o].model in listings
      modifies this`listings, this`offers
      ensures error == ClosureVerdict(old(Books()), d)
      ensures Tells(old(Books()), d, error)
      ensures error.None? ==> Closes(old(Books()), Books(), d)
      ensures error.Some? ==> Books() == old(Books())
      ensures error.None? ==>
        Books() == old(Books()).(listings := ClosedListings(old(Books()), d), offers := ClosedOffers(old(Books()), d))
    {
      error := ClosureVerdict(Db(listings, offers, {}, map[], map[], None, map[], sales), d);
      VerdictTells(Books(), d);
      if error.Some? {
        return;
      }
      var sold := ModelsWithHistory();
      var mine := set m | m in listings && listings[m].designer == d;
      RetireSold(mine * sold);
      RemoveUnsold(mine - sold);
      ListingsAreClosed(old(Books()), d, mine, sold, listings);
      OffersAreClosed(old(Books()), d, mine, sold, offers);
      ClosedAsPromised(old(Books()), d);
    }

    method RetireSold(models: set<ModelId>)
      requires models <= listings.Keys
      modifies this`listings
      ensures listings == map m | m in old(listings) ::
                if m in models then old(listings)[m].(status := Retired) else old(listings)[m]
    {
      var todo := models;
      while todo != {}
        invariant todo <= models
        invariant listings == map m | m in old(listings) ::
                    if m in models - todo then old(listings)[m].(status := Retired) else old(listings)[m]
        decreases todo
      {
        var m :| m in todo;
        listings := listings[m := listings[m].(status := Retired)];
        todo := todo - {m};
      }
    }

    /** destroy! takes the listing's offers with it. */
    method RemoveUnsold(models: set<ModelId>)
      modifies this`listings, this`offers
      ensures listings == old(listings) - models
      ensures offers == map o | o in old(offers) && old(offers)[o].model !in models :: old(offers)[o]
    {
      var todo := models;
      while todo != {}
        invariant todo <= models
        invariant listings == old(listings) - (models - todo)
        invariant offers == map o | o in old(offers) && old(offers)[o].model !in models - todo :: old(offers)[o]
        decreases todo
      {
        var m :| m in todo;
        listings := listings - {m};
        offers := map o | o in offers && offers[o].model != m :: offers[o];
        todo := todo - {m};
      }
    }
  }

  /** With its locks held, the closure's commit is allowed exactly when its two
      checks pass one after the other on the same rows. */
  lemma VerdictIsTheChecks(db: Db, t: Txn, d: DesignerId)
    requires t in db.work && db.work[t].Closing? && db.work[t].designer == d && db.work[t].stage == RowsHeld
    ensures ClosureVerdict(db, d).None? <==>
      Enabled(db, SeeNothingOwed(t)) && Enabled(Step(db, SeeNothingOwed(t)), SeeNothingInFlight(t))
  {
    if Enabled(db, SeeNothingOwed(t)) {
      var s := Step(db, SeeNothingOwed(t));
      assert s.sales == db.sales && s.offers == db.offers && s.listings == db.listings;
      assert s.work[t].stage == NothingOwed && s.work[t].designer == d;
    }
  }
}
