/** The checks a reservation makes under its offer locks, and the lock-level steps
    that stand for them: one is passed exactly when the other may be taken. */
module SaleGate {
  import opened Wrappers
  import opened Ledger
  import opened Market
  import opened SaleLocks
  import CheckoutOutcomes

  /** The rows a reservation of these units is about to insert. */
  function Wanted(payment: Payment, units: seq<Unit>): map<PurchaseId, OfferId> {
    map k | k in NewKeys(payment, |units|) :: units[k.position].offer
  }

  lemma WantedOffers(payment: Payment, units: seq<Unit>)
    ensures forall o :: o in Wanted(payment, units).Values <==> exists u :: u in units && u.offer == o
  {
    var rows := Wanted(payment, units);
    forall o | o in rows.Values
      ensures exists u :: u in units && u.offer == o
    {
      var k :| k in rows && rows[k] == o;
      assert units[k.position] in units;
    }
    forall u | u in units
      ensures u.offer in rows.Values
    {
      var i :| 0 <= i < |units| && units[i] == u;
      assert rows[PurchaseId(payment, i)] == u.offer;
    }
  }

  /** The database as transaction `t` finds it with its offers locked: the same
      offers and listings, nothing checked yet. */
  ghost predicate AtTheGate(s: Store, db: Db, t: Txn, payment: Payment, units: seq<Unit>, sandbox: bool) {
    && db.offers == s.catalog.offers && db.listings == s.catalog.listings
    && t in db.work && db.work[t] == Buying(Wanted(payment, units), sandbox, false, {}, false)
    && Gathered(db, t, db.work[t])
  }

  lemma ActiveIsTheGate(s: Store, db: Db, t: Txn, payment: Payment, units: seq<Unit>, sandbox: bool)
    requires AtTheGate(s, db, t, payment, units, sandbox)
    ensures Enabled(db, SeeActive(t)) <==> forall u :: u in units ==> CheckoutOutcomes.ActiveNow(s.catalog, u.offer)
  {
    WantedOffers(payment, units);
    forall u | u in units
      ensures u.offer in Wanted(payment, units).Values
    {
    }
  }

  lemma PublishedIsTheGate(s: Store, db: Db, t: Txn, payment: Payment, units: seq<Unit>, sandbox: bool)
    requires AtTheGate(s, db, t, payment, units, sandbox) && Enabled(db, SeeActive(t))
    ensures (forall o :: o in db.work[t].rows.Values ==> Enabled(Step(db, SeeActive(t)), SeeListing(t, o)))
       <==> forall u :: u in units ==> CheckoutOutcomes.PublishedNow(s.catalog, u.offer)
  {
    WantedOffers(payment, units);
    var a := Step(db, SeeActive(t));
    assert a.listings == db.listings && a.offers == db.offers && a.work[t] == db.work[t].(activeSeen := true);
    forall u | u in units
      ensures u.offer in Wanted(payment, units).Values
      ensures Enabled(a, SeeListing(t, u.offer)) <==> CheckoutOutcomes.PublishedNow(s.catalog, u.offer)
    {
    }
  }

  /** The offers are found active exactly when the reservation is not refused as
      changed; and then each listing is found published exactly when it is not
      refused as unavailable. */
  lemma VerdictIsTheGate(s: Store, db: Db, t: Txn, payment: Payment, units: seq<Unit>, sandbox: bool, verdict: Option<Refusal>)
    requires AtTheGate(s, db, t, payment, units, sandbox)
    requires CheckoutOutcomes.VerdictFor(s, payment, units, sandbox, verdict)
    ensures Enabled(db, SeeActive(t)) <==> verdict != Some(OfferChanged)
    ensures Enabled(db, SeeActive(t)) ==>
      ((forall o :: o in db.work[t].rows.Values ==> Enabled(Step(db, SeeActive(t)), SeeListing(t, o)))
       <==> verdict != Some(ListingUnavailable))
  {
    ActiveIsTheGate(s, db, t, payment, units, sandbox);
    if Enabled(db, SeeActive(t)) {
      PublishedIsTheGate(s, db, t, payment, units, sandbox);
    }
  }

  /** An accepted reservation passes every check the locks protect. */
  lemma AcceptedPassesTheGate(s: Store, db: Db, t: Txn, payment: Payment, units: seq<Unit>, sandbox: bool)
    requires AtTheGate(s, db, t, payment, units, sandbox)
    requires CheckoutOutcomes.VerdictFor(s, payment, units, sandbox, None)
    ensures Enabled(db, SeeActive(t))
    ensures forall o :: o in db.work[t].rows.Values ==> Enabled(Step(db, SeeActive(t)), SeeListing(t, o))
  {
    VerdictIsTheGate(s, db, t, payment, units, sandbox, None);
  }
}
