/** What the checkout promises in rows: who is refused and why, what a payment's
    units, batch row, licences and ledger rows are after each answer. Stated on the
    tables themselves, and met by the atomic steps. */
module CheckoutOutcomes {
  import opened Wrappers
  import opened Ledger
  import opened Market
  import opened MarketSafety
  import opened MarketRuns
  import opened MarketHistory
  import opened Replay
  import opened CheckoutSteps

  // ------------------------------------------------------------- reservations

  ghost predicate ActiveNow(c: Catalog, o: OfferId) {
    o in c.offers && c.offers[o].active
  }

  ghost predicate PublishedNow(c: Catalog, o: OfferId) {
    o in c.offers && c.offers[o].model in c.listings && c.listings[c.offers[o].model].status == Published
  }

  /** The positions that ask for the offer. */
  ghost function Asking(units: seq<Unit>, o: OfferId): set<nat> {
    set i: nat | i < |units| && units[i].offer == o
  }

  ghost predicate Oversells(s: Store, units: seq<Unit>, o: OfferId) {
    o in s.catalog.offers && s.catalog.offers[o].maxUnits.Some?
    && |Holding(s.purchases, o)| + |Asking(units, o)| > s.catalog.offers[o].maxUnits.value
  }

  ghost predicate PaymentTaken(s: Store, payment: Payment) {
    payment in s.batches || exists k :: k in s.purchases && k.payment == payment
  }

  /** Each refusal, and acceptance, exactly when every check before it passes. */
  ghost predicate VerdictFor(s: Store, payment: Payment, units: seq<Unit>, sandbox: bool, verdict: Option<Refusal>) {
    var active := forall u :: u in units ==> ActiveNow(s.catalog, u.offer);
    var published := forall u :: u in units ==> PublishedNow(s.catalog, u.offer);
    var oversold := !sandbox && exists u :: u in units && Oversells(s, units, u.offer);
    && (verdict == Some(OfferChanged) <==> !active)
    && (verdict == Some(ListingUnavailable) <==> active && !published)
    && (verdict == Some(OutOfStock) <==> active && published && oversold)
    && (verdict == Some(Duplicate) <==> active && published && !oversold && PaymentTaken(s, payment))
    && (verdict.None? <==> active && published && !oversold && !PaymentTaken(s, payment))
  }

  lemma {:induction false} TallyIsAsking(units: seq<Unit>, o: OfferId)
    ensures Tally(units, o) == |Asking(units, o)|
  {
    if units == [] {
      assert Asking(units, o) == {};
    } else {
      var front, n := units[..|units| - 1], |units| - 1;
      TallyIsAsking(front, o);
      if units[n].offer == o {
        assert Asking(units, o) == Asking(front, o) + {n};
      } else {
        assert Asking(units, o) == Asking(front, o);
      }
    }
  }

  lemma VerdictIsRight(s: Store, payment: Payment, units: seq<Unit>, sandbox: bool)
    ensures VerdictFor(s, payment, units, sandbox, ReserveVerdict(s, payment, units, sandbox))
  {
    forall u | u in units
      ensures IsActive(s.catalog, u.offer) <==> ActiveNow(s.catalog, u.offer)
      ensures OnSale(s.catalog, u.offer) <==> ActiveNow(s.catalog, u.offer) && PublishedNow(s.catalog, u.offer)
    {
    }
    SoldOutIsOversold(s, units);
    TakenHasRows(s, payment);
  }

  lemma HoldersAreHolding(purchases: map<PurchaseId, Purchase>, o: OfferId)
    ensures Holders(purchases, o) == Holding(purchases, o)
  {
  }

  lemma OneHolderSeen(purchases: map<PurchaseId, Purchase>, o: OfferId, todo: set<PurchaseId>, k: PurchaseId)
    requires k in todo && k in purchases
    ensures var holds := purchases[k].offer == o && !purchases[k].sandbox && !IsFailed(purchases[k].status);
      Holders(purchases, o) - (todo - {k}) == (Holders(purchases, o) - todo) + (if holds then {k} else {})
  {
  }

  lemma SoldOutIsOversold(s: Store, units: seq<Unit>)
    ensures SoldOut(s.catalog, s.purchases, units) <==> exists u :: u in units && Oversells(s, units, u.offer)
  {
    forall u | u in units
      ensures Tally(units, u.offer) == |Asking(units, u.offer)| && Holders(s.purchases, u.offer) == Holding(s.purchases, u.offer)
    {
      TallyIsAsking(units, u.offer);
    }
  }

  lemma TakenHasRows(s: Store, payment: Payment)
    ensures PaymentTaken(s, payment) <==> UnitsOf(s.purchases, payment) != {} || payment in s.batches
  {
    if k :| k in s.purchases && k.payment == payment {
      assert k in UnitsOf(s.purchases, payment);
    }
  }

  /** One pending row per position, in the order asked for; the batch row of a
      batch; nothing else. */
  ghost predicate Reserves(s: Store, t: Store, payment: Payment, units: seq<Unit>, batch: bool, asset: Asset, payTo: Account,
                           sandbox: bool) {
    && (forall k :: k in t.purchases <==> k in s.purchases || (k.payment == payment && k.position < |units|))
    && (forall k :: k in s.purchases ==> t.purchases[k] == s.purchases[k])
    && (forall i: nat :: i < |units| ==>
          && PurchaseId(payment, i) in t.purchases
          && t.purchases[PurchaseId(payment, i)]
               == Purchase(units[i].offer, asset, units[i].amount, payTo, sandbox, Pending, NoReason, None))
    && t == s.(purchases := t.purchases,
               batches := if batch then s.batches[payment := Batch(|units|, sandbox, Pending, NoReason, None)] else s.batches)
  }

  lemma ReserveReserves(s: Store, payment: Payment, units: seq<Unit>, batch: bool, asset: Asset, payTo: Account, sandbox: bool)
    requires |units| > 0 && (!batch ==> |units| == 1)
    ensures var t := Reserve(s, payment, units, batch, asset, payTo, sandbox);
      if ReserveVerdict(s, payment, units, sandbox).None? then Reserves(s, t, payment, units, batch, asset, payTo, sandbox)
      else t == s
  {
    if ReserveVerdict(s, payment, units, sandbox).None? {
      forall k
        ensures var after := Inserted(s.purchases, payment, units, asset, payTo, sandbox);
          && (k in after <==> k in s.purchases || (k.payment == payment && 0 <= k.position < |units|))
          && (k in s.purchases ==> after[k] == s.purchases[k])
          && (k.payment == payment && 0 <= k.position < |units| ==>
                after[k] == NewPurchase(units[k.position], asset, payTo, sandbox))
      {
        InsertedAt(s, payment, units, asset, payTo, sandbox, k);
      }
    }
  }

  // -------------------------------------------------- statuses, reasons, licences

  /** The payment stands in `status`: its units and its batch row, with these
      reasons where given. Nothing else differs. */
  ghost predicate Stands(s: Store, t: Store, payment: Payment, status: Status, unitReason: Option<Reason>, batchReason: Option<Reason>) {
    && t == s.(purchases := t.purchases, batches := t.batches)
    && t.purchases.Keys == s.purchases.Keys && t.batches.Keys == s.batches.Keys
    && (forall k :: k in s.purchases ==>
          t.purchases[k] ==
            if k.payment == payment
            then s.purchases[k].(status := status, reason := if unitReason.Some? then unitReason.value else s.purchases[k].reason)
            else s.purchases[k])
    && (forall p :: p in s.batches ==>
          t.batches[p] ==
            if p == payment
            then s.batches[p].(status := status, reason := if batchReason.Some? then batchReason.value else s.batches[p].reason)
            else s.batches[p])
  }

  /** It stands in `status` with the reason noted where a replay looks: on the
      batch row, or on the single purchase. */
  ghost predicate WaitsIn(s: Store, t: Store, payment: Payment, status: Status, reason: Reason) {
    Stands(s, t, payment, status, if payment in s.batches then None else Some(reason), Some(reason))
  }

  ghost predicate Fails(s: Store, t: Store, payment: Payment, status: Status) {
    Stands(s, t, payment, status, Some(Rejection), Some(Rejection))
  }

  lemma AdvanceStands(s: Store, payment: Payment, from: Status, to: Status, reason: Option<Reason>)
    requires AllIn(s, payment, from)
    ensures Stands(s, Advance(s, payment, from, to, reason), payment, to, reason, reason)
  {
    var t := Advance(s, payment, from, to, reason);
    assert t.purchases == SetStatus(s.purchases, UnitsOf(s.purchases, payment), to, reason);
    assert t.batches == SetBatch(s.batches, payment, to, reason);
  }

  lemma NoteWaits(s: Store, payment: Payment, status: Status, reason: Reason)
    requires AllIn(s, payment, status) && (payment in s.batches ==> s.batches[payment].status == status)
    ensures WaitsIn(s, Note(s, payment, reason), payment, status, reason)
  {
    var t := Note(s, payment, reason);
    forall k | k in s.purchases && k.payment == payment
      ensures s.purchases[k].status == status
    {
      assert k in UnitsOf(s.purchases, payment);
    }
  }

  /** A refused payment gives back every unit it held. */
  lemma FailureFreesCapacity(s: Store, t: Store, payment: Payment, status: Status, o: OfferId)
    requires Fails(s, t, payment, status) && (status == FailedVerification || status == FailedSettlement)
    ensures Holding(t.purchases, o) == set k | k in Holding(s.purchases, o) && k.payment != payment
  {
  }

  // ------------------------------------------------------------------ the ledger

  /** The two rows of a settled sale: the fee is the floor of a tenth, the share is
      the listing's designer's, and the money is the treasury's unless it was paid
      to that designer's own account. */
  ghost predicate BookedAs(c: Catalog, p: Purchase, fee: Fee, share: Share) {
    && p.offer in c.offers && c.offers[p.offer].model in c.listings && c.listings[c.offers[p.offer].model].designer in c.accounts
    && share.designer == c.listings[c.offers[p.offer].model].designer
    && fee.asset == share.asset == p.asset
    && fee.amount + share.amount == p.amount && 10 * fee.amount <= p.amount < 10 * fee.amount + 10
    && (share.treasury <==> p.payTo == c.treasury || c.accounts[share.designer] != Some(p.payTo))
    && (fee.treasury <==> p.payTo == c.treasury || c.accounts[share.designer] != Some(p.payTo))
  }

  lemma RowsAreBooked(c: Catalog, p: Purchase)
    requires DesignerKnown(c, p)
    ensures BookedAs(c, p, FeeRow(c, p), ShareRow(c, p))
  {
    SplitFavoursDesigner(p.amount);
  }

  /** The transaction id is on another payment of the same rail. */
  ghost predicate NamedElsewhere(s: Store, payment: Payment, tx: TxId) {
    if payment in s.batches then exists p :: p in s.batches && p != payment && s.batches[p].tx == Some(tx)
    else exists k :: k in s.purchases && k.payment != payment && k.payment !in s.batches && s.purchases[k].tx == Some(tx)
  }

  /** The payment settles on `tx`: units, batch row, and both ledger rows of each
      real unit. */
  ghost predicate Settles(s: Store, t: Store, payment: Payment, tx: TxId) {
    && t == s.(purchases := t.purchases, batches := t.batches, fees := t.fees, shares := t.shares)
    && t.purchases.Keys == s.purchases.Keys && t.batches.Keys == s.batches.Keys
    && (forall k :: k in s.purchases ==>
          t.purchases[k] == if k.payment == payment then s.purchases[k].(status := Settled, tx := Some(tx)) else s.purchases[k])
    && (forall p :: p in s.batches ==>
          t.batches[p] == if p == payment then s.batches[p].(status := Settled, tx := Some(tx)) else s.batches[p])
    && (forall k :: k in s.fees ==> k in t.fees && t.fees[k] == s.fees[k])
    && (forall k :: k in s.shares ==> k in t.shares && t.shares[k] == s.shares[k])
    && (forall k :: k in t.fees && k !in s.fees ==> k in s.purchases && k.payment == payment && !s.purchases[k].sandbox)
    && (forall k :: k in s.purchases && k.payment == payment && !s.purchases[k].sandbox ==>
          k in t.fees && k in t.shares && BookedAs(s.catalog, s.purchases[k], t.fees[k], t.shares[k]))
    && t.fees.Keys - s.fees.Keys == t.shares.Keys - s.shares.Keys
  }

  lemma NewRowsAreBooked(s: Store, m: Store, keys: set<PurchaseId>, k: PurchaseId)
    requires m.catalog == s.catalog && m.fees == s.fees && m.shares == s.shares && k in keys && k in s.purchases && k in m.purchases
    requires !s.purchases[k].sandbox && DesignerKnown(s.catalog, s.purchases[k]) && k !in s.fees && k !in s.shares
    requires m.purchases[k] == s.purchases[k].(status := m.purchases[k].status, tx := m.purchases[k].tx)
    ensures var t := WithRows(m, keys); k in t.fees && k in t.shares && BookedAs(s.catalog, s.purchases[k], t.fees[k], t.shares[k])
  {
    assert k in ToRecord(m, keys);
    RowsAreBooked(s.catalog, m.purchases[k]);
  }

  lemma WithRowsAdds(m: Store, keys: set<PurchaseId>)
    ensures var t := WithRows(m, keys);
      && t == m.(fees := t.fees, shares := t.shares)
      && (forall k :: k in m.fees ==> k in t.fees && t.fees[k] == m.fees[k])
      && (forall k :: k in m.shares ==> k in t.shares && t.shares[k] == m.shares[k])
      && t.fees.Keys == m.fees.Keys + ToRecord(m, keys) && t.shares.Keys == m.shares.Keys + ToRecord(m, keys)
  {
  }

  lemma SettleSettles(s: Store, payment: Payment, tx: TxId)
    requires Sound(s) && AllIn(s, payment, Verified)
    ensures if NamedElsewhere(s, payment, tx) then Settle(s, payment, tx) == s else Settles(s, Settle(s, payment, tx), payment, tx)
  {
    if !Claimed(s, payment, tx) {
      var keys := UnitsOf(s.purchases, payment);
      var m := s.(purchases := SetPaid(s.purchases, keys, tx), batches := SetBatchPaid(s.batches, payment, tx));
      WithRowsAdds(m, keys);
      forall k | k in s.purchases && k.payment == payment && !s.purchases[k].sandbox
        ensures var t := WithRows(m, keys); k in t.fees && k in t.shares && BookedAs(s.catalog, s.purchases[k], t.fees[k], t.shares[k])
      {
        assert k in keys;
        NewRowsAreBooked(s, m, keys, k);
      }
    }
  }

  lemma BatchStandsWithUnits(s: Store, payment: Payment, status: Status)
    requires Sound(s) && AllIn(s, payment, status)
    ensures payment in s.batches ==> s.batches[payment].status == status
  {
    if payment in s.batches {
      assert BatchWhole(s.purchases, payment, s.batches[payment]);
      assert PurchaseId(payment, 0) in UnitsOf(s.purchases, payment);
    }
  }

  lemma LostStands(s: Store, payment: Payment, status: Status, reason: Reason)
    requires Sound(s) && AllIn(s, payment, status)
    ensures WaitsIn(s, Note(s, payment, reason), payment, status, reason)
  {
    BatchStandsWithUnits(s, payment, status);
    NoteWaits(s, payment, status, reason);
  }

  // --------------------------------------------------------------------- delivery

  /** Old licences stay; new ones are for units of the payment — for all of them,
      or none is minted. */
  ghost predicate Mints(s: Store, t: Store, payment: Payment, mint: bool) {
    && (forall k :: k in s.licenses ==> k in t.licenses && t.licenses[k] == s.licenses[k])
    && (forall k :: k in t.licenses && k !in s.licenses ==> k in s.purchases && k.payment == payment)
    && (if mint then forall k :: k in s.purchases && k.payment == payment ==> k in t.licenses else t.licenses == s.licenses)
  }

  /** A settled payment with its files is delivered and licensed whole. Without
      them it stays settled with the reason noted: a batch before anything is
      minted, a single purchase after its licence. */
  ghost predicate Delivers(s: Store, t: Store, payment: Payment, deliverable: bool) {
    && Mints(s, t, payment, deliverable || payment !in s.batches)
    && (if deliverable then Stands(s, t.(licenses := s.licenses), payment, Delivered, None, None)
        else WaitsIn(s, t.(licenses := s.licenses), payment, Settled, NoDeliverableFile))
  }

  lemma {:induction false} AllocatedAreUnits(s: Store, payment: Payment, n: nat)
    ensures forall k :: k in AllocateUpTo(s, payment, n).licenses && k !in s.licenses ==> k in s.purchases && k.payment == payment
  {
    if n > 0 {
      AllocatedAreUnits(s, payment, n - 1);
      AllocateUpToIsLater(s, payment, n - 1);
    }
  }

  lemma DeliverStands(s: Store, m: Store, payment: Payment)
    requires m == s.(licenses := m.licenses) && AllIn(m, payment, Settled) && UnitsOf(m.purchases, payment) <= m.licenses.Keys
    ensures var t := Deliver(m, payment); t.licenses == m.licenses && Stands(s, t.(licenses := s.licenses), payment, Delivered, None, None)
  {
    AdvanceStands(m, payment, Settled, Delivered, None);
    assert Deliver(m, payment) == Advance(m, payment, Settled, Delivered, None);
  }

  lemma BatchDeliversWhole(s: Store, payment: Payment)
    requires CanDeliver(s, payment) && payment in s.batches
    ensures Delivers(s, Deliver(AllocateUpTo(s, payment, s.batches[payment].size), payment), payment, true)
  {
    var n := s.batches[payment].size;
    var m := AllocateUpTo(s, payment, n);
    MintedBatchIsLicensed(s, payment);
    AllocateUpToIsLater(s, payment, n);
    AllocatedAreUnits(s, payment, n);
    LicensedUnits(s, m, payment);
    DeliverStands(s, m, payment);
  }

  lemma BatchWithFiles(w: World, payment: Payment, a: Answers)
    requires CanDeliver(w.store, payment) && payment in w.store.batches && a.deliverable
    ensures Delivers(w.store, DeliverPayment(w, payment, a).store, payment, a.deliverable)
  {
    BatchStepDelivers(w, payment);
    BatchDeliversWhole(w.store, payment);
  }

  lemma BatchWithoutFiles(w: World, payment: Payment, a: Answers)
    requires CanDeliver(w.store, payment) && payment in w.store.batches && !a.deliverable
    ensures Delivers(w.store, DeliverPayment(w, payment, a).store, payment, a.deliverable)
  {
    LostStands(w.store, payment, Settled, NoDeliverableFile);
    NotedDelivers(w.store, w.store, payment);
    NotedBatch(w, payment, a);
  }

  lemma NotedBatch(w: World, payment: Payment, a: Answers)
    requires payment in w.store.batches && !a.deliverable
    ensures DeliverPayment(w, payment, a) == w.(store := Note(w.store, payment, NoDeliverableFile))
  {
  }

  lemma NotedDelivers(s: Store, m: Store, payment: Payment)
    requires m == s.(licenses := m.licenses) && Mints(s, m, payment, payment !in s.batches)
    requires WaitsIn(s, Note(s, payment, NoDeliverableFile), payment, Settled, NoDeliverableFile)
    ensures Delivers(s, Note(m, payment, NoDeliverableFile), payment, false)
  {
    NoteKeepsLicences(s, m, payment, NoDeliverableFile);
  }

  lemma LicensedUnits(s: Store, m: Store, payment: Payment)
    requires m == s.(licenses := m.licenses) && UnitsOf(m.purchases, payment) <= m.licenses.Keys
    ensures forall k :: k in s.purchases && k.payment == payment ==> k in m.licenses
  {
    forall k | k in s.purchases && k.payment == payment
      ensures k in m.licenses
    {
      assert k in UnitsOf(m.purchases, payment);
    }
  }

  lemma SingleIsMinted(s: Store, payment: Payment)
    requires CanDeliver(s, payment) && payment !in s.batches
    ensures var m := Allocate(s, PurchaseId(payment, 0));
      m == s.(licenses := m.licenses) && AllIn(m, payment, Settled) && UnitsOf(m.purchases, payment) <= m.licenses.Keys
      && Mints(s, m, payment, true)
  {
    MintedSingleIsLicensed(s, payment);
    AllocateIsLater(s, PurchaseId(payment, 0));
    LicensedUnits(s, Allocate(s, PurchaseId(payment, 0)), payment);
  }

  lemma NoteKeepsLicences(s: Store, m: Store, payment: Payment, reason: Reason)
    requires m == s.(licenses := m.licenses)
    ensures Note(m, payment, reason).(licenses := s.licenses) == Note(s, payment, reason)
    ensures Note(m, payment, reason).licenses == m.licenses
  {
  }

  lemma SingleWithFiles(w: World, payment: Payment, a: Answers)
    requires CanDeliver(w.store, payment) && payment !in w.store.batches && a.deliverable
    ensures Delivers(w.store, DeliverPayment(w, payment, a).store, payment, a.deliverable)
  {
    SingleIsMinted(w.store, payment);
    DeliverStands(w.store, Allocate(w.store, PurchaseId(payment, 0)), payment);
  }

  lemma SingleWithoutFiles(w: World, payment: Payment, a: Answers)
    requires CanDeliver(w.store, payment) && payment !in w.store.batches && !a.deliverable
    ensures Delivers(w.store, DeliverPayment(w, payment, a).store, payment, a.deliverable)
  {
    SingleIsMinted(w.store, payment);
    LostStands(w.store, payment, Settled, NoDeliverableFile);
    NotedDelivers(w.store, Allocate(w.store, PurchaseId(payment, 0)), payment);
  }

  lemma DeliveryDelivers(w: World, payment: Payment, a: Answers)
    requires CanDeliver(w.store, payment)
    ensures Delivers(w.store, DeliverPayment(w, payment, a).store, payment, a.deliverable)
    ensures DeliverPayment(w, payment, a).executed == w.executed
  {
    if payment in w.store.batches {
      if a.deliverable {
        BatchWithFiles(w, payment, a);
      } else {
        BatchWithoutFiles(w, payment, a);
      }
    } else if a.deliverable {
      SingleWithFiles(w, payment, a);
    } else {
      SingleWithoutFiles(w, payment, a);
    }
  }

  // ----------------------------------------------------------------- the requests

  /** A confirmed payment settles and is delivered, unless its transaction id is
      taken on its rail: then nothing changes. */
  ghost predicate PaysAndDelivers(s: Store, t: Store, payment: Payment, tx: TxId, deliverable: bool) {
    if NamedElsewhere(s, payment, tx) then t == s
    else exists m :: Settles(s, m, payment, tx) && Delivers(m, t, payment, deliverable)
  }

  ghost predicate HasRealUnit(s: Store, payment: Payment) {
    exists k :: k in s.purchases && k.payment == payment && !s.purchases[k].sandbox
  }

  /** settle: a refusal fails every row, a lost reply leaves every row verified with
      the facilitator noted, a success settles and delivers. */
  ghost predicate SettleOutcome(w: World, t: World, payment: Payment, a: Answers) {
    match a.settle
    case Refused => Fails(w.store, t.store, payment, FailedSettlement) && t.executed == w.executed
    case SettleDown(applied) =>
      WaitsIn(w.store, t.store, payment, Verified, Facilitator) && t.executed == w.executed + (if applied then {payment} else {})
    case Success =>
      PaysAndDelivers(w.store, t.store, payment, payment, a.deliverable)
      && t.executed == w.executed + (if HasRealUnit(w.store, payment) then {payment} else {})
  }

  ghost predicate OnSandbox(s: Store, payment: Payment) {
    if payment in s.batches then s.batches[payment].sandbox
    else PurchaseId(payment, 0) in s.purchases && s.purchases[PurchaseId(payment, 0)].sandbox
  }

  /** reconcile: what the mirror finds for a real payment settles it; else settle. */
  ghost predicate ReconcileOutcome(w: World, t: World, payment: Payment, a: Answers) {
    if !OnSandbox(w.store, payment) && a.mirror.Some? then
      PaysAndDelivers(w.store, t.store, payment, a.mirror.value, a.deliverable) && t.executed == w.executed
    else SettleOutcome(w, t, payment, a)
  }

  /** verify: a refusal fails every row, a lost reply leaves every row pending with
      the facilitator noted, a valid payment is verified and settled. */
  ghost predicate VerifyOutcome(w: World, t: World, payment: Payment, a: Answers) {
    match a.verify
    case Invalid => Fails(w.store, t.store, payment, FailedVerification) && t.executed == w.executed
    case VerifyDown => WaitsIn(w.store, t.store, payment, Pending, Facilitator) && t.executed == w.executed
    case Valid =>
      exists v :: Stands(w.store, v, payment, Verified, None, None) && SettleOutcome(World(v, w.executed), t, payment, a)
  }

  ghost function StandingOf(s: Store, payment: Payment): (Status, Reason) {
    if payment in s.batches then (s.batches[payment].status, s.batches[payment].reason)
    else if PurchaseId(payment, 0) in s.purchases then
      (s.purchases[PurchaseId(payment, 0)].status, s.purchases[PurchaseId(payment, 0)].reason)
    else (Pending, NoReason)
  }

  /** replay: a settled payment is delivered, a verified one reconciled, a pending one
      verified only when the facilitator was lost, a delivered one only noted when its
      files are gone; a failed one stays. */
  ghost predicate ReplayOutcome(w: World, t: World, payment: Payment, a: Answers) {
    match StandingOf(w.store, payment).0
    case Settled => Delivers(w.store, t.store, payment, a.deliverable) && t.executed == w.executed
    case Verified => ReconcileOutcome(w, t, payment, a)
    case Pending => if StandingOf(w.store, payment).1 == Facilitator then VerifyOutcome(w, t, payment, a) else t == w
    case Delivered =>
      if a.deliverable then t == w
      else WaitsIn(w.store, t.store, payment, Delivered, NoDeliverableFile) && t.executed == w.executed
    case _ => t == w
  }

  lemma RealIsReal(s: Store, payment: Payment)
    ensures IsReal(s, payment) <==> HasRealUnit(s, payment)
  {
    if k :| k in s.purchases && k.payment == payment && !s.purchases[k].sandbox {
      assert k in UnitsOf(s.purchases, payment);
    }
  }

  lemma ConfirmedOutcome(w: World, e: Event, payment: Payment, tx: TxId, a: Answers)
    requires Sound(w.store) && IsKnown(w.store, payment) && AllIn(w.store, payment, Verified) && Enabled(w, e)
    requires e == MirrorMatched(payment, tx) || (e == SettleConfirmed(payment) && tx == payment)
    ensures var t := DeliverAfter(w, e, payment, a);
      PaysAndDelivers(w.store, t.store, payment, tx, a.deliverable) && t.executed == Step(w, e).executed
  {
    SettleSettles(w.store, payment, tx);
    var paid := Step(w, e);
    assert paid.store == Settle(w.store, payment, tx);
    if NamedElsewhere(w.store, payment, tx) {
      var k :| k in UnitsOf(w.store.purchases, payment);
    } else {
      StoreStepKeepsSound(w, e);
      SettleReaches(w.store, payment, tx);
      StepIsLater(w, e);
      DeliveryDelivers(paid, payment, a);
      assert Settles(w.store, paid.store, payment, tx) && Delivers(paid.store, DeliverPayment(paid, payment, a).store, payment, a.deliverable);
    }
  }

  lemma SettleRefusedOutcome(w: World, payment: Payment, a: Answers)
    requires AllIn(w.store, payment, Verified) && Honest(w, payment, a) && a.settle.Refused?
    ensures SettleOutcome(w, SettlePayment(w, payment, a), payment, a)
  {
    AdvanceStands(w.store, payment, Verified, FailedSettlement, Some(Rejection));
  }

  lemma SettleLostOutcome(w: World, payment: Payment, a: Answers)
    requires Sound(w.store) && AllIn(w.store, payment, Verified) && Honest(w, payment, a) && a.settle.SettleDown?
    ensures SettleOutcome(w, SettlePayment(w, payment, a), payment, a)
  {
    LostStands(w.store, payment, Verified, Facilitator);
  }

  lemma SettlePaymentOutcome(w: World, payment: Payment, a: Answers)
    requires Sound(w.store) && IsKnown(w.store, payment) && AllIn(w.store, payment, Verified) && Honest(w, payment, a)
    ensures SettleOutcome(w, SettlePayment(w, payment, a), payment, a)
  {
    match a.settle {
      case Refused => SettleRefusedOutcome(w, payment, a);
      case SettleDown(_) => SettleLostOutcome(w, payment, a);
      case Success =>
        RealIsReal(w.store, payment);
        ConfirmedOutcome(w, SettleConfirmed(payment), payment, payment, a);
    }
  }

  lemma ReconcilePaymentOutcome(w: World, payment: Payment, a: Answers)
    requires Sound(w.store) && IsKnown(w.store, payment) && AllIn(w.store, payment, Verified) && Honest(w, payment, a)
    ensures ReconcileOutcome(w, ReconcilePayment(w, payment, a), payment, a)
  {
    if IsSandbox(w.store, payment) || a.mirror.None? {
      SettlePaymentOutcome(w, payment, a);
    } else {
      ConfirmedOutcome(w, MirrorMatched(payment, a.mirror.value), payment, a.mirror.value, a);
    }
  }

  lemma InvalidOutcome(w: World, payment: Payment, a: Answers)
    requires AllIn(w.store, payment, Pending) && Honest(w, payment, a) && a.verify.Invalid?
    ensures VerifyOutcome(w, VerifyPayment(w, payment, a), payment, a)
  {
    AdvanceStands(w.store, payment, Pending, FailedVerification, Some(Rejection));
  }

  lemma VerifyLostOutcome(w: World, payment: Payment, a: Answers)
    requires Sound(w.store) && AllIn(w.store, payment, Pending) && Honest(w, payment, a) && a.verify.VerifyDown?
    ensures VerifyOutcome(w, VerifyPayment(w, payment, a), payment, a)
  {
    LostStands(w.store, payment, Pending, Facilitator);
  }

  lemma VerifyPaymentOutcome(w: World, payment: Payment, a: Answers)
    requires Sound(w.store) && IsKnown(w.store, payment) && AllIn(w.store, payment, Pending) && Honest(w, payment, a)
    ensures VerifyOutcome(w, VerifyPayment(w, payment, a), payment, a)
  {
    match a.verify {
      case Invalid => InvalidOutcome(w, payment, a);
      case VerifyDown => VerifyLostOutcome(w, payment, a);
      case Valid => ValidOutcome(w, payment, a);
    }
  }

  lemma ValidOutcome(w: World, payment: Payment, a: Answers)
    requires Sound(w.store) && IsKnown(w.store, payment) && AllIn(w.store, payment, Pending) && Honest(w, payment, a) && a.verify.Valid?
    ensures VerifyOutcome(w, VerifyPayment(w, payment, a), payment, a)
  {
    var v, t := Step(w, VerifyAccepted(payment)), VerifyPayment(w, payment, a);
    AdvanceStands(w.store, payment, Pending, Verified, None);
    VerifiedIsReady(w, payment, a);
    SettlePaymentOutcome(v, payment, a);
    assert World(v.store, w.executed) == v && t == SettlePayment(v, payment, a);
    assert Stands(w.store, v.store, payment, Verified, None, None) && SettleOutcome(World(v.store, w.executed), t, payment, a);
  }

  lemma VerifiedIsReady(w: World, payment: Payment, a: Answers)
    requires Sound(w.store) && IsKnown(w.store, payment) && AllIn(w.store, payment, Pending) && Honest(w, payment, a)
    ensures var v := Step(w, VerifyAccepted(payment));
      Sound(v.store) && IsKnown(v.store, payment) && AllIn(v.store, payment, Verified) && Honest(v, payment, a) && v.executed == w.executed
  {
    StoreStepKeepsSound(w, VerifyAccepted(payment));
    VerifiedStays(w, payment, a);
  }

  lemma VerifiedStays(w: World, payment: Payment, a: Answers)
    requires IsKnown(w.store, payment) && AllIn(w.store, payment, Pending) && Honest(w, payment, a)
    ensures var v := Step(w, VerifyAccepted(payment));
      IsKnown(v.store, payment) && AllIn(v.store, payment, Verified) && Honest(v, payment, a) && v.executed == w.executed
  {
    AdvanceReaches(w.store, payment, Pending, Verified, None);
    StepIsLater(w, VerifyAccepted(payment));
  }

  lemma ReplayPaymentOutcome(w: World, payment: Payment, a: Answers)
    requires Sound(w.store) && IsKnown(w.store, payment) && Honest(w, payment, a)
    ensures ReplayOutcome(w, ReplayPayment(w, payment, a), payment, a)
  {
    StatusIsEveryUnits(w.store, payment);
    ReplayByStatus(w, payment, a);
    var status := StatusOf(w.store, payment);
    assert status == StandingOf(w.store, payment).0;
    if status == Settled {
      DeliveryDelivers(w, payment, a);
    } else if status == Verified {
      ReconcilePaymentOutcome(w, payment, a);
    } else if status == Pending && ReasonOf(w.store, payment) == Facilitator {
      VerifyPaymentOutcome(w, payment, a);
    } else if status == Delivered && !a.deliverable {
      DeliveredWithoutFiles(w, payment);
    }
  }

  lemma DeliveredWithoutFiles(w: World, payment: Payment)
    requires Sound(w.store) && AllIn(w.store, payment, Delivered)
    ensures WaitsIn(w.store, Step(w, Undeliverable(payment)).store, payment, Delivered, NoDeliverableFile)
  {
    LostStands(w.store, payment, Delivered, NoDeliverableFile);
    NoteStep(w, payment);
  }

  lemma NoteStep(w: World, payment: Payment)
    ensures Step(w, Undeliverable(payment)) == w.(store := Note(w.store, payment, NoDeliverableFile))
  {
  }

  /** A payment whose verify reply was lost is picked up by the next replay: with
      all services answering it is delivered exactly when its transaction id is free. */
  lemma LostVerifyIsPickedUp(w: World, payment: Payment, t: World, a: Answers)
    requires Sound(w.store) && IsKnown(w.store, payment) && AllIn(w.store, payment, Pending)
    requires t == Step(w, VerifyLost(payment)) && Honest(t, payment, a)
    requires a.verify == Valid && a.settle == Success && a.deliverable
    ensures Sound(t.store) && IsKnown(t.store, payment)
    ensures FullyDelivered(ReplayPayment(t, payment, a).store, payment) <==> !NamedElsewhere(t.store, payment, payment)
  {
    LostVerifyWaits(w, payment);
    WaitingIsPickedUp(t, payment, a);
  }

  lemma WaitingIsPickedUp(t: World, payment: Payment, a: Answers)
    requires Sound(t.store) && IsKnown(t.store, payment) && Honest(t, payment, a)
    requires StatusOf(t.store, payment) == Pending && ReasonOf(t.store, payment) == Facilitator
    requires a.verify == Valid && a.settle == Success && a.deliverable
    ensures FullyDelivered(ReplayPayment(t, payment, a).store, payment) <==> !NamedElsewhere(t.store, payment, payment)
  {
    InterruptedReplayDelivers(t, payment, a);
  }

  lemma LostVerifyWaits(w: World, payment: Payment)
    requires Sound(w.store) && IsKnown(w.store, payment) && AllIn(w.store, payment, Pending)
    ensures var s := Step(w, VerifyLost(payment)).store;
      Sound(s) && IsKnown(s, payment) && StatusOf(s, payment) == Pending && ReasonOf(s, payment) == Facilitator
  {
    StoreStepKeepsSound(w, VerifyLost(payment));
    LostStands(w.store, payment, Pending, Facilitator);
    BatchStandsWithUnits(w.store, payment, Pending);
    KnownStands(w.store, Note(w.store, payment, Facilitator), payment);
  }

  lemma KnownStands(s: Store, t: Store, payment: Payment)
    requires IsKnown(s, payment) && WaitsIn(s, t, payment, Pending, Facilitator)
    ensures IsKnown(t, payment) && StatusOf(t, payment) == Pending && ReasonOf(t, payment) == Facilitator
  {
  }
}
