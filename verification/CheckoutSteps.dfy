/** Payments row by row: what one iteration of the controllers' loops adds to the
    tables, and that the iterations add up to the atomic steps of `Market`. */
module CheckoutSteps {
  import opened Wrappers
  import opened Ledger
  import opened Market
  import opened MarketSafety
  import opened MarketRuns
  import opened MarketHistory
  import opened Replay

  lemma StatusStep(before: map<PurchaseId, Purchase>, payment: Payment, i: nat, to: Status, reason: Option<Reason>)
    requires PurchaseId(payment, i) in before
    ensures var key := PurchaseId(payment, i);
      SetStatus(before, NewKeys(payment, i + 1), to, reason)
      == SetStatus(before, NewKeys(payment, i), to, reason)
           [key := before[key].(status := to, reason := NewReason(before[key].reason, reason))]
  {
  }

  lemma PaidStep(before: map<PurchaseId, Purchase>, payment: Payment, i: nat, tx: TxId)
    requires PurchaseId(payment, i) in before
    ensures var key := PurchaseId(payment, i);
      SetPaid(before, NewKeys(payment, i + 1), tx)
      == SetPaid(before, NewKeys(payment, i), tx)[key := before[key].(status := Settled, tx := Some(tx))]
  {
  }

  lemma UntouchedUnit(before: map<PurchaseId, Purchase>, payment: Payment, i: nat, to: Status, reason: Option<Reason>)
    requires PurchaseId(payment, i) in before
    ensures SetStatus(before, NewKeys(payment, i), to, reason)[PurchaseId(payment, i)] == before[PurchaseId(payment, i)]
  {
    assert PurchaseId(payment, i) !in NewKeys(payment, i);
  }

  /** The units among the first `i` that get ledger rows. */
  function RealKeys(purchases: map<PurchaseId, Purchase>, payment: Payment, i: nat): set<PurchaseId> {
    set k | k in NewKeys(payment, i) && k in purchases && !purchases[k].sandbox
  }

  lemma RowsStep(c: Catalog, purchases: map<PurchaseId, Purchase>, fees: map<PurchaseId, Fee>, shares: map<PurchaseId, Share>,
                 payment: Payment, i: nat)
    requires Recordable(c, purchases, PurchaseId(payment, i))
    ensures var key := PurchaseId(payment, i);
      var done, next := RealKeys(purchases, payment, i), RealKeys(purchases, payment, i + 1);
      && (purchases[key].sandbox ==> next == done)
      && (!purchases[key].sandbox ==>
            && FeesWith(c, purchases, fees, next) == FeesWith(c, purchases, fees, done)[key := FeeRow(c, purchases[key])]
            && SharesWith(c, purchases, shares, next) == SharesWith(c, purchases, shares, done)[key := ShareRow(c, purchases[key])])
  {
    var key := PurchaseId(payment, i);
    var done, next := RealKeys(purchases, payment, i), RealKeys(purchases, payment, i + 1);
    if purchases[key].sandbox {
      assert next == done;
    } else {
      assert next == done + {key};
    }
  }

  /** A unit the settlement can pay: verified, recordable, without ledger rows. */
  predicate PayableUnit(s: Store, key: PurchaseId) {
    Recordable(s.catalog, s.purchases, key) && s.purchases[key].status == Verified && key !in s.fees && key !in s.shares
  }

  function SizeIn(s: Store, payment: Payment): nat {
    if payment in s.batches then s.batches[payment].size else 1
  }

  /** A sound store with every unit of the payment settled. */
  ghost predicate CanDeliver(s: Store, payment: Payment) {
    Sound(s) && IsKnown(s, payment) && AllIn(s, payment, Settled)
  }

  /** The first `i` units licensed and delivered. */
  ghost function DeliveredStore(s: Store, payment: Payment, i: nat): Store {
    AllocateUpTo(s, payment, i).(purchases := SetStatus(s.purchases, NewKeys(payment, i), Delivered, None))
  }

  lemma NothingDeliveredYet(s: Store, payment: Payment)
    ensures DeliveredStore(s, payment, 0) == s
  {
    assert SetStatus(s.purchases, NewKeys(payment, 0), Delivered, None) == s.purchases;
  }

  /** The next serial looks at offers, rails and licences only. */
  lemma SerialIgnoresStatus(s: Store, t: Store, key: PurchaseId)
    requires t.licenses == s.licenses && t.catalog == s.catalog && t.purchases.Keys == s.purchases.Keys && key in s.purchases
    requires forall k :: k in s.purchases ==> t.purchases[k].offer == s.purchases[k].offer && t.purchases[k].sandbox == s.purchases[k].sandbox
    ensures NextSerial(t, key) == NextSerial(s, key)
    ensures BackstopHit(t, key, NextSerial(t, key)) <==> BackstopHit(s, key, NextSerial(s, key))
  {
    var o, sb := s.purchases[key].offer, s.purchases[key].sandbox;
    assert Licensed(t.purchases, t.licenses, o, sb) == Licensed(s.purchases, s.licenses, o, sb);
    assert Serials(t.purchases, t.licenses, o, sb) == Serials(s.purchases, s.licenses, o, sb);
  }

  /** Unit `i` is still settled when its turn comes, and its licence and status
      complete the next store. */
  ghost predicate DeliverStepOk(s: Store, payment: Payment, i: nat) {
    var key := PurchaseId(payment, i);
    var now := DeliveredStore(s, payment, i);
    && key in now.purchases && DesignerKnown(now.catalog, now.purchases[key]) && now.purchases[key].status == Settled
    && DeliveredStore(s, payment, i + 1)
         == Allocate(now, key).(purchases := now.purchases[key := now.purchases[key].(status := Delivered)])
  }

  /** Minting in the half-delivered store is minting in the store where only
      licences have changed. */
  lemma MintingIgnoresStatus(m: Store, now: Store, key: PurchaseId)
    requires now == m.(purchases := now.purchases) && now.purchases.Keys == m.purchases.Keys
    requires key in m.purchases && now.purchases[key] == m.purchases[key]
    requires forall k :: k in m.purchases ==>
      now.purchases[k].offer == m.purchases[k].offer && now.purchases[k].sandbox == m.purchases[k].sandbox
    ensures Allocate(now, key) == Allocate(m, key).(purchases := now.purchases)
  {
    SerialIgnoresStatus(m, now, key);
  }

  lemma DeliverStep(s: Store, m: Store, payment: Payment, i: nat)
    requires m == AllocateUpTo(s, payment, i) && m == s.(licenses := m.licenses)
    requires PurchaseId(payment, i) in s.purchases && s.purchases[PurchaseId(payment, i)].status == Settled
    requires DesignerKnown(s.catalog, s.purchases[PurchaseId(payment, i)])
    ensures DeliverStepOk(s, payment, i)
  {
    var key := PurchaseId(payment, i);
    var now := DeliveredStore(s, payment, i);
    UntouchedUnit(s.purchases, payment, i, Delivered, None);
    MintingIgnoresStatus(m, now, key);
    StatusStep(s.purchases, payment, i, Delivered, None);
    assert AllocateUpTo(s, payment, i + 1) == Allocate(m, key);
  }

  lemma DeliverStepsOk(s: Store, payment: Payment)
    requires CanDeliver(s, payment)
    ensures forall i :: 0 <= i < SizeIn(s, payment) ==> DeliverStepOk(s, payment, i)
  {
    UnitsAreKeys(s, payment);
    forall i | 0 <= i < SizeIn(s, payment)
      ensures DeliverStepOk(s, payment, i)
    {
      assert PurchaseId(payment, i) in UnitsOf(s.purchases, payment);
      AllocateUpToKeepsSound(s, payment, i);
      DeliverStep(s, AllocateUpTo(s, payment, i), payment, i);
    }
  }

  lemma DeliveredInOneStep(s: Store, m: Store, payment: Payment, n: nat)
    requires payment in s.batches && s.batches[payment].size == n && m == AllocateUpTo(s, payment, n)
    requires m == s.(licenses := m.licenses) && AllIn(s, payment, Settled)
    requires UnitsOf(s.purchases, payment) == NewKeys(payment, n) && NewKeys(payment, n) <= m.licenses.Keys
    ensures StoreStep(s, DeliverBatch(payment))
         == DeliveredStore(s, payment, n).(batches := s.batches[payment := s.batches[payment].(status := Delivered)])
  {
    assert SetBatch(s.batches, payment, Delivered, None) == s.batches[payment := s.batches[payment].(status := Delivered)];
  }

  /** All the batch delivery loop needs to know. */
  ghost predicate BatchPlan(s: Store, payment: Payment) {
    && payment in s.batches
    && DeliveredStore(s, payment, 0) == s
    && (forall i :: 0 <= i < s.batches[payment].size ==> DeliverStepOk(s, payment, i))
    && StoreStep(s, DeliverBatch(payment))
         == DeliveredStore(s, payment, s.batches[payment].size)
              .(batches := s.batches[payment := s.batches[payment].(status := Delivered)])
  }

  lemma BatchDeliveryPlan(s: Store, payment: Payment)
    requires CanDeliver(s, payment) && payment in s.batches
    ensures BatchPlan(s, payment)
  {
    NothingDeliveredYet(s, payment);
    DeliverStepsOk(s, payment);
    UnitsAreKeys(s, payment);
    MintedBatchIsLicensed(s, payment);
    DeliveredInOneStep(s, AllocateUpTo(s, payment, SizeIn(s, payment)), payment, SizeIn(s, payment));
  }

  /** All the single delivery needs to know. */
  ghost predicate SinglePlan(s: Store, payment: Payment) {
    var key := PurchaseId(payment, 0);
    var m := Allocate(s, key);
    && payment !in s.batches
    && UnitsOf(s.purchases, payment) == {key} && key in s.purchases && s.purchases[key].status == Settled
    && DesignerKnown(s.catalog, s.purchases[key])
    && m == s.(licenses := m.licenses)
    && Deliver(m, payment) == m.(purchases := m.purchases[key := m.purchases[key].(status := Delivered)])
  }

  lemma SingleDeliveryPlan(s: Store, payment: Payment)
    requires CanDeliver(s, payment) && payment !in s.batches
    ensures SinglePlan(s, payment)
  {
    var key := PurchaseId(payment, 0);
    UnitsAreKeys(s, payment);
    assert NewKeys(payment, 1) == {key};
    MintedSingleIsLicensed(s, payment);
    DeliverOneRow(Allocate(s, key), payment);
  }

  lemma DeliverOneRow(m: Store, payment: Payment)
    requires payment !in m.batches && UnitsOf(m.purchases, payment) == {PurchaseId(payment, 0)}
    requires AllIn(m, payment, Settled) && PurchaseId(payment, 0) in m.licenses
    ensures var key := PurchaseId(payment, 0);
      key in m.purchases && Deliver(m, payment) == m.(purchases := m.purchases[key := m.purchases[key].(status := Delivered)])
  {
    var key := PurchaseId(payment, 0);
    assert key in UnitsOf(m.purchases, payment);
    assert SetStatus(m.purchases, {key}, Delivered, None) == m.purchases[key := m.purchases[key].(status := Delivered)];
    assert SetBatch(m.batches, payment, Delivered, None) == m.batches;
  }

  lemma NoteInPlace(s: Store, payment: Payment, reason: Reason)
    ensures payment in s.batches ==>
      Note(s, payment, reason) == s.(batches := s.batches[payment := s.batches[payment].(reason := reason)])
    ensures var key := PurchaseId(payment, 0);
      payment !in s.batches && UnitsOf(s.purchases, payment) == {key} && key in s.purchases ==>
        Note(s, payment, reason) == s.(purchases := s.purchases[key := s.purchases[key].(reason := reason)])
  {
    var t := Note(s, payment, reason);
    if payment in s.batches {
      assert t.purchases == s.purchases;
    } else {
      assert t.batches == s.batches;
    }
  }

  /** Every unit is verified, of a designer on record, and not in the ledger yet. */
  predicate Payable(s: Store, payment: Payment, n: nat) {
    forall i :: 0 <= i < n ==> PayableUnit(s, PurchaseId(payment, i))
  }

  /** The first `i` of `n` units settled and recorded, nothing else changed. */
  ghost function PaidStore(s: Store, payment: Payment, n: nat, tx: TxId, i: nat): Store {
    var paid := SetPaid(s.purchases, NewKeys(payment, n), tx);
    s.(purchases := SetPaid(s.purchases, NewKeys(payment, i), tx),
       fees := FeesWith(s.catalog, paid, s.fees, RealKeys(paid, payment, i)),
       shares := SharesWith(s.catalog, paid, s.shares, RealKeys(paid, payment, i)))
  }

  lemma NothingPaidYet(s: Store, payment: Payment, n: nat, tx: TxId)
    ensures PaidStore(s, payment, n, tx, 0) == s
  {
    var t := PaidStore(s, payment, n, tx, 0);
    assert t.purchases == s.purchases && t.fees == s.fees && t.shares == s.shares;
  }

  /** Settle's four tables in the form the row-by-row loop produces. */
  lemma PaidInOneStep(s: Store, payment: Payment, n: nat, tx: TxId)
    requires UnitsOf(s.purchases, payment) == NewKeys(payment, n) && n > 0 && Payable(s, payment, n)
    ensures var t := Settle(s, payment, tx);
      !Claimed(s, payment, tx) ==> t == PaidStore(s, payment, n, tx, n).(batches := SetBatchPaid(s.batches, payment, tx))
  {
    var ps := SetPaid(s.purchases, NewKeys(payment, n), tx);
    forall i | 0 <= i < n
      ensures PayableUnit(s, PurchaseId(payment, i))
    {
    }
    assert PurchaseId(payment, 0) in UnitsOf(s.purchases, payment);
    forall k | k in NewKeys(payment, n)
      ensures k == PurchaseId(payment, k.position) && PayableUnit(s, k)
    {
    }
    var u := s.(purchases := ps, batches := SetBatchPaid(s.batches, payment, tx));
    assert ToRecord(u, NewKeys(payment, n)) == RealKeys(ps, payment, n);
  }

  lemma UnitsAreKeys(s: Store, payment: Payment)
    requires Sound(s) && IsKnown(s, payment)
    ensures UnitsOf(s.purchases, payment) == NewKeys(payment, if payment in s.batches then s.batches[payment].size else 1)
    ensures forall k :: k in UnitsOf(s.purchases, payment) ==> DesignerKnown(s.catalog, s.purchases[k])
  {
    if payment in s.batches {
      assert BatchWhole(s.purchases, payment, s.batches[payment]);
    }
  }

  lemma TopIsMax(purchases: map<PurchaseId, Purchase>, licenses: map<PurchaseId, nat>, offer: OfferId, sandbox: bool, top: nat)
    requires forall k :: k in Licensed(purchases, licenses, offer, sandbox) ==> licenses[k] <= top
    requires top == 0 || exists k :: k in Licensed(purchases, licenses, offer, sandbox) && licenses[k] == top
    ensures top == MaxOf(Serials(purchases, licenses, offer, sandbox))
  {
    var xs := Serials(purchases, licenses, offer, sandbox);
    if top != 0 {
      var k :| k in Licensed(purchases, licenses, offer, sandbox) && licenses[k] == top;
      assert top in xs;
    }
  }

  lemma OneUnitTally(unit: Unit)
    ensures Tally([unit], unit.offer) == 1
  {
    assert [unit][..0] == [];
  }

  predicate IsFull(c: Catalog, purchases: map<PurchaseId, Purchase>, offer: OfferId) {
    offer in c.offers && c.offers[offer].maxUnits.Some? && CapacityUsed(purchases, offer) >= c.offers[offer].maxUnits.value
  }

  lemma OneUnitSoldOut(c: Catalog, purchases: map<PurchaseId, Purchase>, unit: Unit)
    requires unit.offer in c.offers
    ensures SoldOut(c, purchases, [unit]) <==> IsFull(c, purchases, unit.offer)
  {
    OneUnitTally(unit);
    assert unit in [unit];
  }

  /** The locked section's checks for a single licence. */
  lemma OneUnitVerdict(s: Store, payment: Payment, unit: Unit, sandbox: bool)
    ensures ReserveVerdict(s, payment, [unit], sandbox) ==
      if !IsActive(s.catalog, unit.offer) then Some(OfferChanged)
      else if !OnSale(s.catalog, unit.offer) then Some(ListingUnavailable)
      else if !sandbox && IsFull(s.catalog, s.purchases, unit.offer) then Some(OutOfStock)
      else if UnitsOf(s.purchases, payment) != {} || payment in s.batches then Some(Duplicate)
      else None
  {
    assert unit in [unit];
    if unit.offer in s.catalog.offers {
      OneUnitSoldOut(s.catalog, s.purchases, unit);
    }
  }

  /** What a sound store gives the row-by-row methods about one payment. */
  lemma PaymentIsWhole(s: Store, payment: Payment, status: Status)
    requires Sound(s) && IsKnown(s, payment) && AllIn(s, payment, status)
    ensures UnitsOf(s.purchases, payment) == NewKeys(payment, SizeIn(s, payment)) && SizeIn(s, payment) > 0
    ensures forall k :: k in NewKeys(payment, SizeIn(s, payment)) ==>
              Recordable(s.catalog, s.purchases, k) && s.purchases[k].status == status
    ensures status == Verified ==> Payable(s, payment, SizeIn(s, payment))
  {
    UnitsAreKeys(s, payment);
    if payment in s.batches {
      assert BatchWhole(s.purchases, payment, s.batches[payment]);
    }
    forall i | 0 <= i < SizeIn(s, payment)
      ensures status == Verified ==> PayableUnit(s, PurchaseId(payment, i))
    {
      assert PurchaseId(payment, i) in UnitsOf(s.purchases, payment);
    }
  }
}
