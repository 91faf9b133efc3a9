/** The two purchase controllers as they run: rows written one at a time inside a
    transaction, each method equal to the atomic step it implements. */
module Checkout {
  import opened Wrappers
  import opened Ledger
  import opened Market
  import opened MarketSafety
  import opened MarketRuns
  import opened MarketHistory
  import opened Replay
  import opened CheckoutSteps
  import opened CheckoutOutcomes

  predicate StandsAt(c: Catalog, purchases: map<PurchaseId, Purchase>, k: PurchaseId, status: Status) {
    Recordable(c, purchases, k) && purchases[k].status == status
  }

  /** Licences counted by one run of serials: one offer, one rail. */
  ghost predicate SameShelf(purchases: map<PurchaseId, Purchase>, k: PurchaseId, key: PurchaseId) {
    k in purchases && key in purchases && purchases[k].offer == purchases[key].offer && purchases[k].sandbox == purchases[key].sandbox
  }

  class Shop {
    var catalog: Catalog
    var purchases: map<PurchaseId, Purchase>
    var batches: map<Payment, Batch>
    var licenses: map<PurchaseId, nat>
    var fees: map<PurchaseId, Fee>
    var shares: map<PurchaseId, Share>
    /** Which payments the network has executed; the code only hears about it. */
    ghost var executed: set<TxId>

    constructor (catalog: Catalog)
      ensures Rows() == Store(catalog, map[], map[], map[], map[], map[]) && executed == {}
    {
      this.catalog := catalog;
      purchases, batches, licenses, fees, shares, executed := map[], map[], map[], map[], map[], {};
    }

    ghost function Rows(): Store
      reads this
    {
      Store(catalog, purchases, batches, licenses, fees, shares)
    }

    // ------------------------------------------------------------ reservation

    /** LicenseOffer#capacity_used, row by row. */
    method CountHolders(offer: OfferId) returns (n: nat)
      ensures n == CapacityUsed(purchases, offer) == |Holding(purchases, offer)|
    {
      var todo := purchases.Keys;
      ghost var seen: set<PurchaseId> := {};
      n := 0;
      while todo != {}
        invariant todo <= purchases.Keys && seen == Holders(purchases, offer) - todo
        invariant n == |seen|
        decreases todo
      {
        var k :| k in todo;
        OneHolderSeen(purchases, offer, todo, k);
        if purchases[k].offer == offer && !purchases[k].sandbox && !IsFailed(purchases[k].status) {
          seen := seen + {k};
          n := n + 1;
        }
        todo := todo - {k};
      }
      assert seen == Holders(purchases, offer);
      HoldersAreHolding(purchases, offer);
    }

    /** LicenseOffer#sold_out?: units_remaining is zero. */
    method OfferSoldOut(offer: OfferId) returns (soldOut: bool)
      requires offer in catalog.offers
      ensures soldOut <==> catalog.offers[offer].maxUnits.Some? && CapacityUsed(purchases, offer) >= catalog.offers[offer].maxUnits.value
      ensures soldOut <==> catalog.offers[offer].maxUnits.Some? && |Holding(purchases, offer)| >= catalog.offers[offer].maxUnits.value
    {
      if catalog.offers[offer].maxUnits.None? {
        return false;
      }
      var used := CountHolders(offer);
      var units := catalog.offers[offer].maxUnits.value;
      var remaining := if units > used then units - used else 0;
      soldOut := remaining == 0;
    }

    /** DownloadsController#create_purchase. */
    method CreatePurchase(payment: Payment, unit: Unit, asset: Asset, payTo: Account, sandbox: bool)
      returns (verdict: Option<Refusal>)
      modifies this`purchases
      ensures verdict == ReserveVerdict(old(Rows()), payment, [unit], sandbox)
      ensures Rows() == Reserve(old(Rows()), payment, [unit], false, asset, payTo, sandbox)
      ensures VerdictFor(old(Rows()), payment, [unit], sandbox, verdict)
      ensures if verdict.None? then Reserves(old(Rows()), Rows(), payment, [unit], false, asset, payTo, sandbox) else Rows() == old(Rows())
    {
      VerdictIsRight(Rows(), payment, [unit], sandbox);
      ReserveReserves(Rows(), payment, [unit], false, asset, payTo, sandbox);
      OneUnitVerdict(Rows(), payment, unit, sandbox);
      if !(unit.offer in catalog.offers && catalog.offers[unit.offer].active) {
        return Some(OfferChanged);
      }
      var model := catalog.offers[unit.offer].model;
      if !(model in catalog.listings && catalog.listings[model].status == Published) {
        return Some(ListingUnavailable);
      }
      if !sandbox {
        var soldOut := OfferSoldOut(unit.offer);
        if soldOut {
          return Some(OutOfStock);
        }
      }
      if payment in batches || UnitsOf(purchases, payment) != {} {
        return Some(Duplicate);
      }
      InsertUnits(payment, [unit], asset, payTo, sandbox);
      verdict := None;
    }

    /** BatchesController#sold_out?: repeats of an offer add up. */
    method BatchSoldOut(units: seq<Unit>) returns (soldOut: bool)
      ensures soldOut <==> SoldOut(catalog, purchases, units)
      ensures soldOut <==> exists u :: u in units && Oversells(Rows(), units, u.offer)
    {
      SoldOutIsOversold(Rows(), units);
      var i := 0;
      while i < |units|
        invariant i <= |units|
        invariant forall j :: 0 <= j < i ==> !OverAsks(units, units[j])
      {
        var u := units[i];
        if u.offer in catalog.offers && catalog.offers[u.offer].maxUnits.Some? {
          var used := CountHolders(u.offer);
          if used + Tally(units, u.offer) > catalog.offers[u.offer].maxUnits.value {
            assert u in units;
            return true;
          }
        }
        i := i + 1;
      }
      forall u | u in units
        ensures !OverAsks(units, u)
      {
        var j :| 0 <= j < |units| && units[j] == u;
      }
      soldOut := false;
    }

    ghost predicate OverAsks(units: seq<Unit>, u: Unit)
      reads this
    {
      u.offer in catalog.offers && catalog.offers[u.offer].maxUnits.Some?
      && CapacityUsed(purchases, u.offer) + Tally(units, u.offer) > catalog.offers[u.offer].maxUnits.value
    }

    /** batch.purchases.create!, one position after the other. */
    method InsertUnits(payment: Payment, units: seq<Unit>, asset: Asset, payTo: Account, sandbox: bool)
      requires UnitsOf(purchases, payment) == {}
      modifies this`purchases
      ensures purchases == Inserted(old(purchases), payment, units, asset, payTo, sandbox)
      ensures forall k :: k in old(purchases) ==> k in purchases && purchases[k] == old(purchases)[k]
      ensures forall k :: k in purchases && k !in old(purchases) ==> k.payment == payment && k.position < |units|
      ensures forall i: nat :: i < |units| ==>
        && PurchaseId(payment, i) in purchases
        && purchases[PurchaseId(payment, i)]
             == Purchase(units[i].offer, asset, units[i].amount, payTo, sandbox, Pending, NoReason, None)
    {
      ghost var before := Rows();
      forall k | k in purchases
        ensures k.payment != payment
      {
        assert k !in UnitsOf(purchases, payment);
      }
      var i := 0;
      while i < |units|
        invariant i <= |units|
        invariant forall k :: k in before.purchases ==> k.payment != payment
        invariant forall k :: k in purchases <==> k in before.purchases || (k.payment == payment && k.position < i)
        invariant forall k :: k in purchases ==>
          purchases[k] == if k.payment == payment then NewPurchase(units[k.position], asset, payTo, sandbox) else before.purchases[k]
      {
        purchases := purchases[PurchaseId(payment, i) := NewPurchase(units[i], asset, payTo, sandbox)];
        i := i + 1;
      }
      forall k
        ensures k in purchases <==> k in Inserted(before.purchases, payment, units, asset, payTo, sandbox)
        ensures k in purchases ==> purchases[k] == Inserted(before.purchases, payment, units, asset, payTo, sandbox)[k]
      {
        InsertedAt(before, payment, units, asset, payTo, sandbox, k);
      }
    }

    /** BatchesController#reserve: checks first, then one row per position. */
    method ReserveBatch(payment: Payment, units: seq<Unit>, asset: Asset, payTo: Account, sandbox: bool)
      returns (verdict: Option<Refusal>)
      requires |units| > 0
      modifies this`purchases, this`batches
      ensures verdict == ReserveVerdict(old(Rows()), payment, units, sandbox)
      ensures Rows() == Reserve(old(Rows()), payment, units, true, asset, payTo, sandbox)
      ensures VerdictFor(old(Rows()), payment, units, sandbox, verdict)
      ensures if verdict.None? then Reserves(old(Rows()), Rows(), payment, units, true, asset, payTo, sandbox) else Rows() == old(Rows())
    {
      VerdictIsRight(Rows(), payment, units, sandbox);
      ReserveReserves(Rows(), payment, units, true, asset, payTo, sandbox);
      if exists u :: u in units && !IsActive(catalog, u.offer) {
        return Some(OfferChanged);
      }
      if exists u :: u in units && !OnSale(catalog, u.offer) {
        return Some(ListingUnavailable);
      }
      if !sandbox {
        var soldOut := BatchSoldOut(units);
        if soldOut {
          return Some(OutOfStock);
        }
      }
      if payment in batches || UnitsOf(purchases, payment) != {} {
        return Some(Duplicate);
      }
      batches := batches[payment := Batch(|units|, sandbox, Pending, NoReason, None)];
      InsertUnits(payment, units, asset, payTo, sandbox);
      verdict := None;
    }

    // ------------------------------------------------------ one row's transitions

    /** Whether record_settle! would write: a real purchase with no rows yet. */
    predicate Unrecorded(key: PurchaseId)
      requires key in purchases
      reads this
    {
      !purchases[key].sandbox && key !in fees && key !in shares
    }

    /** LedgerEntry.record_settle!: both rows, or none. */
    method RecordSettle(key: PurchaseId)
      requires key in purchases && DesignerKnown(catalog, purchases[key])
      modifies this`fees, this`shares
      ensures fees == if old(Unrecorded(key)) then old(fees)[key := FeeRow(catalog, purchases[key])] else old(fees)
      ensures shares == if old(Unrecorded(key)) then old(shares)[key := ShareRow(catalog, purchases[key])] else old(shares)
      ensures !purchases[key].sandbox && key !in old(fees) && key !in old(shares) ==>
        key in fees && key in shares && BookedAs(catalog, purchases[key], fees[key], shares[key])
    {
      RowsAreBooked(catalog, purchases[key]);
      var p := purchases[key];
      if p.sandbox || key in fees || key in shares {
        return;
      }
      var fee := p.amount * PLATFORM_FEE_BPS / 10_000;
      var designer := catalog.listings[catalog.offers[p.offer].model].designer;
      var treasury := !(Some(p.payTo) == catalog.accounts[designer] && p.payTo != catalog.treasury);
      fees := fees[key := Fee(p.asset, fee, treasury)];
      shares := shares[key := Share(designer, p.asset, p.amount - fee, treasury)];
    }

    /** Purchase#transition_to!: refuses what the table does not list, and writes
        the ledger rows with the settling update. */
    method TransitionTo(key: PurchaseId, to: Status) returns (ok: bool)
      requires key in purchases && DesignerKnown(catalog, purchases[key])
      modifies this`purchases, this`fees, this`shares
      ensures ok <==> Allowed(old(purchases[key].status), to)
      ensures ok <==> match old(purchases[key].status)
                      case Pending => to == Verified || to == FailedVerification
                      case Verified => to == Settled || to == FailedSettlement
                      case Settled => to == Delivered
                      case _ => false
      ensures purchases == if ok then old(purchases)[key := old(purchases[key]).(status := to)] else old(purchases)
      ensures fees == if ok && to == Settled && old(Unrecorded(key)) then old(fees)[key := FeeRow(catalog, purchases[key])] else old(fees)
      ensures shares == if ok && to == Settled && old(Unrecorded(key)) then old(shares)[key := ShareRow(catalog, purchases[key])] else old(shares)
    {
      ok := Allowed(purchases[key].status, to);
      if ok {
        purchases := purchases[key := purchases[key].(status := to)];
        if to == Settled && !purchases[key].sandbox {
          RecordSettle(key);
        }
      }
    }

    /** License.allocate!: the highest serial on the offer and rail, plus one. */
    method AllocateLicense(key: PurchaseId) returns (soldOut: bool)
      requires key in purchases && key !in licenses && purchases[key].status == Settled
      modifies this`licenses
      ensures Rows() == Allocate(old(Rows()), key)
      ensures soldOut <==> BackstopHit(old(Rows()), key, NextSerial(old(Rows()), key))
      ensures soldOut ==> !purchases[key].sandbox && licenses == old(licenses)
      ensures !soldOut ==>
        && key in licenses && licenses == old(licenses)[key := licenses[key]] && licenses[key] > 0
        && (forall k :: k in old(licenses) && SameShelf(purchases, k, key) ==> licenses[k] < licenses[key])
        && (licenses[key] == 1 || exists k :: k in old(licenses) && SameShelf(purchases, k, key) && licenses[k] == licenses[key] - 1)
    {
      var offer, sandbox := purchases[key].offer, purchases[key].sandbox;
      var todo := Licensed(purchases, licenses, offer, sandbox);
      ghost var seen: set<PurchaseId> := {};
      var top := 0;
      while todo != {}
        invariant seen + todo == Licensed(purchases, licenses, offer, sandbox)
        invariant forall k :: k in seen ==> licenses[k] <= top
        invariant top == 0 || exists k :: k in seen && licenses[k] == top
        decreases todo
      {
        var k :| k in todo;
        if licenses[k] > top {
          top := licenses[k];
        }
        todo, seen := todo - {k}, seen + {k};
      }
      assert seen == Licensed(purchases, licenses, offer, sandbox);
      TopIsMax(purchases, licenses, offer, sandbox, top);
      var serial := top + 1;
      soldOut := !sandbox && offer in catalog.offers && catalog.offers[offer].maxUnits.Some?
                 && serial > catalog.offers[offer].maxUnits.value;
      if !soldOut {
        licenses := licenses[key := serial];
      }
    }

    // -------------------------------------------------- whole payments, row by row

    /** The payment's rows are positions 0..size-1, all in one status, all of
        designers on record. */
    ghost predicate Whole(payment: Payment, status: Status)
      reads this
    {
      && UnitsOf(purchases, payment) == NewKeys(payment, SizeOf(payment)) && SizeOf(payment) > 0
      && forall k :: k in NewKeys(payment, SizeOf(payment)) ==> Recordable(catalog, purchases, k) && purchases[k].status == status
    }

    function SizeOf(payment: Payment): nat
      reads this`batches
    {
      if payment in batches then batches[payment].size else 1
    }

    method MoveUnit(key: PurchaseId, to: Status, reason: Option<Reason>)
      requires key in purchases && DesignerKnown(catalog, purchases[key]) && Allowed(purchases[key].status, to) && to != Settled
      modifies this`purchases, this`fees, this`shares
      ensures purchases == old(purchases)[key :=
                old(purchases[key]).(status := to, reason := NewReason(old(purchases[key]).reason, reason))]
      ensures fees == old(fees) && shares == old(shares)
    {
      purchases := purchases[key := purchases[key].(reason := NewReason(purchases[key].reason, reason))];
      var ok := TransitionTo(key, to);
    }

    method MovePosition(ghost before: map<PurchaseId, Purchase>, payment: Payment, i: nat, ghost from: Status, to: Status, reason: Option<Reason>)
      requires purchases == SetStatus(before, NewKeys(payment, i), to, reason) && to != Settled
      requires StandsAt(catalog, before, PurchaseId(payment, i), from) && Allowed(from, to)
      modifies this`purchases, this`fees, this`shares
      ensures purchases == SetStatus(before, NewKeys(payment, i + 1), to, reason)
      ensures fees == old(fees) && shares == old(shares)
    {
      UntouchedUnit(before, payment, i, to, reason);
      StatusStep(before, payment, i, to, reason);
      MoveUnit(PurchaseId(payment, i), to, reason);
    }

    /** Moves each unit of a payment, in position order. */
    method MoveUnits(payment: Payment, n: nat, ghost from: Status, to: Status, reason: Option<Reason>)
      requires to != Settled && Allowed(from, to)
      requires forall i :: 0 <= i < n ==> StandsAt(catalog, purchases, PurchaseId(payment, i), from)
      modifies this`purchases, this`fees, this`shares
      ensures purchases == SetStatus(old(purchases), NewKeys(payment, n), to, reason)
      ensures fees == old(fees) && shares == old(shares)
    {
      ghost var before := purchases;
      assert purchases == SetStatus(before, NewKeys(payment, 0), to, reason);
      var i := 0;
      while i < n
        invariant i <= n && fees == old(fees) && shares == old(shares)
        invariant purchases == SetStatus(before, NewKeys(payment, i), to, reason)
      {
        MovePosition(before, payment, i, from, to, reason);
        i := i + 1;
      }
    }

    /** verify and fail: every unit, and the batch row when there is one. */
    method AdvancePayment(payment: Payment, from: Status, to: Status, reason: Option<Reason>)
      requires Whole(payment, from) && Allowed(from, to) && to != Settled
      modifies this`purchases, this`batches, this`fees, this`shares
      ensures purchases == SetStatus(old(purchases), UnitsOf(old(purchases), payment), to, reason)
      ensures batches == SetBatch(old(batches), payment, to, reason)
      ensures fees == old(fees) && shares == old(shares)
    {
      assert forall i :: 0 <= i < SizeOf(payment) ==> PurchaseId(payment, i) in NewKeys(payment, SizeOf(payment));
      MoveUnits(payment, SizeOf(payment), from, to, reason);
      if payment in batches {
        batches := batches[payment := batches[payment].(status := to, reason := NewReason(batches[payment].reason, reason))];
      }
    }

    method PayUnit(key: PurchaseId, tx: TxId)
      requires key in purchases && DesignerKnown(catalog, purchases[key]) && purchases[key].status == Verified
      requires key !in fees && key !in shares
      modifies this`purchases, this`fees, this`shares
      ensures purchases == old(purchases)[key := old(purchases[key]).(status := Settled, tx := Some(tx))]
      ensures fees == if purchases[key].sandbox then old(fees) else old(fees)[key := FeeRow(catalog, purchases[key])]
      ensures shares == if purchases[key].sandbox then old(shares) else old(shares)[key := ShareRow(catalog, purchases[key])]
    {
      purchases := purchases[key := purchases[key].(tx := Some(tx))];
      var ok := TransitionTo(key, Settled);
    }

    method PayPosition(ghost s: Store, payment: Payment, ghost n: nat, tx: TxId, i: nat)
      requires i < n && Rows() == PaidStore(s, payment, n, tx, i) && Payable(s, payment, n)
      modifies this`purchases, this`fees, this`shares
      ensures Rows() == PaidStore(s, payment, n, tx, i + 1)
    {
      var key := PurchaseId(payment, i);
      ghost var paid := SetPaid(s.purchases, NewKeys(payment, n), tx);
      assert PayableUnit(s, key);
      assert key in NewKeys(payment, n) && key !in NewKeys(payment, i);
      PaidStep(s.purchases, payment, i, tx);
      assert paid[key] == s.purchases[key].(status := Settled, tx := Some(tx));
      RowsStep(s.catalog, paid, s.fees, s.shares, payment, i);
      assert key !in fees && key !in shares;
      PayUnit(key, tx);
    }

    /** settle_success: the transaction id, the status and the ledger rows of each unit. */
    method SettleUnits(payment: Payment, n: nat, tx: TxId)
      requires Payable(Rows(), payment, n)
      modifies this`purchases, this`fees, this`shares
      ensures Rows() == PaidStore(old(Rows()), payment, n, tx, n)
    {
      ghost var s := Rows();
      NothingPaidYet(s, payment, n, tx);
      var i := 0;
      while i < n
        invariant i <= n && Rows() == PaidStore(s, payment, n, tx, i)
      {
        PayPosition(s, payment, n, tx, i);
        i := i + 1;
      }
    }

    /** settle_success, or nothing when the transaction id is taken on this rail. */
    method SettlePaid(payment: Payment, tx: TxId) returns (ok: bool)
      requires UnitsOf(purchases, payment) == NewKeys(payment, SizeOf(payment)) && SizeOf(payment) > 0
      requires Payable(Rows(), payment, SizeOf(payment))
      modifies this`purchases, this`batches, this`fees, this`shares
      ensures ok <==> !Claimed(old(Rows()), payment, tx)
      ensures Rows() == Settle(old(Rows()), payment, tx)
    {
      PaidInOneStep(Rows(), payment, SizeOf(payment), tx);
      ok := !Claimed(Store(catalog, purchases, batches, licenses, fees, shares), payment, tx);
      if ok {
        SettleRows(payment, SizeOf(payment), tx);
      }
    }

    method SettleRows(payment: Payment, n: nat, tx: TxId)
      requires Payable(Rows(), payment, n)
      modifies this`purchases, this`batches, this`fees, this`shares
      ensures Rows() == PaidStore(old(Rows()), payment, n, tx, n).(batches := SetBatchPaid(old(batches), payment, tx))
    {
      SettleUnits(payment, n, tx);
      if payment in batches {
        batches := batches[payment := batches[payment].(status := Settled, tx := Some(tx))];
      }
    }

    // ------------------------------------------------------------------ delivery

    method MintUnit(key: PurchaseId)
      requires key in purchases && purchases[key].status == Settled
      modifies this`licenses
      ensures Rows() == Allocate(old(Rows()), key)
    {
      if key !in licenses {
        var soldOut := AllocateLicense(key);
      }
    }

    /** One unit of a batch delivery: its licence if it has none, then its status. */
    method DeliverUnit(ghost s: Store, payment: Payment, i: nat)
      requires DeliverStepOk(s, payment, i) && Rows() == DeliveredStore(s, payment, i)
      modifies this`purchases, this`licenses, this`fees, this`shares
      ensures Rows() == DeliveredStore(s, payment, i + 1)
    {
      var key := PurchaseId(payment, i);
      MintUnit(key);
      var ok := TransitionTo(key, Delivered);
    }

    method DeliverUnits(ghost s: Store, payment: Payment, n: nat)
      requires Rows() == DeliveredStore(s, payment, 0)
      requires forall i :: 0 <= i < n ==> DeliverStepOk(s, payment, i)
      modifies this`purchases, this`licenses, this`fees, this`shares
      ensures Rows() == DeliveredStore(s, payment, n)
    {
      var i := 0;
      while i < n
        invariant i <= n && Rows() == DeliveredStore(s, payment, i)
      {
        DeliverUnit(s, payment, i);
        i := i + 1;
      }
    }

    /** BatchesController#deliver, inside its transaction. */
    method MintAndDeliver(payment: Payment)
      requires BatchPlan(Rows(), payment)
      modifies this`purchases, this`batches, this`licenses, this`fees, this`shares
      ensures Rows() == StoreStep(old(Rows()), DeliverBatch(payment))
    {
      DeliverUnits(Rows(), payment, batches[payment].size);
      batches := batches[payment := batches[payment].(status := Delivered)];
    }

    /** Writes error_reason on the batch row or on the single purchase. */
    method NoteReason(payment: Payment, reason: Reason)
      requires payment in batches || UnitsOf(purchases, payment) == {PurchaseId(payment, 0)}
      modifies this`purchases, this`batches
      ensures Rows() == Note(old(Rows()), payment, reason)
      ensures payment in batches ==>
        purchases == old(purchases) && batches == old(batches)[payment := old(batches)[payment].(reason := reason)]
      ensures payment !in batches ==>
        && PurchaseId(payment, 0) in old(purchases) && batches == old(batches)
        && purchases == old(purchases)[PurchaseId(payment, 0) := old(purchases)[PurchaseId(payment, 0)].(reason := reason)]
    {
      NoteInPlace(Rows(), payment, reason);
      if payment in batches {
        batches := batches[payment := batches[payment].(reason := reason)];
      } else {
        var key := PurchaseId(payment, 0);
        assert key in UnitsOf(purchases, payment);
        purchases := purchases[key := purchases[key].(reason := reason)];
      }
    }

    // ------------------------------------------------------------------- requests

    ghost function Outside(): World
      reads this
    {
      World(Rows(), executed)
    }

    /** BatchesController#deliver: the files first, then everything at once. */
    method DeliverWholeBatch(payment: Payment, a: Answers)
      requires BatchPlan(Rows(), payment)
      modifies this`purchases, this`batches, this`licenses, this`fees, this`shares
      ensures Rows() == DeliverPayment(old(Outside()), payment, a).store
    {
      if a.deliverable {
        MintAndDeliver(payment);
      } else {
        NoteReason(payment, NoDeliverableFile);
      }
    }

    /** DownloadsController#deliver: the licence first, then the files. */
    method DeliverSingle(payment: Payment, a: Answers)
      requires SinglePlan(Rows(), payment)
      modifies this`purchases, this`batches, this`licenses, this`fees, this`shares
      ensures Rows() == DeliverPayment(old(Outside()), payment, a).store
    {
      var key := PurchaseId(payment, 0);
      if key !in licenses {
        var soldOut := AllocateLicense(key);
      }
      if a.deliverable {
        var ok := TransitionTo(key, Delivered);
      } else {
        NoteReason(payment, NoDeliverableFile);
      }
    }

    method DeliverCall(payment: Payment, a: Answers)
      requires CanDeliver(Rows(), payment)
      modifies this`purchases, this`batches, this`licenses, this`fees, this`shares
      ensures Outside() == DeliverPayment(old(Outside()), payment, a)
    {
      if payment in batches {
        BatchDeliveryPlan(Rows(), payment);
        DeliverWholeBatch(payment, a);
      } else {
        SingleDeliveryPlan(Rows(), payment);
        DeliverSingle(payment, a);
      }
    }

    /** A settling answer: the rows, and what the network has executed. */
    method Pay(ghost e: Event, payment: Payment, tx: TxId) returns (ok: bool)
      requires UnitsOf(purchases, payment) == NewKeys(payment, SizeOf(payment)) && SizeOf(payment) > 0
      requires Payable(Rows(), payment, SizeOf(payment)) && Enabled(Outside(), e)
      requires e == MirrorMatched(payment, tx) || (e == SettleConfirmed(payment) && tx == payment)
      modifies this
      ensures ok <==> !Claimed(old(Rows()), payment, tx)
      ensures Outside() == Step(old(Outside()), e) && Rows() == Settle(old(Rows()), payment, tx)
    {
      ghost var after := Step(Outside(), e).executed;
      ok := SettlePaid(payment, tx);
      executed := after;
    }

    /** A settling answer and, once settled, the delivery. */
    method SettleAndDeliver(ghost e: Event, payment: Payment, tx: TxId, a: Answers)
      requires Sound(Rows()) && IsKnown(Rows(), payment) && AllIn(Rows(), payment, Verified) && Enabled(Outside(), e)
      requires e == MirrorMatched(payment, tx) || (e == SettleConfirmed(payment) && tx == payment)
      modifies this
      ensures Outside() == DeliverAfter(old(Outside()), e, payment, a)
    {
      ghost var w := Outside();
      PaymentIsWhole(Rows(), payment, Verified);
      PaidCanDeliver(w, e, payment, tx);
      var ok := Pay(e, payment, tx);
      if ok {
        DeliverCall(payment, a);
      }
    }

    /** Verification refused, or the settlement: every row fails. */
    method Refuse(ghost e: Event, payment: Payment, from: Status, to: Status)
      requires Whole(payment, from) && AllIn(Rows(), payment, from)
      requires (from == Pending && to == FailedVerification && e == VerifyRefused(payment))
               || (from == Verified && to == FailedSettlement && e == SettleRefused(payment))
      requires Enabled(Outside(), e)
      modifies this`purchases, this`batches, this`fees, this`shares
      ensures Outside() == Step(old(Outside()), e)
      ensures Fails(old(Rows()), Rows(), payment, to)
    {
      AdvanceStands(Rows(), payment, from, to, Some(Rejection));
      AdvancePayment(payment, from, to, Some(Rejection));
    }

    /** The facilitator's reply was lost: the payment waits where it is. */
    method AwaitFacilitator(ghost e: Event, payment: Payment)
      requires payment in batches || UnitsOf(purchases, payment) == {PurchaseId(payment, 0)}
      requires e == VerifyLost(payment) || (e.SettleLost? && e.payment == payment)
      requires Enabled(Outside(), e)
      modifies this
      ensures Outside() == Step(old(Outside()), e)
      ensures fees == old(fees) && shares == old(shares) && licenses == old(licenses) && catalog == old(catalog)
      ensures payment in old(batches) ==>
        purchases == old(purchases) && batches == old(batches)[payment := old(batches)[payment].(reason := Facilitator)]
      ensures payment !in old(batches) ==>
        && PurchaseId(payment, 0) in old(purchases) && batches == old(batches)
        && purchases == old(purchases)[PurchaseId(payment, 0) := old(purchases)[PurchaseId(payment, 0)].(reason := Facilitator)]
    {
      ghost var after := Step(Outside(), e).executed;
      NoteReason(payment, Facilitator);
      executed := after;
    }

    /** Delivered before, but its files are missing now. */
    method AskForFiles(payment: Payment)
      requires payment in batches || UnitsOf(purchases, payment) == {PurchaseId(payment, 0)}
      modifies this`purchases, this`batches
      ensures Outside() == Step(old(Outside()), Undeliverable(payment))
    {
      NoteReason(payment, NoDeliverableFile);
    }

    method MarkVerified(payment: Payment)
      requires Whole(payment, Pending) && AllIn(Rows(), payment, Pending)
      modifies this`purchases, this`batches, this`fees, this`shares
      ensures Outside() == Step(old(Outside()), VerifyAccepted(payment))
    {
      AdvancePayment(payment, Pending, Verified, None);
    }

    /** settle: asks the facilitator, and never fails a payment on a lost reply. */
    method SettleCall(payment: Payment, a: Answers)
      requires Sound(Rows()) && IsKnown(Rows(), payment) && AllIn(Rows(), payment, Verified) && Honest(Outside(), payment, a)
      modifies this
      ensures Outside() == SettlePayment(old(Outside()), payment, a)
      ensures SettleOutcome(old(Outside()), Outside(), payment, a)
    {
      SettlePaymentOutcome(Outside(), payment, a);
      PaymentIsWhole(Rows(), payment, Verified);
      match a.settle
      case Success =>
        SettleAndDeliver(SettleConfirmed(payment), payment, payment, a);
      case Refused =>
        Refuse(SettleRefused(payment), payment, Verified, FailedSettlement);
      case SettleDown(applied) =>
        if payment !in batches {
          SingleIsOneRow(payment, SizeOf(payment));
        }
        AwaitFacilitator(SettleLost(payment, applied), payment);
    }

    /** reconcile: the mirror first, the facilitator when it knows nothing. */
    method ReconcileCall(payment: Payment, a: Answers)
      requires Sound(Rows()) && IsKnown(Rows(), payment) && AllIn(Rows(), payment, Verified) && Honest(Outside(), payment, a)
      modifies this
      ensures Outside() == ReconcilePayment(old(Outside()), payment, a)
      ensures ReconcileOutcome(old(Outside()), Outside(), payment, a)
    {
      ReconcilePaymentOutcome(Outside(), payment, a);
      var sandbox := if payment in batches then batches[payment].sandbox else purchases[PurchaseId(payment, 0)].sandbox;
      if sandbox || a.mirror.None? {
        SettleCall(payment, a);
      } else {
        SettleAndDeliver(MirrorMatched(payment, a.mirror.value), payment, a.mirror.value, a);
      }
    }

    /** verify_and_settle. */
    method VerifyCall(payment: Payment, a: Answers)
      requires Sound(Rows()) && IsKnown(Rows(), payment) && AllIn(Rows(), payment, Pending) && Honest(Outside(), payment, a)
      modifies this
      ensures Outside() == VerifyPayment(old(Outside()), payment, a)
      ensures VerifyOutcome(old(Outside()), Outside(), payment, a)
    {
      VerifyPaymentOutcome(Outside(), payment, a);
      PaymentIsWhole(Rows(), payment, Pending);
      match a.verify
      case Invalid =>
        Refuse(VerifyRefused(payment), payment, Pending, FailedVerification);
      case VerifyDown =>
        if payment !in batches {
          SingleIsOneRow(payment, SizeOf(payment));
        }
        AwaitFacilitator(VerifyLost(payment), payment);
      case Valid =>
        VerifiedCanSettle(Outside(), payment, a);
        MarkVerified(payment);
        SettleCall(payment, a);
    }

    /** replay: picks up wherever the payment stopped. */
    method ReplayCall(payment: Payment, a: Answers)
      requires Sound(Rows()) && IsKnown(Rows(), payment) && Honest(Outside(), payment, a)
      modifies this
      ensures Outside() == ReplayPayment(old(Outside()), payment, a)
      ensures ReplayOutcome(old(Outside()), Outside(), payment, a)
    {
      ReplayPaymentOutcome(Outside(), payment, a);
      StatusIsEveryUnits(Rows(), payment);
      var status := if payment in batches then batches[payment].status else purchases[PurchaseId(payment, 0)].status;
      var reason := if payment in batches then batches[payment].reason else purchases[PurchaseId(payment, 0)].reason;
      match status
      case Settled => DeliverCall(payment, a);
      case Verified => ReconcileCall(payment, a);
      case Pending =>
        if reason == Facilitator {
          VerifyCall(payment, a);
        }
      case Delivered =>
        if !a.deliverable {
          PaymentIsWhole(Rows(), payment, Delivered);
          if payment !in batches {
            SingleIsOneRow(payment, SizeOf(payment));
          }
          AskForFiles(payment);
        }
      case _ =>
    }
  }

  lemma StillKnown(w: World, e: Event, payment: Payment)
    requires Enabled(w, e) && IsKnown(w.store, payment)
    ensures IsKnown(Step(w, e).store, payment)
  {
    StepIsLater(w, e);
  }

  lemma SingleIsOneRow(payment: Payment, n: nat)
    requires n == 1
    ensures NewKeys(payment, n) == {PurchaseId(payment, 0)}
  {
  }

  /** A settled payment can go on to delivery; a refused claim leaves it verified. */
  lemma PaidCanDeliver(w: World, e: Event, payment: Payment, tx: TxId)
    requires Sound(w.store) && IsKnown(w.store, payment) && AllIn(w.store, payment, Verified) && Enabled(w, e)
    requires e == MirrorMatched(payment, tx) || (e == SettleConfirmed(payment) && tx == payment)
    ensures AllIn(Step(w, e).store, payment, Settled) <==> !Claimed(w.store, payment, tx)
    ensures !Claimed(w.store, payment, tx) ==> CanDeliver(Step(w, e).store, payment)
  {
    if Claimed(w.store, payment, tx) {
      RefusedClaimStays(w.store, payment, tx);
    } else {
      StoreStepKeepsSound(w, e);
      SettleReaches(w.store, payment, tx);
      StillKnown(w, e, payment);
    }
  }

  lemma VerifyReaches(w: World, payment: Payment)
    requires Sound(w.store) && IsKnown(w.store, payment) && AllIn(w.store, payment, Pending)
    ensures var s := Step(w, VerifyAccepted(payment)).store; Sound(s) && IsKnown(s, payment) && AllIn(s, payment, Verified)
  {
    StoreStepKeepsSound(w, VerifyAccepted(payment));
    AdvanceReaches(w.store, payment, Pending, Verified, None);
    StillKnown(w, VerifyAccepted(payment), payment);
  }

  lemma VerifiedCanSettle(w: World, payment: Payment, a: Answers)
    requires Sound(w.store) && IsKnown(w.store, payment) && AllIn(w.store, payment, Pending) && Honest(w, payment, a)
    ensures var t := Step(w, VerifyAccepted(payment));
      Sound(t.store) && IsKnown(t.store, payment) && AllIn(t.store, payment, Verified) && Honest(t, payment, a)
  {
    VerifyReaches(w, payment);
    assert IsReal(w.store, payment) ==> IsReal(Step(w, VerifyAccepted(payment)).store, payment);
  }

  lemma RefusedClaimStays(s: Store, payment: Payment, tx: TxId)
    requires AllIn(s, payment, Verified) && Claimed(s, payment, tx)
    ensures !AllIn(Settle(s, payment, tx), payment, Settled)
  {
    var k :| k in UnitsOf(s.purchases, payment);
  }
}
