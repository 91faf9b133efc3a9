/** The shop's rows — listings, offers, purchases, batches, licences and the
    revenue ledger — and the atomic steps that change them. A step is what one
    database transaction does while it holds its offer locks; steps of different
    payments interleave freely. A single purchase is a payment with one unit at
    position 0; a batch is a payment with one unit per position. */
module Market {
  import opened Wrappers
  import opened Sums
  import opened Ledger

  type OfferId = nat
  type ModelId = nat
  type Payment = nat

  datatype ListingStatus = Draft | Published | Paused | Retired

  datatype Listing = Listing(designer: DesignerId, status: ListingStatus)

  datatype Offer = Offer(model: ModelId, active: bool, maxUnits: Option<nat>)

  datatype Status = Pending | Verified | Settled | Delivered | FailedVerification | FailedSettlement

  datatype Reason = NoReason | Facilitator | Rejection | NoDeliverableFile

  datatype Purchase = Purchase(offer: OfferId, asset: Asset, amount: nat, payTo: Account, sandbox: bool,
                               status: Status, reason: Reason, tx: Option<TxId>)

  datatype Batch = Batch(size: nat, sandbox: bool, status: Status, reason: Reason, tx: Option<TxId>)

  /** One requested licence: the offer it is bought under and its share of the price. */
  datatype Unit = Unit(offer: OfferId, amount: nat)

  /** What designers and operators maintain. */
  datatype Catalog = Catalog(
    treasury: Account,
    accounts: map<DesignerId, Option<Account>>,
    listings: map<ModelId, Listing>,
    offers: map<OfferId, Offer>)

  datatype Store = Store(
    catalog: Catalog,
    purchases: map<PurchaseId, Purchase>,
    batches: map<Payment, Batch>,
    licenses: map<PurchaseId, nat>,
    fees: map<PurchaseId, Fee>,
    shares: map<PurchaseId, Share>)

  // ---------------------------------------------------------------- queries

  predicate IsFailed(s: Status) {
    s == FailedVerification || s == FailedSettlement
  }

  predicate MoneyMoved(s: Status) {
    s == Settled || s == Delivered
  }

  /** Purchase::TRANSITIONS. */
  predicate Allowed(from: Status, to: Status) {
    match from
    case Pending => to == Verified || to == FailedVerification
    case Verified => to == Settled || to == FailedSettlement
    case Settled => to == Delivered
    case _ => false
  }

  /** The rows one signed payment has created. */
  function UnitsOf(purchases: map<PurchaseId, Purchase>, payment: Payment): set<PurchaseId> {
    set k | k in purchases && k.payment == payment
  }

  /** The real purchases of an offer that may still become licences. */
  function Holders(purchases: map<PurchaseId, Purchase>, offer: OfferId): set<PurchaseId> {
    set k | k in purchases && purchases[k].offer == offer && !purchases[k].sandbox && !IsFailed(purchases[k].status)
  }

  function CapacityUsed(purchases: map<PurchaseId, Purchase>, offer: OfferId): nat {
    |Holders(purchases, offer)|
  }

  /** The licences of one offer on one rail, real or sandbox. */
  function Licensed(purchases: map<PurchaseId, Purchase>, licenses: map<PurchaseId, nat>, offer: OfferId, sandbox: bool)
    : set<PurchaseId>
  {
    set k | k in licenses && k in purchases && purchases[k].offer == offer && purchases[k].sandbox == sandbox
  }

  ghost function Serials(purchases: map<PurchaseId, Purchase>, licenses: map<PurchaseId, nat>, offer: OfferId, sandbox: bool)
    : set<nat>
  {
    set k | k in Licensed(purchases, licenses, offer, sandbox) :: licenses[k]
  }

  /** SQL's maximum, with nil.to_i for no rows. */
  ghost function MaxOf(xs: set<nat>): (m: nat)
    ensures forall x :: x in xs ==> x <= m
    ensures xs == {} ==> m == 0
    ensures xs != {} ==> m in xs
  {
    if xs == {} then 0 else
      var x :| x in xs;
      var rest := MaxOf(xs - {x});
      assert forall y :: y in xs ==> y == x || y in xs - {x};
      if x > rest then x else rest
  }

  ghost function NextSerial(s: Store, key: PurchaseId): nat
    requires key in s.purchases
  {
    MaxOf(Serials(s.purchases, s.licenses, s.purchases[key].offer, s.purchases[key].sandbox)) + 1
  }

  function Tally(units: seq<Unit>, offer: OfferId): nat {
    if units == [] then 0
    else Tally(units[..|units| - 1], offer) + (if units[|units| - 1].offer == offer then 1 else 0)
  }

  /** The batch form of the check: `requested` counts repeats of an offer. */
  predicate SoldOut(c: Catalog, purchases: map<PurchaseId, Purchase>, units: seq<Unit>) {
    exists u :: u in units && u.offer in c.offers && c.offers[u.offer].maxUnits.Some?
                && CapacityUsed(purchases, u.offer) + Tally(units, u.offer) > c.offers[u.offer].maxUnits.value
  }

  predicate IsActive(c: Catalog, offer: OfferId) {
    offer in c.offers && c.offers[offer].active
  }

  predicate OnSale(c: Catalog, offer: OfferId) {
    IsActive(c, offer) && c.offers[offer].model in c.listings && c.listings[c.offers[offer].model].status == Published
  }

  // --------------------------------------------------------------- transitions

  function NewReason(before: Reason, reason: Option<Reason>): Reason {
    if reason.Some? then reason.value else before
  }

  function SetStatus(purchases: map<PurchaseId, Purchase>, keys: set<PurchaseId>, status: Status, reason: Option<Reason>)
    : map<PurchaseId, Purchase>
  {
    map k | k in purchases ::
      if k in keys then purchases[k].(status := status, reason := NewReason(purchases[k].reason, reason)) else purchases[k]
  }

  function SetBatch(batches: map<Payment, Batch>, payment: Payment, status: Status, reason: Option<Reason>): map<Payment, Batch> {
    map p | p in batches ::
      if p == payment then batches[p].(status := status, reason := NewReason(batches[p].reason, reason)) else batches[p]
  }

  function SetPaid(purchases: map<PurchaseId, Purchase>, keys: set<PurchaseId>, tx: TxId): map<PurchaseId, Purchase> {
    map k | k in purchases ::
      if k in keys then purchases[k].(status := Settled, tx := Some(tx)) else purchases[k]
  }

  function SetBatchPaid(batches: map<Payment, Batch>, payment: Payment, tx: TxId): map<Payment, Batch> {
    map p | p in batches ::
      if p == payment then batches[p].(status := Settled, tx := Some(tx)) else batches[p]
  }

  /** Every row of the payment is in the given status. */
  predicate AllIn(s: Store, payment: Payment, status: Status) {
    UnitsOf(s.purchases, payment) != {}
    && forall k :: k in UnitsOf(s.purchases, payment) ==> s.purchases[k].status == status
  }

  predicate DesignerKnown(c: Catalog, p: Purchase) {
    p.offer in c.offers && c.offers[p.offer].model in c.listings
    && c.listings[c.offers[p.offer].model].designer in c.accounts
  }

  function DesignerOf(c: Catalog, p: Purchase): DesignerId
    requires DesignerKnown(c, p)
  {
    c.listings[c.offers[p.offer].model].designer
  }

  function HeldByTreasury(c: Catalog, p: Purchase): bool
    requires DesignerKnown(c, p)
  {
    !LandedWithDesigner(p.payTo, c.accounts[DesignerOf(c, p)], c.treasury)
  }

  function FeeRow(c: Catalog, p: Purchase): Fee
    requires DesignerKnown(c, p)
  {
    Fee(p.asset, FeeOn(p.amount), HeldByTreasury(c, p))
  }

  function ShareRow(c: Catalog, p: Purchase): Share
    requires DesignerKnown(c, p)
  {
    assert FeeOn(p.amount) <= p.amount;
    Share(DesignerOf(c, p), p.asset, p.amount - FeeOn(p.amount), HeldByTreasury(c, p))
  }

  predicate Recordable(c: Catalog, purchases: map<PurchaseId, Purchase>, k: PurchaseId) {
    k in purchases && DesignerKnown(c, purchases[k])
  }

  /** The purchases LedgerEntry.record_settle! writes rows for: real, not yet in the ledger. */
  function ToRecord(s: Store, keys: set<PurchaseId>): set<PurchaseId> {
    set k | k in keys && Recordable(s.catalog, s.purchases, k) && !s.purchases[k].sandbox && k !in s.fees && k !in s.shares
  }

  function FeesWith(c: Catalog, purchases: map<PurchaseId, Purchase>, fees: map<PurchaseId, Fee>, keys: set<PurchaseId>)
    : map<PurchaseId, Fee>
  {
    map k | k in fees.Keys + keys && (k in fees || Recordable(c, purchases, k)) ::
      if k in keys && Recordable(c, purchases, k) then FeeRow(c, purchases[k]) else fees[k]
  }

  function SharesWith(c: Catalog, purchases: map<PurchaseId, Purchase>, shares: map<PurchaseId, Share>, keys: set<PurchaseId>)
    : map<PurchaseId, Share>
  {
    map k | k in shares.Keys + keys && (k in shares || Recordable(c, purchases, k)) ::
      if k in keys && Recordable(c, purchases, k) then ShareRow(c, purchases[k]) else shares[k]
  }

  function WithRows(s: Store, keys: set<PurchaseId>): Store {
    var unrecorded := ToRecord(s, keys);
    s.(fees := FeesWith(s.catalog, s.purchases, s.fees, unrecorded),
       shares := SharesWith(s.catalog, s.purchases, s.shares, unrecorded))
  }

  /** The row a reservation inserts at one position. */
  function NewPurchase(unit: Unit, asset: Asset, payTo: Account, sandbox: bool): Purchase {
    Purchase(unit.offer, asset, unit.amount, payTo, sandbox, Pending, NoReason, None)
  }

  function NewKeys(payment: Payment, n: nat): (r: set<PurchaseId>)
    ensures forall k :: k in r <==> k.payment == payment && k.position < n
  {
    if n == 0 then {} else NewKeys(payment, n - 1) + {PurchaseId(payment, n - 1)}
  }

  function Inserted(purchases: map<PurchaseId, Purchase>, payment: Payment, units: seq<Unit>, asset: Asset, payTo: Account,
                    sandbox: bool): map<PurchaseId, Purchase>
  {
    map k | k in purchases.Keys + NewKeys(payment, |units|) ::
      if k in purchases then purchases[k]
      else NewPurchase(units[k.position], asset, payTo, sandbox)
  }

  datatype Refusal = OfferChanged | ListingUnavailable | OutOfStock | Duplicate

  /** What the locked section decides, in the code's order. */
  function ReserveVerdict(s: Store, payment: Payment, units: seq<Unit>, sandbox: bool): Option<Refusal> {
    if exists u :: u in units && !IsActive(s.catalog, u.offer) then Some(OfferChanged)
    else if exists u :: u in units && !OnSale(s.catalog, u.offer) then Some(ListingUnavailable)
    else if !sandbox && SoldOut(s.catalog, s.purchases, units) then Some(OutOfStock)
    else if UnitsOf(s.purchases, payment) != {} || payment in s.batches then Some(Duplicate)
    else None
  }

  function Reserve(s: Store, payment: Payment, units: seq<Unit>, batch: bool, asset: Asset, payTo: Account, sandbox: bool): Store
    requires |units| > 0 && (!batch ==> |units| == 1)
  {
    if ReserveVerdict(s, payment, units, sandbox).Some? then s
    else
      s.(purchases := Inserted(s.purchases, payment, units, asset, payTo, sandbox),
         batches := if batch then s.batches[payment := Batch(|units|, sandbox, Pending, NoReason, None)] else s.batches)
  }

  /** Moves every row of a payment, and its batch row, from one status to the next. */
  function Advance(s: Store, payment: Payment, from: Status, to: Status, reason: Option<Reason>): Store {
    if !AllIn(s, payment, from) then s
    else s.(purchases := SetStatus(s.purchases, UnitsOf(s.purchases, payment), to, reason),
            batches := SetBatch(s.batches, payment, to, reason))
  }

  /** Some other payment on the same rail already claims the transfer: the
      partial unique indexes on payment_tx_id, one per rail. */
  predicate Claimed(s: Store, payment: Payment, tx: TxId) {
    if payment in s.batches then
      exists p :: p in s.batches && p != payment && s.batches[p].tx == Some(tx)
    else
      exists k :: k in s.purchases && k.payment != payment && k.payment !in s.batches && s.purchases[k].tx == Some(tx)
  }

  /** verified -> settled with the transaction id and the ledger rows, or nothing. */
  function Settle(s: Store, payment: Payment, tx: TxId): Store {
    if !AllIn(s, payment, Verified) || Claimed(s, payment, tx) then s
    else
      var keys := UnitsOf(s.purchases, payment);
      WithRows(s.(purchases := SetPaid(s.purchases, keys, tx), batches := SetBatchPaid(s.batches, payment, tx)), keys)
  }

  function NotePurchases(purchases: map<PurchaseId, Purchase>, keys: set<PurchaseId>, reason: Reason): map<PurchaseId, Purchase> {
    map k | k in purchases :: if k in keys then purchases[k].(reason := reason) else purchases[k]
  }

  function NoteBatch(batches: map<Payment, Batch>, payment: Payment, reason: Reason): map<Payment, Batch> {
    map p | p in batches :: if p == payment then batches[p].(reason := reason) else batches[p]
  }

  /** Notes why a payment is waiting, without moving it: on the batch row, or on
      the single purchase. */
  function Note(s: Store, payment: Payment, reason: Reason): Store {
    var keys := if payment in s.batches then {} else UnitsOf(s.purchases, payment);
    s.(purchases := NotePurchases(s.purchases, keys, reason), batches := NoteBatch(s.batches, payment, reason))
  }

  predicate BackstopHit(s: Store, key: PurchaseId, serial: nat)
    requires key in s.purchases
  {
    var p := s.purchases[key];
    !p.sandbox && p.offer in s.catalog.offers && s.catalog.offers[p.offer].maxUnits.Some?
    && serial > s.catalog.offers[p.offer].maxUnits.value
  }

  /** License.allocate! for one settled purchase: the next serial, unless the
      purchase has a licence already or the SoldOut backstop fires. */
  ghost function Allocate(s: Store, key: PurchaseId): Store {
    if key !in s.purchases || key in s.licenses || s.purchases[key].status != Settled
       || BackstopHit(s, key, NextSerial(s, key)) then s
    else s.(licenses := s.licenses[key := NextSerial(s, key)])
  }

  /** Allocation for positions 0..n of a payment, in order. */
  ghost function AllocateUpTo(s: Store, payment: Payment, n: nat): Store {
    if n == 0 then s else Allocate(AllocateUpTo(s, payment, n - 1), PurchaseId(payment, n - 1))
  }

  /** settled -> delivered, once every row has its licence. */
  function Deliver(s: Store, payment: Payment): Store {
    if !AllIn(s, payment, Settled) || !(UnitsOf(s.purchases, payment) <= s.licenses.Keys) then s
    else s.(purchases := SetStatus(s.purchases, UnitsOf(s.purchases, payment), Delivered, None),
            batches := SetBatch(s.batches, payment, Delivered, None))
  }
}
