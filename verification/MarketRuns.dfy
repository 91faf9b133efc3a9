/** The shop and the payment network as one step machine, and what holds after
    any number of steps in any order: buyers, replays, deliveries, listing and
    offer changes. A payment's own transfer carries the payment's number. */
module MarketRuns {
  import opened Wrappers
  import opened Sums
  import opened Ledger
  import opened Market
  import opened MarketSafety

  datatype World = World(store: Store, executed: set<TxId>)

  datatype Event =
    | Reserving(payment: Payment, units: seq<Unit>, batch: bool, asset: Asset, payTo: Account, sandbox: bool)
    | VerifyAccepted(payment: Payment)
    | VerifyRefused(payment: Payment)
    | VerifyLost(payment: Payment)
    | SettleConfirmed(payment: Payment)
    | SettleRefused(payment: Payment)
    | SettleLost(payment: Payment, applied: bool)
    | MirrorMatched(payment: Payment, tx: TxId)
    | AllocateOne(key: PurchaseId)
    | DeliverOne(payment: Payment)
    | DeliverBatch(payment: Payment)
    | Undeliverable(payment: Payment)
    | ListingStatusSet(model: ModelId, status: ListingStatus)
    | ListingAdded(model: ModelId, listing: Listing)
    | OfferAdded(offer: OfferId, added: Offer)
    | OfferActivated(offer: OfferId, active: bool)
    | OfferUnitsSet(offer: OfferId, maxUnits: Option<nat>)
    | AccountSet(designer: DesignerId, account: Option<Account>)

  predicate IsReal(s: Store, payment: Payment) {
    exists k :: k in UnitsOf(s.purchases, payment) && !s.purchases[k].sandbox
  }

  /** What may happen. An explicit refusal means the transfer has not executed;
      a mirror match is an executed transfer; licence terms are edited only while
      no real purchase holds the offer. */
  predicate Enabled(w: World, e: Event) {
    match e
    case Reserving(_, units, batch, _, _, _) => |units| > 0 && (!batch ==> |units| == 1)
    case SettleRefused(payment) => payment !in w.executed
    case SettleLost(payment, applied) => applied ==> IsReal(w.store, payment) && AllIn(w.store, payment, Verified)
    case MirrorMatched(payment, tx) => tx in w.executed
    case SettleConfirmed(payment) => AllIn(w.store, payment, Verified)
    case ListingStatusSet(model, _) => model in w.store.catalog.listings
    case ListingAdded(model, listing) => model !in w.store.catalog.listings && listing.designer in w.store.catalog.accounts
    case OfferAdded(offer, added) => offer !in w.store.catalog.offers && added.model in w.store.catalog.listings
    case OfferActivated(offer, _) => offer in w.store.catalog.offers
    case OfferUnitsSet(offer, _) => offer in w.store.catalog.offers && Holders(w.store.purchases, offer) == {}
    case _ => true
  }

  function ChangeCatalog(c: Catalog, e: Event): Catalog {
    match e
    case ListingStatusSet(model, status) =>
      if model in c.listings then c.(listings := c.listings[model := c.listings[model].(status := status)]) else c
    case ListingAdded(model, listing) => c.(listings := c.listings[model := listing])
    case OfferAdded(offer, added) => c.(offers := c.offers[offer := added])
    case OfferActivated(offer, active) =>
      if offer in c.offers then c.(offers := c.offers[offer := c.offers[offer].(active := active)]) else c
    case OfferUnitsSet(offer, maxUnits) =>
      if offer in c.offers then c.(offers := c.offers[offer := c.offers[offer].(maxUnits := maxUnits)]) else c
    case AccountSet(designer, account) => c.(accounts := c.accounts[designer := account])
    case _ => c
  }

  predicate IsCatalogEvent(e: Event) {
    e.ListingStatusSet? || e.ListingAdded? || e.OfferAdded? || e.OfferActivated? || e.OfferUnitsSet? || e.AccountSet?
  }

  function BatchSize(s: Store, payment: Payment): nat {
    if payment in s.batches then s.batches[payment].size else 0
  }

  ghost function StoreStep(s: Store, e: Event): Store
    requires e.Reserving? ==> |e.units| > 0 && (!e.batch ==> |e.units| == 1)
  {
    match e
    case Reserving(payment, units, batch, asset, payTo, sandbox) => Reserve(s, payment, units, batch, asset, payTo, sandbox)
    case VerifyAccepted(payment) => Advance(s, payment, Pending, Verified, None)
    case VerifyRefused(payment) => Advance(s, payment, Pending, FailedVerification, Some(Rejection))
    case VerifyLost(payment) => Note(s, payment, Facilitator)
    case SettleConfirmed(payment) => Settle(s, payment, payment)
    case SettleRefused(payment) => Advance(s, payment, Verified, FailedSettlement, Some(Rejection))
    case SettleLost(payment, _) => Note(s, payment, Facilitator)
    case MirrorMatched(payment, tx) => Settle(s, payment, tx)
    case AllocateOne(key) => Allocate(s, key)
    case DeliverOne(payment) => Deliver(s, payment)
    case DeliverBatch(payment) =>
      if AllIn(s, payment, Settled) then Deliver(AllocateUpTo(s, payment, BatchSize(s, payment)), payment) else s
    case Undeliverable(payment) => Note(s, payment, NoDeliverableFile)
    case _ => s.(catalog := ChangeCatalog(s.catalog, e))
  }

  ghost function Step(w: World, e: Event): World
    requires Enabled(w, e)
  {
    var executed :=
      if (e.SettleConfirmed? && IsReal(w.store, e.payment)) || (e.SettleLost? && e.applied) then w.executed + {e.payment}
      else w.executed;
    World(StoreStep(w.store, e), executed)
  }

  const START := World(Store(Catalog(0, map[], map[], map[]), map[], map[], map[], map[], map[]), {})

  // ------------------------------------------------------------------- safety

  lemma CatalogEventKeepsShape(s: Store, e: Event)
    requires Shaped(s.catalog, s.purchases, s.batches) && IsCatalogEvent(e) && Enabled(World(s, {}), e)
    ensures Shaped(ChangeCatalog(s.catalog, e), s.purchases, s.batches)
  {
    var c := ChangeCatalog(s.catalog, e);
    forall k | k in s.purchases
      ensures DesignerKnown(c, s.purchases[k])
    {
      assert DesignerKnown(s.catalog, s.purchases[k]);
    }
  }

  lemma CatalogEventKeepsCapacity(s: Store, e: Event)
    requires Shaped(s.catalog, s.purchases, s.batches) && WithinCapacity(s.catalog.offers, s.purchases)
    requires IsCatalogEvent(e) && Enabled(World(s, {}), e)
    ensures WithinCapacity(ChangeCatalog(s.catalog, e).offers, s.purchases)
  {
    if e.OfferAdded? {
      assert forall k :: k in s.purchases ==> DesignerKnown(s.catalog, s.purchases[k]);
      assert Holders(s.purchases, e.offer) == {};
    }
  }

  lemma CatalogEventKeepsSound(s: Store, e: Event)
    requires Sound(s) && IsCatalogEvent(e) && Enabled(World(s, {}), e)
    ensures Sound(StoreStep(s, e))
  {
    CatalogEventKeepsShape(s, e);
    CatalogEventKeepsCapacity(s, e);
    CatalogChangeKeepsSound(s, ChangeCatalog(s.catalog, e));
  }

  lemma StoreStepKeepsSound(w: World, e: Event)
    requires Sound(w.store) && Enabled(w, e)
    ensures Sound(StoreStep(w.store, e))
  {
    var s := w.store;
    match e {
      case Reserving(payment, units, batch, asset, payTo, sandbox) =>
        ReserveKeepsSound(s, payment, units, batch, asset, payTo, sandbox);
      case VerifyAccepted(payment) => AdvanceKeepsSound(s, payment, Pending, Verified, None);
      case VerifyRefused(payment) => AdvanceKeepsSound(s, payment, Pending, FailedVerification, Some(Rejection));
      case VerifyLost(payment) => NoteKeepsSound(s, payment, Facilitator);
      case SettleConfirmed(payment) => SettleKeepsSound(s, payment, payment);
      case SettleRefused(payment) => AdvanceKeepsSound(s, payment, Verified, FailedSettlement, Some(Rejection));
      case SettleLost(payment, _) => NoteKeepsSound(s, payment, Facilitator);
      case MirrorMatched(payment, tx) => SettleKeepsSound(s, payment, tx);
      case AllocateOne(key) => AllocateKeepsSound(s, key);
      case DeliverOne(payment) => DeliverKeepsSound(s, payment);
      case DeliverBatch(payment) =>
        AllocateUpToKeepsSound(s, payment, BatchSize(s, payment));
        DeliverKeepsSound(AllocateUpTo(s, payment, BatchSize(s, payment)), payment);
      case Undeliverable(payment) => NoteKeepsSound(s, payment, NoDeliverableFile);
      case _ => CatalogEventKeepsSound(s, e);
    }
  }

  lemma AdvanceKeepsSound(s: Store, payment: Payment, from: Status, to: Status, reason: Option<Reason>)
    requires Sound(s) && Allowed(from, to) && (MoneyMoved(from) <==> MoneyMoved(to)) && to != Delivered
    ensures Sound(Advance(s, payment, from, to, reason))
  {
    if AllIn(s, payment, from) {
      StatusMoveKeepsSound(s, payment, from, to, reason);
    }
  }

  lemma DeliverKeepsSound(s: Store, payment: Payment)
    requires Sound(s)
    ensures Sound(Deliver(s, payment))
  {
    if AllIn(s, payment, Settled) && UnitsOf(s.purchases, payment) <= s.licenses.Keys {
      StatusMoveKeepsSound(s, payment, Settled, Delivered, None);
    }
  }

  ghost predicate Possible(w: World, events: seq<Event>)
    decreases |events|
  {
    events != [] ==> Enabled(w, events[0]) && Possible(Step(w, events[0]), events[1..])
  }

  ghost function Exec(w: World, events: seq<Event>): World
    requires Possible(w, events)
    decreases |events|
  {
    if events == [] then w else Exec(Step(w, events[0]), events[1..])
  }

  lemma {:induction false} RunKeepsSound(w: World, events: seq<Event>)
    requires Sound(w.store) && Possible(w, events)
    ensures Sound(Exec(w, events).store)
    decreases |events|
  {
    if events != [] {
      StoreStepKeepsSound(w, events[0]);
      RunKeepsSound(Step(w, events[0]), events[1..]);
    }
  }

  lemma StartIsSound()
    ensures Sound(START.store)
  {
    var s := START.store;
    forall o, sb
      ensures SerialsExact(s.purchases, s.licenses, o, sb)
    {
      assert Licensed(s.purchases, s.licenses, o, sb) == {};
      assert Serials(s.purchases, s.licenses, o, sb) == UpTo(0);
    }
  }

  // ------------------------------------------------------------ main results

  /** The offer's real purchases that have not failed. */
  ghost function Holding(purchases: map<PurchaseId, Purchase>, o: OfferId): set<PurchaseId> {
    set k | k in purchases && purchases[k].offer == o && !purchases[k].sandbox
            && purchases[k].status != FailedVerification && purchases[k].status != FailedSettlement
  }

  /** The offer's real purchases with a licence. */
  ghost function LicensedNow(s: Store, o: OfferId): set<PurchaseId> {
    set k | k in s.licenses && k in s.purchases && s.purchases[k].offer == o && !s.purchases[k].sandbox
  }

  ghost predicate CapOf(s: Store, o: OfferId, cap: nat) {
    o in s.catalog.offers && s.catalog.offers[o].maxUnits == Some(cap)
  }

  /** The serials on these licences are 1..k, without gap or repeat. */
  ghost predicate SerialsRun(licenses: map<PurchaseId, nat>, ks: set<PurchaseId>) {
    && (forall k :: k in ks ==> k in licenses && 1 <= licenses[k] <= |ks|)
    && (forall j, k :: j in ks && k in ks && j in licenses && k in licenses && licenses[j] == licenses[k] ==> j == k)
    && (forall n: nat :: 1 <= n <= |ks| ==> OnALicence(licenses, ks, n))
  }

  ghost predicate OnALicence(licenses: map<PurchaseId, nat>, ks: set<PurchaseId>, n: nat) {
    exists k :: k in ks && k in licenses && licenses[k] == n
  }

  /** After every run: an offer's real, non-failed purchases fit its units; the
      serials of its real licences are exactly 1..k, each on one licence; and
      for whoever still waits for a licence there is a serial below the cap. */
  lemma CapacityAndSerials(events: seq<Event>, o: OfferId)
    requires Possible(START, events)
    ensures var s := Exec(START, events).store;
      && (forall cap :: CapOf(s, o, cap) ==> |Holding(s.purchases, o)| <= cap)
      && SerialsRun(s.licenses, LicensedNow(s, o))
      && (forall cap, k :: CapOf(s, o, cap) && k in s.purchases && k !in s.licenses && s.purchases[k].offer == o
                           && !s.purchases[k].sandbox && s.purchases[k].status == Settled ==>
            |LicensedNow(s, o)| + 1 <= cap)
  {
    StartIsSound();
    RunKeepsSound(START, events);
    var s := Exec(START, events).store;
    SoundSerialsRun(s, o);
    forall cap | CapOf(s, o, cap)
      ensures |Holding(s.purchases, o)| <= cap
    {
      CapacityFits(s, o, cap);
    }
    forall cap, k | CapOf(s, o, cap) && k in s.purchases && k !in s.licenses && s.purchases[k].offer == o
                    && !s.purchases[k].sandbox && s.purchases[k].status == Settled
      ensures |LicensedNow(s, o)| + 1 <= cap
    {
      NextSerialFits(s, o, cap, k);
    }
  }

  lemma CapacityFits(s: Store, o: OfferId, cap: nat)
    requires WithinCapacity(s.catalog.offers, s.purchases) && CapOf(s, o, cap)
    ensures |Holding(s.purchases, o)| <= cap
  {
    assert Holding(s.purchases, o) == Holders(s.purchases, o);
    assert CapacityUsed(s.purchases, o) <= cap;
  }

  lemma NextSerialFits(s: Store, o: OfferId, cap: nat, k: PurchaseId)
    requires Sound(s) && CapOf(s, o, cap) && k in s.purchases && k !in s.licenses && s.purchases[k].offer == o
    requires !s.purchases[k].sandbox && s.purchases[k].status == Settled
    ensures |LicensedNow(s, o)| + 1 <= cap
  {
    BackstopNeverHit(s, k);
    NextSerialIsCount(s, k);
    LicensedIsNow(s, o);
  }

  lemma LicensedIsNow(s: Store, o: OfferId)
    ensures LicensedNow(s, o) == Licensed(s.purchases, s.licenses, o, false)
  {
  }

  lemma SoundSerialsRun(s: Store, o: OfferId)
    requires AllSerialsExact(s.purchases, s.licenses)
    ensures SerialsRun(s.licenses, LicensedNow(s, o))
  {
    assert SerialsExact(s.purchases, s.licenses, o, false);
    LicensedIsNow(s, o);
    ExactSerialsRun(s.purchases, s.licenses, o);
  }

  lemma SerialOf(purchases: map<PurchaseId, Purchase>, licenses: map<PurchaseId, nat>, o: OfferId, n: nat)
    ensures n in Serials(purchases, licenses, o, false) <==> exists k :: k in Licensed(purchases, licenses, o, false) && licenses[k] == n
  {
  }

  lemma ExactSerialsRun(purchases: map<PurchaseId, Purchase>, licenses: map<PurchaseId, nat>, o: OfferId)
    requires SerialsExact(purchases, licenses, o, false)
    ensures SerialsRun(licenses, Licensed(purchases, licenses, o, false))
  {
    var ks := Licensed(purchases, licenses, o, false);
    forall k | k in ks
      ensures 1 <= licenses[k] <= |ks|
    {
      SerialOf(purchases, licenses, o, licenses[k]);
    }
    forall n: nat | 1 <= n <= |ks|
      ensures OnALicence(licenses, ks, n)
    {
      SerialOf(purchases, licenses, o, n);
      var k :| k in ks && licenses[k] == n;
      assert k in licenses;
    }
  }

  ghost function FeesNow(s: Store, asset: Asset): map<PurchaseId, nat> {
    map k | k in s.fees && s.fees[k].asset == asset :: s.fees[k].amount
  }

  ghost function SharesNow(s: Store, asset: Asset): map<PurchaseId, nat> {
    map k | k in s.shares && s.shares[k].asset == asset :: s.shares[k].amount
  }

  ghost function GrossNow(s: Store, asset: Asset): map<PurchaseId, nat> {
    map k | k in s.purchases && !s.purchases[k].sandbox && s.purchases[k].asset == asset
            && (s.purchases[k].status == Settled || s.purchases[k].status == Delivered) :: s.purchases[k].amount
  }

  lemma RowsPairUp(s: Store, asset: Asset)
    requires BooksMatch(s.purchases, s.fees, s.shares)
    ensures FeesNow(s, asset).Keys == SharesNow(s, asset).Keys == GrossNow(s, asset).Keys
    ensures forall k :: k in GrossNow(s, asset) ==> FeesNow(s, asset)[k] + SharesNow(s, asset)[k] == GrossNow(s, asset)[k]
  {
  }

  /** After every run, per asset: platform fees plus designer shares equal the
      gross of the real purchases whose money moved. */
  lemma BooksBalance(events: seq<Event>, asset: Asset)
    requires Possible(START, events)
    ensures var s := Exec(START, events).store;
      Total(FeesNow(s, asset)) + Total(SharesNow(s, asset)) == Total(GrossNow(s, asset))
  {
    StartIsSound();
    RunKeepsSound(START, events);
    var s := Exec(START, events).store;
    RowsPairUp(s, asset);
    TotalPointwise(FeesNow(s, asset), SharesNow(s, asset), GrossNow(s, asset));
  }
}
