/** What no later step of the shop takes back, whose money each settled row
    names, and where two rails can name the same transfer. */
module MarketHistory {
  import opened Wrappers
  import opened Ledger
  import opened Market
  import opened MarketSafety
  import opened MarketRuns

  // ------------------------------------------------ money taken is money owed

  /** A payment that executed is on its way to delivery and never failed, and a
      real row whose money moved names a transfer that executed. */
  ghost predicate MoneyHonoured(w: World) {
    && (forall p :: p in w.executed ==>
          UnitsOf(w.store.purchases, p) != {}
          && forall k :: k in UnitsOf(w.store.purchases, p) ==>
               w.store.purchases[k].status == Verified || MoneyMoved(w.store.purchases[k].status))
    && (forall k :: k in w.store.purchases && !w.store.purchases[k].sandbox && w.store.purchases[k].tx.Some? ==>
          w.store.purchases[k].tx.value in w.executed)
  }

  /** What no step takes back: rows keep their terms, money stays moved, failures
      stay final, licences and ledger rows never change, and a payment keeps the
      rows and the rail it started with. */
  ghost predicate RowsGrow(s: Store, t: Store) {
    && (forall k :: k in s.purchases ==>
          && k in t.purchases && t.purchases[k].offer == s.purchases[k].offer && t.purchases[k].sandbox == s.purchases[k].sandbox
          && t.purchases[k].amount == s.purchases[k].amount && t.purchases[k].asset == s.purchases[k].asset)
    && (forall k :: k in t.purchases && k !in s.purchases ==> UnitsOf(s.purchases, k.payment) == {})
    && (forall p :: p in s.batches ==> p in t.batches && t.batches[p].size == s.batches[p].size)
    && (forall p :: p in t.batches && p !in s.batches ==> UnitsOf(s.purchases, p) == {})
  }

  ghost predicate StatusForward(s: Store, t: Store) {
    forall k :: k in s.purchases && k in t.purchases ==>
      && (IsFailed(s.purchases[k].status) ==> t.purchases[k].status == s.purchases[k].status)
      && (MoneyMoved(s.purchases[k].status) ==> MoneyMoved(t.purchases[k].status) && t.purchases[k].tx == s.purchases[k].tx)
      && (s.purchases[k].status == Delivered ==> t.purchases[k].status == Delivered)
      && (t.purchases[k].status == Pending ==> s.purchases[k].status == Pending)
  }

  ghost predicate RecordsGrow(s: Store, t: Store) {
    && (forall k :: k in s.licenses ==> k in t.licenses && t.licenses[k] == s.licenses[k])
    && (forall k :: k in s.fees ==> k in t.fees && t.fees[k] == s.fees[k])
    && (forall k :: k in s.shares ==> k in t.shares && t.shares[k] == s.shares[k])
  }

  ghost predicate Later(s: Store, t: Store) {
    RowsGrow(s, t) && StatusForward(s, t) && RecordsGrow(s, t)
  }

  lemma ReserveIsLater(s: Store, payment: Payment, units: seq<Unit>, batch: bool, asset: Asset, payTo: Account, sandbox: bool)
    requires |units| > 0 && (!batch ==> |units| == 1)
    ensures Later(s, Reserve(s, payment, units, batch, asset, payTo, sandbox))
  {
    var t := Reserve(s, payment, units, batch, asset, payTo, sandbox);
    if ReserveVerdict(s, payment, units, sandbox).None? {
      forall k
        ensures k in s.purchases ==> k in t.purchases && t.purchases[k] == s.purchases[k]
        ensures k in t.purchases && k !in s.purchases ==> k.payment == payment
      {
        InsertedAt(s, payment, units, asset, payTo, sandbox, k);
      }
    }
  }

  lemma AdvanceIsForward(s: Store, payment: Payment, from: Status, to: Status, reason: Option<Reason>)
    requires AllIn(s, payment, from) && Allowed(from, to)
    ensures StatusForward(s, Advance(s, payment, from, to, reason))
  {
    assert (to == Pending ==> from == Pending) && !IsFailed(from) && from != Delivered && (MoneyMoved(from) ==> MoneyMoved(to));
  }

  lemma AdvanceKeepsRows(s: Store, payment: Payment, from: Status, to: Status, reason: Option<Reason>)
    ensures RowsGrow(s, Advance(s, payment, from, to, reason))
  {
    var t := Advance(s, payment, from, to, reason);
    assert t.purchases.Keys == s.purchases.Keys && t.batches.Keys == s.batches.Keys;
    if AllIn(s, payment, from) {
      assert t.purchases == SetStatus(s.purchases, UnitsOf(s.purchases, payment), to, reason);
      assert t.batches == SetBatch(s.batches, payment, to, reason);
    }
  }

  lemma AdvanceIsLater(s: Store, payment: Payment, from: Status, to: Status, reason: Option<Reason>)
    requires Allowed(from, to)
    ensures Later(s, Advance(s, payment, from, to, reason))
  {
    AdvanceKeepsRows(s, payment, from, to, reason);
    if AllIn(s, payment, from) {
      AdvanceIsForward(s, payment, from, to, reason);
    }
  }

  lemma NoteIsLater(s: Store, payment: Payment, reason: Reason)
    ensures Later(s, Note(s, payment, reason))
  {
  }

  lemma SettleKeepsRows(s: Store, payment: Payment, tx: TxId)
    ensures RowsGrow(s, Settle(s, payment, tx))
  {
  }

  lemma SettleIsForward(s: Store, payment: Payment, tx: TxId)
    ensures StatusForward(s, Settle(s, payment, tx))
  {
  }

  lemma SettleKeepsRecords(s: Store, payment: Payment, tx: TxId)
    ensures RecordsGrow(s, Settle(s, payment, tx))
  {
  }

  lemma SettleIsLater(s: Store, payment: Payment, tx: TxId)
    ensures Later(s, Settle(s, payment, tx))
  {
    SettleKeepsRows(s, payment, tx);
    SettleIsForward(s, payment, tx);
    SettleKeepsRecords(s, payment, tx);
  }

  lemma AllocateIsLater(s: Store, key: PurchaseId)
    ensures Later(s, Allocate(s, key)) && Allocate(s, key) == s.(licenses := Allocate(s, key).licenses)
  {
  }

  lemma {:induction false} AllocateUpToIsLater(s: Store, payment: Payment, n: nat)
    ensures var t := AllocateUpTo(s, payment, n); t == s.(licenses := t.licenses) && RecordsGrow(s, t)
  {
    if n > 0 {
      AllocateUpToIsLater(s, payment, n - 1);
      AllocateIsLater(AllocateUpTo(s, payment, n - 1), PurchaseId(payment, n - 1));
    }
  }

  lemma DeliverIsLater(s: Store, payment: Payment)
    ensures Later(s, Deliver(s, payment))
  {
  }

  lemma StepIsLater(w: World, e: Event)
    requires Enabled(w, e)
    ensures Later(w.store, Step(w, e).store)
  {
    var s := w.store;
    match e {
      case Reserving(payment, units, batch, asset, payTo, sandbox) => ReserveIsLater(s, payment, units, batch, asset, payTo, sandbox);
      case VerifyAccepted(payment) => AdvanceIsLater(s, payment, Pending, Verified, None);
      case VerifyRefused(payment) => AdvanceIsLater(s, payment, Pending, FailedVerification, Some(Rejection));
      case VerifyLost(payment) => NoteIsLater(s, payment, Facilitator);
      case SettleConfirmed(payment) => SettleIsLater(s, payment, payment);
      case SettleRefused(payment) => AdvanceIsLater(s, payment, Verified, FailedSettlement, Some(Rejection));
      case SettleLost(payment, _) => NoteIsLater(s, payment, Facilitator);
      case MirrorMatched(payment, tx) => SettleIsLater(s, payment, tx);
      case AllocateOne(key) => AllocateIsLater(s, key);
      case DeliverOne(payment) => DeliverIsLater(s, payment);
      case DeliverBatch(payment) =>
        if AllIn(s, payment, Settled) {
          var m := AllocateUpTo(s, payment, BatchSize(s, payment));
          AllocateUpToIsLater(s, payment, BatchSize(s, payment));
          DeliverIsLater(m, payment);
          LaterThroughLicenses(s, m, Deliver(m, payment));
        }
      case Undeliverable(payment) => NoteIsLater(s, payment, NoDeliverableFile);
      case _ =>
    }
  }

  lemma LaterThroughLicenses(s: Store, m: Store, t: Store)
    requires m == s.(licenses := m.licenses) && RecordsGrow(s, m) && Later(m, t)
    ensures Later(s, t)
  {
  }

  lemma LaterTransitive(s: Store, m: Store, t: Store)
    requires Later(s, m) && Later(m, t)
    ensures Later(s, t)
  {
    assert RecordsGrow(s, t);
    assert StatusForward(s, t);
    forall k | k in t.purchases && k !in s.purchases
      ensures UnitsOf(s.purchases, k.payment) == {}
    {
      if k !in m.purchases {
        assert UnitsOf(s.purchases, k.payment) <= UnitsOf(m.purchases, k.payment);
      }
    }
    forall p | p in t.batches && p !in s.batches
      ensures UnitsOf(s.purchases, p) == {}
    {
      if p !in m.batches {
        assert UnitsOf(s.purchases, p) <= UnitsOf(m.purchases, p);
      }
    }
  }

  lemma {:induction false} RunIsLater(w: World, events: seq<Event>)
    requires Possible(w, events)
    ensures Later(w.store, Exec(w, events).store)
    decreases |events|
  {
    if events != [] {
      StepIsLater(w, events[0]);
      RunIsLater(Step(w, events[0]), events[1..]);
      LaterTransitive(w.store, Step(w, events[0]).store, Exec(w, events).store);
    }
  }

  /** Replaying a payment cannot multiply it: once it has rows, every later state
      has exactly those rows for it, on the same rail, with the licences and
      ledger rows they already have; what settled never fails or reverts. */
  lemma OnePurchasePerPayment(w: World, events: seq<Event>, payment: Payment)
    requires Possible(w, events) && UnitsOf(w.store.purchases, payment) != {}
    ensures var s, t := w.store, Exec(w, events).store;
      && UnitsOf(t.purchases, payment) == UnitsOf(s.purchases, payment)
      && (payment in t.batches <==> payment in s.batches)
      && (forall k :: k in UnitsOf(s.purchases, payment) ==>
            && (MoneyMoved(s.purchases[k].status) ==> MoneyMoved(t.purchases[k].status))
            && (k in s.licenses ==> k in t.licenses && t.licenses[k] == s.licenses[k])
            && (k in s.fees ==> k in t.fees && t.fees[k] == s.fees[k]))
  {
    RunIsLater(w, events);
    var s, t := w.store, Exec(w, events).store;
    assert UnitsOf(t.purchases, payment) == UnitsOf(s.purchases, payment);
  }

  lemma MoneyHonouredByAdvance(w: World, payment: Payment, from: Status, to: Status, reason: Option<Reason>)
    requires MoneyHonoured(w) && Allowed(from, to)
    requires IsFailed(to) && from == Verified ==> payment !in w.executed
    requires MoneyMoved(to) ==> MoneyMoved(from)
    ensures MoneyHonoured(w.(store := Advance(w.store, payment, from, to, reason)))
  {
    var s, t := w.store, Advance(w.store, payment, from, to, reason);
    forall p | p in w.executed
      ensures UnitsOf(t.purchases, p) == UnitsOf(s.purchases, p)
    {
      assert t.purchases.Keys == s.purchases.Keys;
    }
  }

  lemma MoneyHonouredBySettle(w: World, payment: Payment, tx: TxId, executed: set<TxId>)
    requires MoneyHonoured(w) && w.executed <= executed <= w.executed + {payment}
    requires payment in executed ==> UnitsOf(w.store.purchases, payment) != {}
    requires payment in executed && payment !in w.executed ==> AllIn(w.store, payment, Verified)
    requires tx in executed || forall k :: k in UnitsOf(w.store.purchases, payment) ==> w.store.purchases[k].sandbox
    ensures MoneyHonoured(World(Settle(w.store, payment, tx), executed))
  {
    var s, t := w.store, Settle(w.store, payment, tx);
    assert t.purchases.Keys == s.purchases.Keys;
    forall p | p in executed
      ensures UnitsOf(t.purchases, p) == UnitsOf(s.purchases, p)
      ensures forall k :: k in UnitsOf(t.purchases, p) ==> t.purchases[k].status == Verified || MoneyMoved(t.purchases[k].status)
    {
      assert UnitsOf(t.purchases, p) == UnitsOf(s.purchases, p);
    }
  }

  lemma MoneyHonouredByNote(w: World, payment: Payment, reason: Reason, executed: set<TxId>)
    requires MoneyHonoured(w) && w.executed <= executed <= w.executed + {payment}
    requires payment in executed && payment !in w.executed ==> AllIn(w.store, payment, Verified)
    ensures MoneyHonoured(World(Note(w.store, payment, reason), executed))
  {
    var s, t := w.store, Note(w.store, payment, reason);
    forall p | p in executed
      ensures UnitsOf(t.purchases, p) == UnitsOf(s.purchases, p) != {}
    {
      assert t.purchases.Keys == s.purchases.Keys;
    }
  }

  lemma MoneyHonouredByReserve(w: World, payment: Payment, units: seq<Unit>, batch: bool, asset: Asset, payTo: Account, sandbox: bool)
    requires MoneyHonoured(w) && |units| > 0 && (!batch ==> |units| == 1)
    ensures MoneyHonoured(w.(store := Reserve(w.store, payment, units, batch, asset, payTo, sandbox)))
  {
    var s, t := w.store, Reserve(w.store, payment, units, batch, asset, payTo, sandbox);
    if ReserveVerdict(s, payment, units, sandbox).None? {
      forall k
        ensures k in s.purchases ==> k in t.purchases && t.purchases[k] == s.purchases[k]
        ensures k in t.purchases && k !in s.purchases ==> k.payment == payment && t.purchases[k].tx == None
      {
        InsertedAt(s, payment, units, asset, payTo, sandbox, k);
      }
      forall p | p in w.executed
        ensures UnitsOf(t.purchases, p) == UnitsOf(s.purchases, p)
      {
        assert p != payment;
      }
    }
  }

  lemma SameStatusesHonourMoney(w: World, s: Store)
    requires MoneyHonoured(w) && s.purchases == w.store.purchases
    ensures MoneyHonoured(w.(store := s))
  {
  }

  lemma MoneyHonouredByDeliver(w: World, payment: Payment)
    requires MoneyHonoured(w)
    ensures MoneyHonoured(w.(store := Deliver(w.store, payment)))
  {
    var s, t := w.store, Deliver(w.store, payment);
    forall p | p in w.executed
      ensures UnitsOf(t.purchases, p) == UnitsOf(s.purchases, p)
    {
      assert t.purchases.Keys == s.purchases.Keys;
    }
  }

  lemma StepHonoursMoney(w: World, e: Event)
    requires MoneyHonoured(w) && Enabled(w, e)
    ensures MoneyHonoured(Step(w, e))
  {
    match e {
      case Reserving(payment, units, batch, asset, payTo, sandbox) =>
        MoneyHonouredByReserve(w, payment, units, batch, asset, payTo, sandbox);
      case VerifyAccepted(payment) => MoneyHonouredByAdvance(w, payment, Pending, Verified, None);
      case VerifyRefused(payment) => MoneyHonouredByAdvance(w, payment, Pending, FailedVerification, Some(Rejection));
      case VerifyLost(payment) => MoneyHonouredByNote(w, payment, Facilitator, w.executed);
      case SettleConfirmed(payment) => MoneyHonouredBySettle(w, payment, payment, Step(w, e).executed);
      case SettleRefused(payment) => MoneyHonouredByAdvance(w, payment, Verified, FailedSettlement, Some(Rejection));
      case SettleLost(payment, _) => MoneyHonouredByNote(w, payment, Facilitator, Step(w, e).executed);
      case MirrorMatched(payment, tx) => MoneyHonouredBySettle(w, payment, tx, w.executed);
      case AllocateOne(key) =>
        AllocateIsLater(w.store, key);
        SameStatusesHonourMoney(w, Allocate(w.store, key));
      case DeliverOne(payment) => MoneyHonouredByDeliver(w, payment);
      case DeliverBatch(payment) =>
        if AllIn(w.store, payment, Settled) {
          var m := AllocateUpTo(w.store, payment, BatchSize(w.store, payment));
          AllocateUpToIsLater(w.store, payment, BatchSize(w.store, payment));
          SameStatusesHonourMoney(w, m);
          MoneyHonouredByDeliver(w.(store := m), payment);
        }
      case Undeliverable(payment) => MoneyHonouredByNote(w, payment, NoDeliverableFile, w.executed);
      case _ => SameStatusesHonourMoney(w, Step(w, e).store);
    }
  }

  lemma {:induction false} RunHonoursMoney(w: World, events: seq<Event>)
    requires MoneyHonoured(w) && Possible(w, events)
    ensures MoneyHonoured(Exec(w, events))
    decreases |events|
  {
    if events != [] {
      StepHonoursMoney(w, events[0]);
      RunHonoursMoney(Step(w, events[0]), events[1..]);
    }
  }

  /** After every run no executed payment has failed, every real row whose money
      moved names an executed transfer, and on one rail no transfer is named by
      two payments. */
  lemma MoneyTakenIsHonoured(events: seq<Event>)
    requires Possible(START, events)
    ensures MoneyHonoured(Exec(START, events))
    ensures ClaimsUnique(Exec(START, events).store.purchases, Exec(START, events).store.batches)
  {
    StartIsSound();
    RunKeepsSound(START, events);
    RunHonoursMoney(START, events);
  }

  // ------------------------------------------------------- across the two rails

  /** No transfer is named both by a single purchase and by a batch. */
  ghost predicate RailsDisjoint(purchases: map<PurchaseId, Purchase>, batches: map<Payment, Batch>) {
    forall k, p :: k in purchases && k.payment !in batches && purchases[k].tx.Some? && p in batches ==>
      batches[p].tx != purchases[k].tx
  }

  predicate ClaimedOnOtherRail(s: Store, payment: Payment, tx: TxId) {
    if payment in s.batches then
      exists k :: k in s.purchases && k.payment !in s.batches && s.purchases[k].tx == Some(tx)
    else
      exists p :: p in s.batches && s.batches[p].tx == Some(tx)
  }

  /** The unique indexes cover one rail each, so settling keeps the rails from
      naming one transfer exactly when the other rail does not name it yet. */
  lemma SettleKeepsRailsDisjointExactly(s: Store, payment: Payment, tx: TxId)
    requires RailsDisjoint(s.purchases, s.batches) && AllIn(s, payment, Verified) && !Claimed(s, payment, tx)
    requires forall k :: k in s.purchases && !MoneyMoved(s.purchases[k].status) ==> s.purchases[k].tx.None?
    ensures var t := Settle(s, payment, tx);
      RailsDisjoint(t.purchases, t.batches) <==> !ClaimedOnOtherRail(s, payment, tx)
  {
    var t := Settle(s, payment, tx);
    var unit :| unit in UnitsOf(s.purchases, payment);
    assert t.purchases[unit].tx == Some(tx);
    if ClaimedOnOtherRail(s, payment, tx) {
      if payment in s.batches {
        var k :| k in s.purchases && k.payment !in s.batches && s.purchases[k].tx == Some(tx);
        assert t.purchases[k] == s.purchases[k] && t.batches[payment].tx == Some(tx);
      } else {
        var p :| p in s.batches && s.batches[p].tx == Some(tx);
        assert t.batches[p] == s.batches[p] && unit.payment !in t.batches;
      }
    }
  }

  // --------------------------------------------- whose transfer a row names

  /** Every transaction id on file is the payment's own. */
  ghost predicate OwnTransfers(s: Store) {
    && (forall k :: k in s.purchases && s.purchases[k].tx.Some? ==> s.purchases[k].tx.value == k.payment)
    && (forall p :: p in s.batches && s.batches[p].tx.Some? ==> s.batches[p].tx.value == p)
  }

  /** The mirror, which compares payee, amount and asset, gives a waiting payment
      another payment's transfer. */
  predicate TakesForeign(w: World, e: Event) {
    e.MirrorMatched? && e.tx != e.payment && AllIn(w.store, e.payment, Verified) && !Claimed(w.store, e.payment, e.tx)
  }

  ghost predicate NeverTakesForeign(w: World, events: seq<Event>)
    requires Possible(w, events)
    decreases |events|
  {
    events != [] ==> !TakesForeign(w, events[0]) && NeverTakesForeign(Step(w, events[0]), events[1..])
  }

  ghost predicate ForeignRow(s: Store, k: PurchaseId) {
    k in s.purchases && MoneyMoved(s.purchases[k].status) && s.purchases[k].tx.Some? && s.purchases[k].tx.value != k.payment
  }

  /** A row once settled on another payment's transfer names it for good. */
  lemma ForeignRowStays(w: World, events: seq<Event>, k: PurchaseId)
    requires Possible(w, events) && ForeignRow(w.store, k)
    ensures !OwnTransfers(Exec(w, events).store)
  {
    RunIsLater(w, events);
    assert ForeignRow(Exec(w, events).store, k);
  }

  lemma TakingForeignShows(w: World, e: Event)
    requires Enabled(w, e) && TakesForeign(w, e)
    ensures exists k :: ForeignRow(Step(w, e).store, k)
  {
    var k :| k in UnitsOf(w.store.purchases, e.payment);
    assert ForeignRow(Step(w, e).store, k);
  }

  lemma SettleKeepsOwn(s: Store, payment: Payment, tx: TxId)
    requires OwnTransfers(s)
    requires tx == payment || !AllIn(s, payment, Verified) || Claimed(s, payment, tx)
    ensures OwnTransfers(Settle(s, payment, tx))
  {
  }

  lemma AdvanceKeepsOwn(s: Store, payment: Payment, from: Status, to: Status, reason: Option<Reason>)
    requires OwnTransfers(s)
    ensures OwnTransfers(Advance(s, payment, from, to, reason))
  {
  }

  lemma ReserveKeepsOwn(s: Store, payment: Payment, units: seq<Unit>, batch: bool, asset: Asset, payTo: Account, sandbox: bool)
    requires OwnTransfers(s) && |units| > 0 && (!batch ==> |units| == 1)
    ensures OwnTransfers(Reserve(s, payment, units, batch, asset, payTo, sandbox))
  {
    var t := Reserve(s, payment, units, batch, asset, payTo, sandbox);
    if ReserveVerdict(s, payment, units, sandbox).None? {
      forall k | k in t.purchases && t.purchases[k].tx.Some?
        ensures t.purchases[k].tx.value == k.payment
      {
        InsertedAt(s, payment, units, asset, payTo, sandbox, k);
      }
    }
  }

  lemma DeliverKeepsOwn(s: Store, payment: Payment)
    requires OwnTransfers(s)
    ensures OwnTransfers(Deliver(s, payment))
  {
  }

  lemma NoteKeepsOwn(s: Store, payment: Payment, reason: Reason)
    requires OwnTransfers(s)
    ensures OwnTransfers(Note(s, payment, reason))
  {
  }

  lemma StepKeepsOwn(w: World, e: Event)
    requires OwnTransfers(w.store) && Enabled(w, e) && !TakesForeign(w, e)
    ensures OwnTransfers(Step(w, e).store)
  {
    var s := w.store;
    match e {
      case Reserving(payment, units, batch, asset, payTo, sandbox) => ReserveKeepsOwn(s, payment, units, batch, asset, payTo, sandbox);
      case VerifyAccepted(payment) => AdvanceKeepsOwn(s, payment, Pending, Verified, None);
      case VerifyRefused(payment) => AdvanceKeepsOwn(s, payment, Pending, FailedVerification, Some(Rejection));
      case VerifyLost(payment) => NoteKeepsOwn(s, payment, Facilitator);
      case SettleConfirmed(payment) => SettleKeepsOwn(s, payment, payment);
      case SettleRefused(payment) => AdvanceKeepsOwn(s, payment, Verified, FailedSettlement, Some(Rejection));
      case SettleLost(payment, _) => NoteKeepsOwn(s, payment, Facilitator);
      case MirrorMatched(payment, tx) => SettleKeepsOwn(s, payment, tx);
      case AllocateOne(key) => AllocateIsLater(s, key);
      case DeliverOne(payment) => DeliverKeepsOwn(s, payment);
      case DeliverBatch(payment) =>
        if AllIn(s, payment, Settled) {
          var m := AllocateUpTo(s, payment, BatchSize(s, payment));
          AllocateUpToIsLater(s, payment, BatchSize(s, payment));
          DeliverKeepsOwn(m, payment);
        }
      case Undeliverable(payment) => NoteKeepsOwn(s, payment, NoDeliverableFile);
      case _ =>
    }
  }

  /** Every settled row names its own payment's transfer exactly when no waiting
      payment was ever given another payment's. */
  lemma {:induction false} OwnTransfersExactly(w: World, events: seq<Event>)
    requires OwnTransfers(w.store) && Possible(w, events)
    ensures OwnTransfers(Exec(w, events).store) <==> NeverTakesForeign(w, events)
    decreases |events|
  {
    if events != [] {
      var t := Step(w, events[0]);
      if TakesForeign(w, events[0]) {
        TakingForeignShows(w, events[0]);
        var k :| ForeignRow(t.store, k);
        ForeignRowStays(t, events[1..], k);
      } else {
        StepKeepsOwn(w, events[0]);
        OwnTransfersExactly(t, events[1..]);
      }
    }
  }

  /** Where every row names its own transfer, no payment finds its own taken. */
  lemma OwnTransfersLeaveRoom(s: Store, payment: Payment)
    requires OwnTransfers(s)
    ensures !Claimed(s, payment, payment)
  {
  }
}
