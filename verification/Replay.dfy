/** What one request does with a payment that already has rows: the replay path
    of the single-licence rail and of the batch rail, given what the facilitator,
    the mirror and the file store answer. */
module Replay {
  import opened Wrappers
  import opened Ledger
  import opened Market
  import opened MarketSafety
  import opened MarketRuns
  import opened MarketHistory

  datatype VerifyReply = Valid | Invalid | VerifyDown

  /** `SettleDown(applied)` is a lost reply: the transfer may have executed. */
  datatype SettleReply = Success | Refused | SettleDown(applied: bool)

  datatype Answers = Answers(verify: VerifyReply, settle: SettleReply, mirror: Option<TxId>, deliverable: bool)

  /** The outside world's side of the protocol: a refusal means nothing executed,
      a mirror match is an executed transfer, sandbox payments execute nothing. */
  ghost predicate Honest(w: World, payment: Payment, a: Answers) {
    && (a.settle == Refused ==> payment !in w.executed)
    && (a.settle == SettleDown(true) ==> IsReal(w.store, payment))
    && (a.mirror.Some? ==> a.mirror.value in w.executed)
  }

  function StatusOf(s: Store, payment: Payment): Status
    requires IsKnown(s, payment)
  {
    if payment in s.batches then s.batches[payment].status else s.purchases[PurchaseId(payment, 0)].status
  }

  function ReasonOf(s: Store, payment: Payment): Reason
    requires IsKnown(s, payment)
  {
    if payment in s.batches then s.batches[payment].reason else s.purchases[PurchaseId(payment, 0)].reason
  }

  predicate IsKnown(s: Store, payment: Payment) {
    payment in s.batches || PurchaseId(payment, 0) in s.purchases
  }

  predicate IsSandbox(s: Store, payment: Payment)
    requires IsKnown(s, payment)
  {
    if payment in s.batches then s.batches[payment].sandbox else s.purchases[PurchaseId(payment, 0)].sandbox
  }

  /** The single rail mints the licence before it looks for files; the batch rail
      looks first, and mints and delivers all units in one transaction. */
  ghost function DeliverPayment(w: World, payment: Payment, a: Answers): World {
    if payment in w.store.batches then
      if !a.deliverable then Step(w, Undeliverable(payment)) else Step(w, DeliverBatch(payment))
    else
      var minted := Step(w, AllocateOne(PurchaseId(payment, 0)));
      if !a.deliverable then Step(minted, Undeliverable(payment)) else Step(minted, DeliverOne(payment))
  }

  /** A settling step and, when the payment is settled by it, its delivery. */
  ghost function DeliverAfter(w: World, e: Event, payment: Payment, a: Answers): World
    requires Enabled(w, e)
  {
    var paid := Step(w, e);
    if AllIn(paid.store, payment, Settled) then DeliverPayment(paid, payment, a) else paid
  }

  ghost function SettlePayment(w: World, payment: Payment, a: Answers): World
    requires AllIn(w.store, payment, Verified) && Honest(w, payment, a)
  {
    match a.settle
    case Refused => Step(w, SettleRefused(payment))
    case SettleDown(applied) => Step(w, SettleLost(payment, applied))
    case Success => DeliverAfter(w, SettleConfirmed(payment), payment, a)
  }

  ghost function ReconcilePayment(w: World, payment: Payment, a: Answers): World
    requires AllIn(w.store, payment, Verified) && Honest(w, payment, a) && IsKnown(w.store, payment)
  {
    if IsSandbox(w.store, payment) || a.mirror.None? then SettlePayment(w, payment, a)
    else DeliverAfter(w, MirrorMatched(payment, a.mirror.value), payment, a)
  }

  ghost function VerifyPayment(w: World, payment: Payment, a: Answers): World
    requires AllIn(w.store, payment, Pending) && Honest(w, payment, a)
  {
    match a.verify
    case Invalid => Step(w, VerifyRefused(payment))
    case VerifyDown => Step(w, VerifyLost(payment))
    case Valid =>
      var verified := Step(w, VerifyAccepted(payment));
      AdvanceReaches(w.store, payment, Pending, Verified, None);
      SettlePayment(verified, payment, a)
  }

  lemma AdvanceReaches(s: Store, payment: Payment, from: Status, to: Status, reason: Option<Reason>)
    requires AllIn(s, payment, from)
    ensures AllIn(Advance(s, payment, from, to, reason), payment, to)
    ensures UnitsOf(Advance(s, payment, from, to, reason).purchases, payment) == UnitsOf(s.purchases, payment)
    ensures IsReal(Advance(s, payment, from, to, reason), payment) <==> IsReal(s, payment)
  {
    var t := Advance(s, payment, from, to, reason);
    UnitsStay(s.purchases, t.purchases, payment);
    forall k | k in UnitsOf(s.purchases, payment)
      ensures k in t.purchases && t.purchases[k].status == to && t.purchases[k].sandbox == s.purchases[k].sandbox
    {
    }
  }

  /** A replayed payment moves on from wherever it stopped, or stays put. */
  ghost function ReplayPayment(w: World, payment: Payment, a: Answers): World
    requires Sound(w.store) && IsKnown(w.store, payment) && Honest(w, payment, a)
  {
    StatusIsEveryUnits(w.store, payment);
    match StatusOf(w.store, payment)
    case Settled => DeliverPayment(w, payment, a)
    case Verified => ReconcilePayment(w, payment, a)
    case Pending => if ReasonOf(w.store, payment) == Facilitator then VerifyPayment(w, payment, a) else w
    case Delivered => if a.deliverable then w else Step(w, Undeliverable(payment))
    case _ => w
  }

  lemma StatusIsEveryUnits(s: Store, payment: Payment)
    requires Sound(s) && IsKnown(s, payment)
    ensures AllIn(s, payment, StatusOf(s, payment))
  {
    if payment in s.batches {
      assert BatchWhole(s.purchases, payment, s.batches[payment]);
      assert PurchaseId(payment, 0) in UnitsOf(s.purchases, payment);
    } else {
      assert PurchaseId(payment, 0) in UnitsOf(s.purchases, payment);
      forall k | k in UnitsOf(s.purchases, payment)
        ensures k == PurchaseId(payment, 0)
      {
      }
    }
  }

  // ------------------------------------------------------------ replay is safe

  ghost predicate Good(w: World) {
    Sound(w.store) && MoneyHonoured(w)
  }

  lemma StepIsGood(w: World, e: Event)
    requires Good(w) && Enabled(w, e)
    ensures Good(Step(w, e)) && Later(w.store, Step(w, e).store)
  {
    StoreStepKeepsSound(w, e);
    StepHonoursMoney(w, e);
    StepIsLater(w, e);
  }

  lemma DeliverPaymentIsGood(w: World, payment: Payment, a: Answers)
    requires Good(w)
    ensures Good(DeliverPayment(w, payment, a)) && Later(w.store, DeliverPayment(w, payment, a).store)
  {
    if payment in w.store.batches {
      StepIsGood(w, if a.deliverable then DeliverBatch(payment) else Undeliverable(payment));
    } else {
      var key := PurchaseId(payment, 0);
      StepIsGood(w, AllocateOne(key));
      var minted := Step(w, AllocateOne(key));
      StepIsGood(minted, if a.deliverable then DeliverOne(payment) else Undeliverable(payment));
      LaterTransitive(w.store, minted.store, DeliverPayment(w, payment, a).store);
    }
  }

  lemma DeliverAfterIsGood(w: World, e: Event, payment: Payment, a: Answers)
    requires Good(w) && Enabled(w, e)
    ensures Good(DeliverAfter(w, e, payment, a)) && Later(w.store, DeliverAfter(w, e, payment, a).store)
  {
    StepIsGood(w, e);
    var paid := Step(w, e);
    if AllIn(paid.store, payment, Settled) {
      DeliverPaymentIsGood(paid, payment, a);
      LaterTransitive(w.store, paid.store, DeliverPayment(paid, payment, a).store);
    }
  }

  lemma SettlePaymentIsGood(w: World, payment: Payment, a: Answers)
    requires Good(w) && AllIn(w.store, payment, Verified) && Honest(w, payment, a)
    ensures Good(SettlePayment(w, payment, a)) && Later(w.store, SettlePayment(w, payment, a).store)
  {
    match a.settle {
      case Refused => StepIsGood(w, SettleRefused(payment));
      case SettleDown(applied) => StepIsGood(w, SettleLost(payment, applied));
      case Success =>
        DeliverAfterIsGood(w, SettleConfirmed(payment), payment, a);
    }
  }

  lemma VerifyPaymentIsGood(w: World, payment: Payment, a: Answers)
    requires Good(w) && AllIn(w.store, payment, Pending) && Honest(w, payment, a)
    ensures Good(VerifyPayment(w, payment, a)) && Later(w.store, VerifyPayment(w, payment, a).store)
  {
    match a.verify {
      case Invalid => StepIsGood(w, VerifyRefused(payment));
      case VerifyDown => StepIsGood(w, VerifyLost(payment));
      case Valid =>
        StepIsGood(w, VerifyAccepted(payment));
        AdvanceReaches(w.store, payment, Pending, Verified, None);
        SettlePaymentIsGood(Step(w, VerifyAccepted(payment)), payment, a);
        LaterTransitive(w.store, Step(w, VerifyAccepted(payment)).store, VerifyPayment(w, payment, a).store);
    }
  }

  lemma ReconcilePaymentIsGood(w: World, payment: Payment, a: Answers)
    requires Good(w) && AllIn(w.store, payment, Verified) && Honest(w, payment, a) && IsKnown(w.store, payment)
    ensures Good(ReconcilePayment(w, payment, a)) && Later(w.store, ReconcilePayment(w, payment, a).store)
  {
    if IsSandbox(w.store, payment) || a.mirror.None? {
      SettlePaymentIsGood(w, payment, a);
    } else {
      DeliverAfterIsGood(w, MirrorMatched(payment, a.mirror.value), payment, a);
    }
  }

  lemma LaterReflexive(s: Store)
    ensures Later(s, s)
  {
  }

  /** However the outside world answers, a replay keeps every invariant, loses no
      executed payment and takes nothing back. */
  lemma ReplayIsSafe(w: World, payment: Payment, a: Answers)
    requires Good(w) && IsKnown(w.store, payment) && Honest(w, payment, a)
    ensures Good(ReplayPayment(w, payment, a)) && Later(w.store, ReplayPayment(w, payment, a).store)
  {
    StatusIsEveryUnits(w.store, payment);
    ReplayByStatus(w, payment, a);
    var status := StatusOf(w.store, payment);
    if status == Settled {
      DeliverPaymentIsGood(w, payment, a);
    } else if status == Verified {
      ReconcilePaymentIsGood(w, payment, a);
    } else if status == Pending && ReasonOf(w.store, payment) == Facilitator {
      VerifyPaymentIsGood(w, payment, a);
    } else if status == Delivered && !a.deliverable {
      StepIsGood(w, Undeliverable(payment));
    } else {
      LaterReflexive(w.store);
    }
  }

  lemma ReplayByStatus(w: World, payment: Payment, a: Answers)
    requires Sound(w.store) && IsKnown(w.store, payment) && Honest(w, payment, a) && AllIn(w.store, payment, StatusOf(w.store, payment))
    ensures var status := StatusOf(w.store, payment);
      && (status == Settled ==> ReplayPayment(w, payment, a) == DeliverPayment(w, payment, a))
      && (status == Verified ==> ReplayPayment(w, payment, a) == ReconcilePayment(w, payment, a))
      && (status == Pending && ReasonOf(w.store, payment) == Facilitator ==> ReplayPayment(w, payment, a) == VerifyPayment(w, payment, a))
      && (status == Delivered && !a.deliverable ==> ReplayPayment(w, payment, a) == Step(w, Undeliverable(payment)))
      && (status == Delivered && a.deliverable ==> ReplayPayment(w, payment, a) == w)
      && (status == Pending && ReasonOf(w.store, payment) != Facilitator ==> ReplayPayment(w, payment, a) == w)
      && (IsFailed(status) ==> ReplayPayment(w, payment, a) == w)
  {
  }

  // ----------------------------------------------------------- replay delivers

  /** Every unit of the payment is delivered and licensed. */
  ghost predicate FullyDelivered(s: Store, payment: Payment) {
    AllIn(s, payment, Delivered) && UnitsOf(s.purchases, payment) <= s.licenses.Keys
  }

  lemma DeliverReaches(s: Store, payment: Payment)
    requires AllIn(s, payment, Settled) && UnitsOf(s.purchases, payment) <= s.licenses.Keys
    ensures FullyDelivered(Deliver(s, payment), payment)
  {
    assert Deliver(s, payment) == Advance(s, payment, Settled, Delivered, None).(licenses := s.licenses);
    AdvanceReaches(s, payment, Settled, Delivered, None);
  }

  lemma MintedBatchIsLicensed(s: Store, payment: Payment)
    requires Sound(s) && payment in s.batches && AllIn(s, payment, Settled)
    ensures var m := AllocateUpTo(s, payment, s.batches[payment].size);
      m == s.(licenses := m.licenses) && AllIn(m, payment, Settled) && UnitsOf(m.purchases, payment) <= m.licenses.Keys
  {
    AllocateUpToKeepsSound(s, payment, s.batches[payment].size);
    assert BatchWhole(s.purchases, payment, s.batches[payment]);
  }

  lemma MintedSingleIsLicensed(s: Store, payment: Payment)
    requires Sound(s) && payment !in s.batches && AllIn(s, payment, Settled)
    ensures var m := Allocate(s, PurchaseId(payment, 0));
      m == s.(licenses := m.licenses) && AllIn(m, payment, Settled) && UnitsOf(m.purchases, payment) <= m.licenses.Keys
  {
    AllocateKeepsSound(s, PurchaseId(payment, 0));
    forall k | k in UnitsOf(s.purchases, payment)
      ensures k == PurchaseId(payment, 0)
    {
    }
  }

  lemma BatchStepDelivers(w: World, payment: Payment)
    requires payment in w.store.batches && AllIn(w.store, payment, Settled)
    ensures Step(w, DeliverBatch(payment)).store
         == Deliver(AllocateUpTo(w.store, payment, w.store.batches[payment].size), payment)
  {
  }

  lemma SettledBatchDelivers(w: World, payment: Payment)
    requires Sound(w.store) && payment in w.store.batches && AllIn(w.store, payment, Settled)
    ensures FullyDelivered(Step(w, DeliverBatch(payment)).store, payment)
  {
    var m := AllocateUpTo(w.store, payment, w.store.batches[payment].size);
    MintedBatchIsLicensed(w.store, payment);
    DeliverReaches(m, payment);
    BatchStepDelivers(w, payment);
  }

  lemma SettledSingleDelivers(w: World, payment: Payment)
    requires Sound(w.store) && payment !in w.store.batches && AllIn(w.store, payment, Settled)
    ensures FullyDelivered(Step(Step(w, AllocateOne(PurchaseId(payment, 0))), DeliverOne(payment)).store, payment)
  {
    var m := Allocate(w.store, PurchaseId(payment, 0));
    MintedSingleIsLicensed(w.store, payment);
    DeliverReaches(m, payment);
  }

  /** One replay of a settled payment with deliverable files delivers it whole. */
  lemma SettledReplayDelivers(w: World, payment: Payment, a: Answers)
    requires Sound(w.store) && AllIn(w.store, payment, Settled) && a.deliverable
    ensures FullyDelivered(DeliverPayment(w, payment, a).store, payment)
  {
    if payment in w.store.batches {
      SettledBatchDelivers(w, payment);
    } else {
      SettledSingleDelivers(w, payment);
    }
  }

  lemma SettleReaches(s: Store, payment: Payment, tx: TxId)
    requires AllIn(s, payment, Verified) && !Claimed(s, payment, tx)
    ensures AllIn(Settle(s, payment, tx), payment, Settled)
  {
    var t := Settle(s, payment, tx);
    UnitsStay(s.purchases, t.purchases, payment);
  }

  lemma PaidReplayDelivers(w: World, e: Event, payment: Payment, tx: TxId, a: Answers)
    requires Sound(w.store) && IsKnown(w.store, payment) && AllIn(w.store, payment, Verified) && a.deliverable
    requires !Claimed(w.store, payment, tx) && Enabled(w, e)
    requires e == MirrorMatched(payment, tx) || (e == SettleConfirmed(payment) && tx == payment)
    ensures FullyDelivered(DeliverAfter(w, e, payment, a).store, payment)
  {
    StoreStepKeepsSound(w, e);
    SettleReaches(w.store, payment, tx);
    SettledReplayDelivers(Step(w, e), payment, a);
  }

  /** The transaction id a replay would settle with. */
  ghost function SettlingTx(w: World, payment: Payment, a: Answers): TxId
    requires IsKnown(w.store, payment)
  {
    if StatusOf(w.store, payment) == Verified && !IsSandbox(w.store, payment) && a.mirror.Some? then a.mirror.value else payment
  }

  lemma AdvanceKeepsClaims(s: Store, payment: Payment, from: Status, to: Status, reason: Option<Reason>, tx: TxId)
    ensures Claimed(Advance(s, payment, from, to, reason), payment, tx) <==> Claimed(s, payment, tx)
  {
    AdvanceIsSameClaims(s, payment, from, to, reason);
    var t := Advance(s, payment, from, to, reason);
    forall p | p in s.batches
      ensures p in t.batches && t.batches[p].tx == s.batches[p].tx
    {
    }
    forall k | k in s.purchases
      ensures k in t.purchases && t.purchases[k].tx == s.purchases[k].tx
    {
    }
  }

  lemma AdvanceIsSameClaims(s: Store, payment: Payment, from: Status, to: Status, reason: Option<Reason>)
    ensures var t := Advance(s, payment, from, to, reason);
      && t.purchases.Keys == s.purchases.Keys && t.batches.Keys == s.batches.Keys
      && (forall k :: k in s.purchases ==> t.purchases[k].tx == s.purchases[k].tx)
      && (forall p :: p in s.batches ==> t.batches[p].tx == s.batches[p].tx)
  {
    if AllIn(s, payment, from) {
      assert Advance(s, payment, from, to, reason).purchases == SetStatus(s.purchases, UnitsOf(s.purchases, payment), to, reason);
      assert Advance(s, payment, from, to, reason).batches == SetBatch(s.batches, payment, to, reason);
    }
  }

  lemma ClaimedReplayStops(w: World, e: Event, payment: Payment, tx: TxId, a: Answers)
    requires AllIn(w.store, payment, Verified) && Claimed(w.store, payment, tx) && Enabled(w, e)
    requires e == MirrorMatched(payment, tx) || (e == SettleConfirmed(payment) && tx == payment)
    ensures !FullyDelivered(DeliverAfter(w, e, payment, a).store, payment)
  {
    assert Step(w, e).store == w.store;
    var k :| k in UnitsOf(w.store.purchases, payment);
  }

  /** A waiting payment whose money is confirmed, by the mirror or the facilitator,
      is delivered exactly when its transaction id is free. */
  lemma ConfirmedReplayDelivers(w: World, e: Event, payment: Payment, tx: TxId, a: Answers)
    requires Sound(w.store) && IsKnown(w.store, payment) && AllIn(w.store, payment, Verified) && a.deliverable && Enabled(w, e)
    requires e == MirrorMatched(payment, tx) || (e == SettleConfirmed(payment) && tx == payment)
    ensures FullyDelivered(DeliverAfter(w, e, payment, a).store, payment) <==> !Claimed(w.store, payment, tx)
  {
    if Claimed(w.store, payment, tx) {
      ClaimedReplayStops(w, e, payment, tx, a);
    } else {
      PaidReplayDelivers(w, e, payment, tx, a);
    }
  }

  /** A payment interrupted anywhere — while verifying, while settling with the
      reply lost, or before delivery — and replayed once when all services answer
      is delivered exactly when it had settled or its transaction id is free. */
  lemma InterruptedReplayDelivers(w: World, payment: Payment, a: Answers)
    requires Sound(w.store) && IsKnown(w.store, payment) && Honest(w, payment, a)
    requires a.verify == Valid && a.settle == Success && a.deliverable
    requires !IsFailed(StatusOf(w.store, payment)) && StatusOf(w.store, payment) != Delivered
    requires StatusOf(w.store, payment) == Pending ==> ReasonOf(w.store, payment) == Facilitator
    ensures FullyDelivered(ReplayPayment(w, payment, a).store, payment)
       <==> StatusOf(w.store, payment) == Settled || !Claimed(w.store, payment, SettlingTx(w, payment, a))
  {
    StatusIsEveryUnits(w.store, payment);
    match StatusOf(w.store, payment) {
      case Settled => SettledReplayDelivers(w, payment, a);
      case Verified =>
        if IsSandbox(w.store, payment) || a.mirror.None? {
          ConfirmedReplayDelivers(w, SettleConfirmed(payment), payment, payment, a);
        } else {
          ConfirmedReplayDelivers(w, MirrorMatched(payment, a.mirror.value), payment, a.mirror.value, a);
        }
      case Pending =>
        var verified := Step(w, VerifyAccepted(payment));
        StoreStepKeepsSound(w, VerifyAccepted(payment));
        AdvanceReaches(w.store, payment, Pending, Verified, None);
        AdvanceKeepsClaims(w.store, payment, Pending, Verified, None, payment);
        ConfirmedReplayDelivers(verified, SettleConfirmed(payment), payment, payment, a);
    }
  }

  /** After any run in which the mirror gave nobody another payment's transfer, one
      replay delivers whichever payment it is for. */
  lemma OwnTransferIsDelivered(events: seq<Event>, payment: Payment, a: Answers)
    requires Possible(START, events) && NeverTakesForeign(START, events)
    requires var w := Exec(START, events);
      && IsKnown(w.store, payment) && Honest(w, payment, a) && (a.mirror.Some? ==> a.mirror.value == payment)
      && a.verify == Valid && a.settle == Success && a.deliverable
      && !IsFailed(StatusOf(w.store, payment)) && StatusOf(w.store, payment) != Delivered
      && (StatusOf(w.store, payment) == Pending ==> ReasonOf(w.store, payment) == Facilitator)
    ensures Sound(Exec(START, events).store)
    ensures FullyDelivered(ReplayPayment(Exec(START, events), payment, a).store, payment)
  {
    StartIsSound();
    RunKeepsSound(START, events);
    OwnTransfersExactly(START, events);
    OwnTransfersLeaveRoom(Exec(START, events).store, payment);
    InterruptedReplayDelivers(Exec(START, events), payment, a);
  }
}
