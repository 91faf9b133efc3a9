/** Who holds the money of a recorded sale, from the settling step to the payout
    run that selects its share. */
module LedgerCustody {
  import opened Wrappers
  import opened Ledger
  import opened Market
  import opened MarketSafety
  import opened MarketRuns
  import opened MarketHistory
  import opened CheckoutOutcomes
  import Payouts
  import PayoutSelection

  lemma {:induction false} ExecSnoc(w: World, events: seq<Event>, e: Event)
    requires Possible(w, events + [e])
    ensures Possible(w, events) && Enabled(Exec(w, events), e)
    ensures Exec(w, events + [e]) == Step(Exec(w, events), e)
    decreases |events|
  {
    if events == [] {
      assert [e][1..] == [] && events + [e] == [e];
    } else {
      assert (events + [e])[0] == events[0] && (events + [e])[1..] == events[1..] + [e];
      ExecSnoc(Step(w, events[0]), events[1..], e);
    }
  }

  predicate SettlesPayment(e: Event, payment: Payment) {
    e == SettleConfirmed(payment) || (e.MirrorMatched? && e.payment == payment)
  }

  /** Only a settling step writes a share, and then both rows are booked by the
      catalogue of that moment. */
  lemma NewShareIsBooked(w: World, e: Event, k: PurchaseId)
    requires Sound(w.store) && Enabled(w, e) && k in Step(w, e).store.shares && k !in w.store.shares
    ensures SettlesPayment(e, k.payment) && k in w.store.purchases && k in Step(w, e).store.fees
    ensures BookedAs(w.store.catalog, w.store.purchases[k], Step(w, e).store.fees[k], Step(w, e).store.shares[k])
  {
    if e.SettleConfirmed? {
      SettleBooks(w.store, e.payment, e.payment, k);
    } else if e.MirrorMatched? {
      SettleBooks(w.store, e.payment, e.tx, k);
    } else {
      OthersBookNothing(w, e);
    }
  }

  lemma OthersBookNothing(w: World, e: Event)
    requires Enabled(w, e) && !e.SettleConfirmed? && !e.MirrorMatched?
    ensures Step(w, e).store.shares == w.store.shares
  {
    if e.DeliverBatch? {
      AllocateUpToIsLater(w.store, e.payment, BatchSize(w.store, e.payment));
    } else if e.AllocateOne? {
      AllocateIsLater(w.store, e.key);
    }
  }

  lemma SettleBooks(s: Store, payment: Payment, tx: TxId, k: PurchaseId)
    requires Sound(s) && k in Settle(s, payment, tx).shares && k !in s.shares
    ensures k.payment == payment && k in s.purchases && k in Settle(s, payment, tx).fees
    ensures BookedAs(s.catalog, s.purchases[k], Settle(s, payment, tx).fees[k], Settle(s, payment, tx).shares[k])
  {
    SettleSettles(s, payment, tx);
    assert k in Settle(s, payment, tx).fees && k !in s.fees;
  }

  /** Event `n` settled the sale, and the rows are booked as it found things. */
  ghost predicate BookedAt(events: seq<Event>, n: nat, k: PurchaseId, fee: Fee, share: Share)
    requires Possible(START, events)
  {
    n < |events| && SettlesPayment(events[n], k.payment) && Possible(START, events[..n])
    && var s := Exec(START, events[..n]).store; k in s.purchases && BookedAs(s.catalog, s.purchases[k], fee, share)
  }

  lemma BookedAtStays(events: seq<Event>, e: Event, n: nat, k: PurchaseId, fee: Fee, share: Share)
    requires Possible(START, events) && Possible(START, events + [e]) && BookedAt(events, n, k, fee, share)
    ensures BookedAt(events + [e], n, k, fee, share)
  {
    assert (events + [e])[..n] == events[..n];
  }

  lemma BookedNow(events: seq<Event>, e: Event, k: PurchaseId)
    requires Possible(START, events + [e]) && Possible(START, events) && Enabled(Exec(START, events), e)
    requires Sound(Exec(START, events).store)
    requires k in Step(Exec(START, events), e).store.shares && k !in Exec(START, events).store.shares
    ensures var t := Step(Exec(START, events), e).store;
      k in t.fees && BookedAt(events + [e], |events|, k, t.fees[k], t.shares[k])
  {
    assert (events + [e])[..|events|] == events;
    NewShareIsBooked(Exec(START, events), e, k);
  }

  /** After every run each recorded share is as its settling step booked it: the
      listing's designer's, and held by the treasury exactly when the buyer paid the
      treasury or an account that was not the designer's. */
  lemma {:induction false} SharesKeepCustody(events: seq<Event>, k: PurchaseId)
    requires Possible(START, events) && k in Exec(START, events).store.shares
    ensures var s := Exec(START, events).store;
      k in s.fees && exists n: nat :: BookedAt(events, n, k, s.fees[k], s.shares[k])
    decreases |events|
  {
    var front, e := events[..|events| - 1], events[|events| - 1];
    assert events == front + [e];
    ExecSnoc(START, front, e);
    StartIsSound();
    RunKeepsSound(START, front);
    var s, t := Exec(START, front).store, Exec(START, events).store;
    if k in s.shares {
      SharesKeepCustody(front, k);
      StepIsLater(Exec(START, front), e);
      var n: nat :| BookedAt(front, n, k, s.fees[k], s.shares[k]);
      BookedAtStays(front, e, n, k, s.fees[k], s.shares[k]);
    } else {
      BookedNow(front, e, k);
    }
  }

  /** A payout run over these books selects a share exactly when the treasury holds
      it and it is unpaid, in scope, not under review and of a verified designer. */
  lemma PayoutsStartFromTreasury(events: seq<Event>, db: Payouts.System, ids: Option<set<PurchaseId>>, ref: Payouts.Ref,
                                 automatic: bool, p: PurchaseId)
    requires Possible(START, events) && db.shares == Exec(START, events).store.shares && db.run.None?
    ensures var run := Payouts.Step(db, Payouts.Begin(ids, ref, automatic)).run;
      run.Some?
      && (p in run.value.pending <==>
            p in Exec(START, events).store.shares && Exec(START, events).store.shares[p].treasury && p !in db.payouts
            && Exec(START, events).store.shares[p].designer in db.verified && (ids.Some? ==> p in ids.value)
            && !(p in db.attempts && db.attempts[p].status == Payouts.ReconciliationRequired))
      && (p in run.value.pending ==>
            p in Exec(START, events).store.fees
            && exists n: nat :: BookedAt(events, n, p, Exec(START, events).store.fees[p], Exec(START, events).store.shares[p]))
  {
    PayoutSelection.BeginSelectsExactly(db, ids, ref, automatic);
    if p in Exec(START, events).store.shares {
      SharesKeepCustody(events, p);
    }
  }
}
