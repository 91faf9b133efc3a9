/** What every run of the shop keeps: capacity, serial numbers, the ledger and
    the lifecycle of each payment. */
module MarketSafety {
  import opened Wrappers
  import opened Sums
  import opened Ledger
  import opened Market

  // -------------------------------------------------------------- invariants

  /** Non-failed real purchases never exceed an offer's units. */
  ghost predicate WithinCapacity(offers: map<OfferId, Offer>, purchases: map<PurchaseId, Purchase>) {
    forall o :: o in offers && offers[o].maxUnits.Some? ==> CapacityUsed(purchases, o) <= offers[o].maxUnits.value
  }

  ghost function UpTo(n: nat): (r: set<nat>)
    ensures forall i :: i in r <==> 1 <= i <= n
  {
    if n == 0 then {} else UpTo(n - 1) + {n}
  }

  /** The serials on one offer and rail are exactly 1..k, each used once. */
  ghost predicate SerialsExact(purchases: map<PurchaseId, Purchase>, licenses: map<PurchaseId, nat>, offer: OfferId, sandbox: bool) {
    var ks := Licensed(purchases, licenses, offer, sandbox);
    && Serials(purchases, licenses, offer, sandbox) == UpTo(|ks|)
    && (forall j, k :: j in ks && k in ks && licenses[j] == licenses[k] ==> j == k)
  }

  ghost predicate AllSerialsExact(purchases: map<PurchaseId, Purchase>, licenses: map<PurchaseId, nat>) {
    forall o, sb :: SerialsExact(purchases, licenses, o, sb)
  }

  /** Rows refer to rows that exist; a payment is on one rail only, and a batch
      owns exactly its positions, all in the batch's own status. */
  ghost predicate Shaped(c: Catalog, purchases: map<PurchaseId, Purchase>, batches: map<Payment, Batch>) {
    && (forall k :: k in purchases ==> DesignerKnown(c, purchases[k]))
    && (forall k :: k in purchases && k.payment !in batches ==> k.position == 0)
    && AllWhole(purchases, batches)
    && (forall o :: o in c.offers ==> c.offers[o].model in c.listings)
    && (forall m :: m in c.listings ==> c.listings[m].designer in c.accounts)
  }

  ghost predicate AllWhole(purchases: map<PurchaseId, Purchase>, batches: map<Payment, Batch>) {
    forall p :: p in batches ==> BatchWhole(purchases, p, batches[p])
  }

  ghost predicate BatchWhole(purchases: map<PurchaseId, Purchase>, payment: Payment, batch: Batch) {
    && batch.size > 0
    && UnitsOf(purchases, payment) == NewKeys(payment, batch.size)
    && (forall k :: k in UnitsOf(purchases, payment) ==>
          purchases[k].status == batch.status && purchases[k].sandbox == batch.sandbox && purchases[k].tx == batch.tx)
  }

  /** A licence belongs to a purchase whose money moved; delivered means licensed. */
  ghost predicate LicensesEarned(purchases: map<PurchaseId, Purchase>, licenses: map<PurchaseId, nat>) {
    && (forall k :: k in licenses ==> k in purchases && MoneyMoved(purchases[k].status))
    && (forall k :: k in purchases && purchases[k].status == Delivered ==> k in licenses)
  }

  /** A purchase has both ledger rows or none: both exactly when it is real and
      its money moved, and then they split its amount. */
  ghost predicate BooksMatch(purchases: map<PurchaseId, Purchase>, fees: map<PurchaseId, Fee>, shares: map<PurchaseId, Share>) {
    && fees.Keys == shares.Keys
    && (forall k :: k in fees <==> k in purchases && !purchases[k].sandbox && MoneyMoved(purchases[k].status))
    && (forall k :: k in fees ==>
          && fees[k].amount + shares[k].amount == purchases[k].amount
          && fees[k].amount == FeeOn(purchases[k].amount)
          && fees[k].asset == shares[k].asset == purchases[k].asset
          && fees[k].treasury == shares[k].treasury)
  }

  /** Money-moved rows carry a transaction id, and on each rail no two payments
      carry the same one. */
  ghost predicate ClaimsUnique(purchases: map<PurchaseId, Purchase>, batches: map<Payment, Batch>) {
    && (forall k :: k in purchases ==> (MoneyMoved(purchases[k].status) <==> purchases[k].tx.Some?))
    && (forall j, k ::
          && j in purchases && k in purchases && j.payment !in batches && k.payment !in batches
          && purchases[j].tx.Some? && purchases[j].tx == purchases[k].tx
          ==> j == k)
    && (forall p, q :: p in batches && q in batches && batches[p].tx.Some? && batches[p].tx == batches[q].tx ==> p == q)
  }

  ghost predicate Sound(s: Store) {
    && Shaped(s.catalog, s.purchases, s.batches)
    && WithinCapacity(s.catalog.offers, s.purchases)
    && AllSerialsExact(s.purchases, s.licenses)
    && LicensesEarned(s.purchases, s.licenses)
    && BooksMatch(s.purchases, s.fees, s.shares)
    && ClaimsUnique(s.purchases, s.batches)
  }

  // ---------------------------------------------------------------- counting

  lemma {:induction false} SubsetCount<T>(a: set<T>, b: set<T>)
    requires a <= b
    ensures |a| <= |b|
  {
    assert b == a + (b - a);
  }

  ghost function KeysUnder(payment: Payment, units: seq<Unit>, offer: OfferId): set<PurchaseId> {
    set i | 0 <= i < |units| && units[i].offer == offer :: PurchaseId(payment, i)
  }

  /** The tally is the number of positions that ask for the offer. */
  lemma {:induction false} TallyCounts(payment: Payment, units: seq<Unit>, offer: OfferId)
    ensures |KeysUnder(payment, units, offer)| == Tally(units, offer)
  {
    if units == [] {
      assert KeysUnder(payment, units, offer) == {};
    } else {
      var n := |units| - 1;
      var front := units[..n];
      TallyCounts(payment, front, offer);
      var last := PurchaseId(payment, n);
      if units[n].offer == offer {
        assert KeysUnder(payment, units, offer) == KeysUnder(payment, front, offer) + {last};
        assert last !in KeysUnder(payment, front, offer);
      } else {
        assert KeysUnder(payment, units, offer) == KeysUnder(payment, front, offer);
      }
    }
  }

  lemma {:induction false} TallyPositive(units: seq<Unit>, offer: OfferId)
    requires Tally(units, offer) > 0
    ensures exists u :: u in units && u.offer == offer
  {
    var last := units[|units| - 1];
    if last.offer == offer {
      assert last in units;
    } else {
      TallyPositive(units[..|units| - 1], offer);
    }
  }

  // ---------------------------------------------------------------- reserving

  lemma InsertedAt(s: Store, payment: Payment, units: seq<Unit>, asset: Asset, payTo: Account, sandbox: bool, k: PurchaseId)
    requires UnitsOf(s.purchases, payment) == {}
    ensures var after := Inserted(s.purchases, payment, units, asset, payTo, sandbox);
      && (k in after <==> k in s.purchases || (k.payment == payment && 0 <= k.position < |units|))
      && (k in s.purchases ==> k.payment != payment && after[k] == s.purchases[k])
      && (k.payment == payment && 0 <= k.position < |units| ==>
            k !in s.purchases && after[k] == NewPurchase(units[k.position], asset, payTo, sandbox))
  {
    assert k in s.purchases && k.payment == payment ==> k in UnitsOf(s.purchases, payment);
    if k.payment == payment && 0 <= k.position < |units| {
      assert k == PurchaseId(payment, k.position);
    }
  }

  lemma HoldersAfterInsert(s: Store, payment: Payment, units: seq<Unit>, asset: Asset, payTo: Account, sandbox: bool, o: OfferId)
    requires UnitsOf(s.purchases, payment) == {}
    ensures var after := Inserted(s.purchases, payment, units, asset, payTo, sandbox);
      CapacityUsed(after, o) == CapacityUsed(s.purchases, o) + (if sandbox then 0 else Tally(units, o))
  {
    var after := Inserted(s.purchases, payment, units, asset, payTo, sandbox);
    var before := Holders(s.purchases, o);
    var added := if sandbox then {} else KeysUnder(payment, units, o);
    forall k
      ensures k in Holders(after, o) <==> k in before || k in added
      ensures !(k in before && k in added)
    {
      InsertedAt(s, payment, units, asset, payTo, sandbox, k);
      if k.payment == payment && 0 <= k.position < |units| {
        assert k == PurchaseId(payment, k.position);
      }
    }
    assert Holders(after, o) == before + added;
    TallyCounts(payment, units, o);
  }

  lemma ReserveKeepsCapacity(s: Store, payment: Payment, units: seq<Unit>, batch: bool, asset: Asset, payTo: Account, sandbox: bool)
    requires |units| > 0 && (!batch ==> |units| == 1)
    requires WithinCapacity(s.catalog.offers, s.purchases)
    ensures var t := Reserve(s, payment, units, batch, asset, payTo, sandbox);
      WithinCapacity(t.catalog.offers, t.purchases)
  {
    var t := Reserve(s, payment, units, batch, asset, payTo, sandbox);
    if ReserveVerdict(s, payment, units, sandbox).None? {
      forall o | o in t.catalog.offers && t.catalog.offers[o].maxUnits.Some?
        ensures CapacityUsed(t.purchases, o) <= t.catalog.offers[o].maxUnits.value
      {
        HoldersAfterInsert(s, payment, units, asset, payTo, sandbox, o);
        if !sandbox && Tally(units, o) > 0 {
          TallyPositive(units, o);
        }
      }
    }
  }

  // ------------------------------------------------------- moving a payment on

  /** Same rows, same terms; a failed row stays failed. */
  ghost predicate SameTerms(before: map<PurchaseId, Purchase>, after: map<PurchaseId, Purchase>) {
    && after.Keys == before.Keys
    && (forall k :: k in before ==>
          && after[k].offer == before[k].offer && after[k].sandbox == before[k].sandbox
          && after[k].amount == before[k].amount && after[k].asset == before[k].asset
          && (IsFailed(before[k].status) ==> IsFailed(after[k].status)))
  }

  lemma SameTermsKeepCapacity(offers: map<OfferId, Offer>, before: map<PurchaseId, Purchase>, after: map<PurchaseId, Purchase>)
    requires WithinCapacity(offers, before) && SameTerms(before, after)
    ensures WithinCapacity(offers, after)
  {
    forall o | o in offers && offers[o].maxUnits.Some?
      ensures CapacityUsed(after, o) <= offers[o].maxUnits.value
    {
      SubsetCount(Holders(after, o), Holders(before, o));
    }
  }

  /** Serials depend only on which offer and rail each licensed row is on. */
  lemma SameLicensesKeepSerials(before: map<PurchaseId, Purchase>, after: map<PurchaseId, Purchase>, licenses: map<PurchaseId, nat>)
    requires AllSerialsExact(before, licenses)
    requires forall k :: k in licenses ==> (k in before <==> k in after)
    requires forall k :: k in licenses && k in before ==> after[k].offer == before[k].offer && after[k].sandbox == before[k].sandbox
    ensures AllSerialsExact(after, licenses)
  {
    forall o, sb
      ensures SerialsExact(after, licenses, o, sb)
    {
      assert SerialsExact(before, licenses, o, sb);
      assert Licensed(after, licenses, o, sb) == Licensed(before, licenses, o, sb);
      assert Serials(after, licenses, o, sb) == Serials(before, licenses, o, sb);
    }
  }

  // --------------------------------------------------------------- allocation

  lemma NextSerialIsCount(s: Store, key: PurchaseId)
    requires key in s.purchases && AllSerialsExact(s.purchases, s.licenses)
    ensures NextSerial(s, key) == |Licensed(s.purchases, s.licenses, s.purchases[key].offer, s.purchases[key].sandbox)| + 1
  {
    var o, sb := s.purchases[key].offer, s.purchases[key].sandbox;
    assert SerialsExact(s.purchases, s.licenses, o, sb);
    var n := |Licensed(s.purchases, s.licenses, o, sb)|;
    if n > 0 {
      assert n in UpTo(n);
    }
  }

  /** The SoldOut backstop is never reached: an unlicensed holder's next serial fits. */
  lemma BackstopNeverHit(s: Store, key: PurchaseId)
    requires WithinCapacity(s.catalog.offers, s.purchases) && AllSerialsExact(s.purchases, s.licenses)
    requires LicensesEarned(s.purchases, s.licenses)
    requires key in s.purchases && key !in s.licenses && !IsFailed(s.purchases[key].status)
    ensures !BackstopHit(s, key, NextSerial(s, key))
  {
    var o := s.purchases[key].offer;
    if !s.purchases[key].sandbox && o in s.catalog.offers && s.catalog.offers[o].maxUnits.Some? {
      NextSerialIsCount(s, key);
      var ks := Licensed(s.purchases, s.licenses, o, false);
      SubsetCount(ks + {key}, Holders(s.purchases, o));
    }
  }

  lemma LicensedAdded(ps: map<PurchaseId, Purchase>, before: map<PurchaseId, nat>, key: PurchaseId, next: nat)
    requires key in ps && key !in before
    ensures var o, sb := ps[key].offer, ps[key].sandbox;
      && Licensed(ps, before[key := next], o, sb) == Licensed(ps, before, o, sb) + {key}
      && Serials(ps, before[key := next], o, sb) == Serials(ps, before, o, sb) + {next}
  {
    var o, sb, after := ps[key].offer, ps[key].sandbox, before[key := next];
    assert Licensed(ps, after, o, sb) == Licensed(ps, before, o, sb) + {key};
    forall i
      ensures i in Serials(ps, after, o, sb) <==> i in Serials(ps, before, o, sb) || i == next
    {
      if i in Serials(ps, before, o, sb) {
        var k :| k in Licensed(ps, before, o, sb) && before[k] == i;
        assert k in Licensed(ps, after, o, sb) && after[k] == i;
      }
      if i == next {
        assert key in Licensed(ps, after, o, sb) && after[key] == i;
      }
    }
  }

  lemma SerialsBelow(ps: map<PurchaseId, Purchase>, licenses: map<PurchaseId, nat>, o: OfferId, sb: bool, k: PurchaseId)
    requires SerialsExact(ps, licenses, o, sb) && k in Licensed(ps, licenses, o, sb)
    ensures licenses[k] <= |Licensed(ps, licenses, o, sb)|
  {
    assert licenses[k] in Serials(ps, licenses, o, sb);
  }

  /** A new licence with the next serial extends exactly its own offer and rail. */
  lemma NewSerialExtends(ps: map<PurchaseId, Purchase>, before: map<PurchaseId, nat>, key: PurchaseId, next: nat)
    requires key in ps && key !in before
    requires SerialsExact(ps, before, ps[key].offer, ps[key].sandbox)
    requires next == |Licensed(ps, before, ps[key].offer, ps[key].sandbox)| + 1
    ensures SerialsExact(ps, before[key := next], ps[key].offer, ps[key].sandbox)
  {
    var o, sb, after := ps[key].offer, ps[key].sandbox, before[key := next];
    var ks := Licensed(ps, before, o, sb);
    LicensedAdded(ps, before, key, next);
    assert |ks + {key}| == next;
    assert UpTo(next) == UpTo(|ks|) + {next};
    forall j, k | j in ks + {key} && k in ks + {key} && after[j] == after[k]
      ensures j == k
    {
      if j in ks { SerialsBelow(ps, before, o, sb, j); }
      if k in ks { SerialsBelow(ps, before, o, sb, k); }
    }
  }

  lemma NewSerialElsewhere(ps: map<PurchaseId, Purchase>, before: map<PurchaseId, nat>, key: PurchaseId, next: nat, o: OfferId, sb: bool)
    requires key in ps && key !in before && SerialsExact(ps, before, o, sb)
    requires ps[key].offer != o || ps[key].sandbox != sb
    ensures SerialsExact(ps, before[key := next], o, sb)
  {
    var after := before[key := next];
    assert Licensed(ps, after, o, sb) == Licensed(ps, before, o, sb);
    assert Serials(ps, after, o, sb) == Serials(ps, before, o, sb);
  }

  lemma AllocateKeepsSerials(s: Store, key: PurchaseId)
    requires AllSerialsExact(s.purchases, s.licenses) && key in s.purchases && key !in s.licenses
    ensures AllSerialsExact(s.purchases, s.licenses[key := NextSerial(s, key)])
  {
    NextSerialIsCount(s, key);
    var after := s.licenses[key := NextSerial(s, key)];
    forall o, sb
      ensures SerialsExact(s.purchases, after, o, sb)
    {
      assert SerialsExact(s.purchases, s.licenses, o, sb);
      if s.purchases[key].offer == o && s.purchases[key].sandbox == sb {
        NewSerialExtends(s.purchases, s.licenses, key, NextSerial(s, key));
      } else {
        NewSerialElsewhere(s.purchases, s.licenses, key, NextSerial(s, key), o, sb);
      }
    }
  }

  /** Allocation never refuses a settled purchase, and changes nothing but licences. */
  lemma AllocateKeepsSound(s: Store, key: PurchaseId)
    requires Sound(s)
    ensures var t := Allocate(s, key);
      Sound(t) && t == s.(licenses := t.licenses)
      && (key in s.purchases && s.purchases[key].status == Settled ==> key in t.licenses)
      && s.licenses.Keys <= t.licenses.Keys
  {
    if key in s.purchases && key !in s.licenses && s.purchases[key].status == Settled {
      BackstopNeverHit(s, key);
      AllocateKeepsSerials(s, key);
      LicenseIsEarned(s, key, NextSerial(s, key));
      SoundWithLicenses(s, s.licenses[key := NextSerial(s, key)]);
      assert Allocate(s, key) == s.(licenses := s.licenses[key := NextSerial(s, key)]);
    } else {
      assert Allocate(s, key) == s;
    }
  }

  lemma LicenseIsEarned(s: Store, key: PurchaseId, serial: nat)
    requires LicensesEarned(s.purchases, s.licenses) && key in s.purchases && s.purchases[key].status == Settled
    ensures LicensesEarned(s.purchases, s.licenses[key := serial])
  {
  }

  lemma SoundWithLicenses(s: Store, licenses: map<PurchaseId, nat>)
    requires Sound(s) && AllSerialsExact(s.purchases, licenses) && LicensesEarned(s.purchases, licenses)
    ensures Sound(s.(licenses := licenses))
  {
  }

  lemma {:induction false} AllocateUpToKeepsSound(s: Store, payment: Payment, n: nat)
    requires Sound(s)
    ensures var t := AllocateUpTo(s, payment, n);
      Sound(t) && t == s.(licenses := t.licenses) && s.licenses.Keys <= t.licenses.Keys
      && (forall k :: k in NewKeys(payment, n) && k in s.purchases && s.purchases[k].status == Settled ==> k in t.licenses)
  {
    if n > 0 {
      AllocateUpToKeepsSound(s, payment, n - 1);
      AllocateKeepsSound(AllocateUpTo(s, payment, n - 1), PurchaseId(payment, n - 1));
    }
  }

  // ------------------------------------------------------------- reservation

  lemma ReserveKeepsBatch(s: Store, payment: Payment, units: seq<Unit>, asset: Asset, payTo: Account, sandbox: bool, p: Payment)
    requires UnitsOf(s.purchases, payment) == {} && |units| > 0
    requires p != payment ==> p in s.batches && BatchWhole(s.purchases, p, s.batches[p])
    ensures var after := Inserted(s.purchases, payment, units, asset, payTo, sandbox);
      BatchWhole(after, p, if p == payment then Batch(|units|, sandbox, Pending, NoReason, None) else s.batches[p])
  {
    var after := Inserted(s.purchases, payment, units, asset, payTo, sandbox);
    forall k
      ensures k in UnitsOf(after, p) <==> if p == payment then k in NewKeys(payment, |units|) else k in UnitsOf(s.purchases, p)
      ensures k in after && k.payment == payment ==> after[k] == NewPurchase(units[k.position], asset, payTo, sandbox)
      ensures k in after && k.payment != payment ==> k in s.purchases && after[k] == s.purchases[k]
    {
      InsertedAt(s, payment, units, asset, payTo, sandbox, k);
    }
    assert UnitsOf(after, p) == if p == payment then NewKeys(payment, |units|) else UnitsOf(s.purchases, p);
  }

  lemma ReserveKeepsShape(s: Store, payment: Payment, units: seq<Unit>, batch: bool, asset: Asset, payTo: Account, sandbox: bool)
    requires |units| > 0 && (!batch ==> |units| == 1)
    requires Shaped(s.catalog, s.purchases, s.batches)
    ensures var t := Reserve(s, payment, units, batch, asset, payTo, sandbox);
      Shaped(t.catalog, t.purchases, t.batches)
  {
    var t := Reserve(s, payment, units, batch, asset, payTo, sandbox);
    if ReserveVerdict(s, payment, units, sandbox).None? {
      forall k | k in t.purchases
        ensures DesignerKnown(t.catalog, t.purchases[k])
        ensures k.payment !in t.batches ==> k.position == 0
      {
        InsertedAt(s, payment, units, asset, payTo, sandbox, k);
      }
      forall p | p in t.batches
        ensures BatchWhole(t.purchases, p, t.batches[p])
      {
        ReserveKeepsBatch(s, payment, units, asset, payTo, sandbox, p);
      }
    }
  }

  lemma ReserveKeepsClaims(s: Store, payment: Payment, units: seq<Unit>, batch: bool, asset: Asset, payTo: Account, sandbox: bool)
    requires |units| > 0 && (!batch ==> |units| == 1)
    requires ClaimsUnique(s.purchases, s.batches)
    ensures var t := Reserve(s, payment, units, batch, asset, payTo, sandbox);
      ClaimsUnique(t.purchases, t.batches)
  {
    var t := Reserve(s, payment, units, batch, asset, payTo, sandbox);
    if ReserveVerdict(s, payment, units, sandbox).None? {
      forall k | k in t.purchases
        ensures k in s.purchases ==> t.purchases[k] == s.purchases[k]
        ensures k !in s.purchases ==> t.purchases[k].tx == None && t.purchases[k].status == Pending
      {
        InsertedAt(s, payment, units, asset, payTo, sandbox, k);
      }
    }
  }

  lemma ReserveKeepsRecords(s: Store, payment: Payment, units: seq<Unit>, asset: Asset, payTo: Account, sandbox: bool)
    requires UnitsOf(s.purchases, payment) == {}
    requires LicensesEarned(s.purchases, s.licenses) && AllSerialsExact(s.purchases, s.licenses)
    requires BooksMatch(s.purchases, s.fees, s.shares)
    ensures var ps := Inserted(s.purchases, payment, units, asset, payTo, sandbox);
      LicensesEarned(ps, s.licenses) && AllSerialsExact(ps, s.licenses) && BooksMatch(ps, s.fees, s.shares)
  {
    var ps := Inserted(s.purchases, payment, units, asset, payTo, sandbox);
    forall k | k in ps
      ensures k in s.purchases ==> ps[k] == s.purchases[k]
      ensures k !in s.purchases ==> ps[k].status == Pending
    {
      InsertedAt(s, payment, units, asset, payTo, sandbox, k);
    }
    SameLicensesKeepSerials(s.purchases, ps, s.licenses);
  }

  lemma ReserveKeepsSound(s: Store, payment: Payment, units: seq<Unit>, batch: bool, asset: Asset, payTo: Account, sandbox: bool)
    requires |units| > 0 && (!batch ==> |units| == 1)
    requires Sound(s)
    ensures Sound(Reserve(s, payment, units, batch, asset, payTo, sandbox))
  {
    ReserveKeepsShape(s, payment, units, batch, asset, payTo, sandbox);
    ReserveKeepsCapacity(s, payment, units, batch, asset, payTo, sandbox);
    ReserveKeepsClaims(s, payment, units, batch, asset, payTo, sandbox);
    ReserveKeepsLedger(s, payment, units, batch, asset, payTo, sandbox);
    SoundFromParts(Reserve(s, payment, units, batch, asset, payTo, sandbox));
  }

  lemma ReserveKeepsLedger(s: Store, payment: Payment, units: seq<Unit>, batch: bool, asset: Asset, payTo: Account, sandbox: bool)
    requires |units| > 0 && (!batch ==> |units| == 1)
    requires LicensesEarned(s.purchases, s.licenses) && AllSerialsExact(s.purchases, s.licenses)
    requires BooksMatch(s.purchases, s.fees, s.shares)
    ensures var t := Reserve(s, payment, units, batch, asset, payTo, sandbox);
      LicensesEarned(t.purchases, t.licenses) && AllSerialsExact(t.purchases, t.licenses) && BooksMatch(t.purchases, t.fees, t.shares)
  {
    if ReserveVerdict(s, payment, units, sandbox).None? {
      ReserveKeepsRecords(s, payment, units, asset, payTo, sandbox);
    }
  }

  lemma SoundFromParts(t: Store)
    requires Shaped(t.catalog, t.purchases, t.batches) && WithinCapacity(t.catalog.offers, t.purchases)
    requires AllSerialsExact(t.purchases, t.licenses) && LicensesEarned(t.purchases, t.licenses)
    requires BooksMatch(t.purchases, t.fees, t.shares) && ClaimsUnique(t.purchases, t.batches)
    ensures Sound(t)
  {
  }

  // ------------------------------------------------------------- status moves

  /** Same rows and terms, and no row's money has moved meanwhile. */
  ghost predicate SameMoney(before: map<PurchaseId, Purchase>, after: map<PurchaseId, Purchase>) {
    && SameTerms(before, after)
    && (forall k :: k in before ==>
          after[k].tx == before[k].tx && (MoneyMoved(after[k].status) <==> MoneyMoved(before[k].status)))
  }

  ghost predicate SameBatches(before: map<Payment, Batch>, after: map<Payment, Batch>) {
    after.Keys == before.Keys && forall p :: p in before ==> after[p].tx == before[p].tx
  }

  lemma SameMoneyKeepsBooks(before: map<PurchaseId, Purchase>, after: map<PurchaseId, Purchase>,
                            fees: map<PurchaseId, Fee>, shares: map<PurchaseId, Share>)
    requires BooksMatch(before, fees, shares) && SameMoney(before, after)
    ensures BooksMatch(after, fees, shares)
  {
  }

  lemma SameMoneyKeepsClaims(before: map<PurchaseId, Purchase>, after: map<PurchaseId, Purchase>,
                             batches: map<Payment, Batch>, later: map<Payment, Batch>)
    requires ClaimsUnique(before, batches) && SameMoney(before, after) && SameBatches(batches, later)
    ensures ClaimsUnique(after, later)
  {
  }

  lemma SameMoneyKeepsLicenses(before: map<PurchaseId, Purchase>, after: map<PurchaseId, Purchase>, licenses: map<PurchaseId, nat>)
    requires LicensesEarned(before, licenses) && SameMoney(before, after)
    requires forall k :: k in after && after[k].status == Delivered && before[k].status != Delivered ==> k in licenses
    ensures LicensesEarned(after, licenses)
  {
  }

  /** Everything but the shape follows from the money standing still. */
  lemma SameMoneyKeepsSound(s: Store, ps: map<PurchaseId, Purchase>, bs: map<Payment, Batch>)
    requires Sound(s) && SameMoney(s.purchases, ps) && SameBatches(s.batches, bs)
    requires forall k :: k in ps && ps[k].status == Delivered && s.purchases[k].status != Delivered ==> k in s.licenses
    requires AllWhole(ps, bs)
    ensures Sound(s.(purchases := ps, batches := bs))
  {
    SameTermsKeepCapacity(s.catalog.offers, s.purchases, ps);
    SameLicensesKeepSerials(s.purchases, ps, s.licenses);
    SameMoneyKeepsBooks(s.purchases, ps, s.fees, s.shares);
    SameMoneyKeepsClaims(s.purchases, ps, s.batches, bs);
    SameMoneyKeepsLicenses(s.purchases, ps, s.licenses);
  }

  lemma UnitsStay(before: map<PurchaseId, Purchase>, after: map<PurchaseId, Purchase>, p: Payment)
    requires after.Keys == before.Keys
    ensures UnitsOf(after, p) == UnitsOf(before, p)
  {
  }

  lemma StatusMoveKeepsBatches(purchases: map<PurchaseId, Purchase>, batches: map<Payment, Batch>, payment: Payment, to: Status,
                               reason: Option<Reason>)
    requires AllWhole(purchases, batches)
    ensures AllWhole(SetStatus(purchases, UnitsOf(purchases, payment), to, reason), SetBatch(batches, payment, to, reason))
  {
    var ps, bs := SetStatus(purchases, UnitsOf(purchases, payment), to, reason), SetBatch(batches, payment, to, reason);
    forall p | p in bs
      ensures BatchWhole(ps, p, bs[p])
    {
      UnitsStay(purchases, ps, p);
      assert BatchWhole(purchases, p, batches[p]);
    }
  }

  lemma StatusMoveIsSameMoney(s: Store, payment: Payment, from: Status, to: Status, reason: Option<Reason>)
    requires AllIn(s, payment, from) && Allowed(from, to) && (MoneyMoved(from) <==> MoneyMoved(to))
    ensures SameMoney(s.purchases, SetStatus(s.purchases, UnitsOf(s.purchases, payment), to, reason))
    ensures SameBatches(s.batches, SetBatch(s.batches, payment, to, reason))
  {
  }

  lemma StatusMoveKeepsSound(s: Store, payment: Payment, from: Status, to: Status, reason: Option<Reason>)
    requires Sound(s) && AllIn(s, payment, from) && Allowed(from, to)
    requires MoneyMoved(from) <==> MoneyMoved(to)
    requires to == Delivered ==> UnitsOf(s.purchases, payment) <= s.licenses.Keys
    ensures Sound(s.(purchases := SetStatus(s.purchases, UnitsOf(s.purchases, payment), to, reason),
                     batches := SetBatch(s.batches, payment, to, reason)))
  {
    var ps := SetStatus(s.purchases, UnitsOf(s.purchases, payment), to, reason);
    var bs := SetBatch(s.batches, payment, to, reason);
    StatusMoveIsSameMoney(s, payment, from, to, reason);
    StatusMoveKeepsBatches(s.purchases, s.batches, payment, to, reason);
    SameMoneyKeepsSound(s, ps, bs);
  }

  lemma NoteIsSameMoney(purchases: map<PurchaseId, Purchase>, keys: set<PurchaseId>, reason: Reason)
    ensures SameMoney(purchases, NotePurchases(purchases, keys, reason))
    ensures forall k :: k in purchases ==> NotePurchases(purchases, keys, reason)[k].status == purchases[k].status
  {
  }

  lemma NoteKeepsBatches(purchases: map<PurchaseId, Purchase>, batches: map<Payment, Batch>, keys: set<PurchaseId>,
                         payment: Payment, reason: Reason)
    requires AllWhole(purchases, batches)
    ensures AllWhole(NotePurchases(purchases, keys, reason), NoteBatch(batches, payment, reason))
  {
    var ps, bs := NotePurchases(purchases, keys, reason), NoteBatch(batches, payment, reason);
    forall p | p in bs
      ensures BatchWhole(ps, p, bs[p])
    {
      UnitsStay(purchases, ps, p);
      assert BatchWhole(purchases, p, batches[p]);
    }
  }

  lemma NoteIsSameBatches(batches: map<Payment, Batch>, payment: Payment, reason: Reason)
    ensures SameBatches(batches, NoteBatch(batches, payment, reason))
  {
  }

  lemma NotedKeepsSound(s: Store, keys: set<PurchaseId>, payment: Payment, reason: Reason)
    requires Sound(s)
    ensures Sound(s.(purchases := NotePurchases(s.purchases, keys, reason), batches := NoteBatch(s.batches, payment, reason)))
  {
    NoteIsSameMoney(s.purchases, keys, reason);
    NoteKeepsBatches(s.purchases, s.batches, keys, payment, reason);
    NoteIsSameBatches(s.batches, payment, reason);
    var ps, bs := NotePurchases(s.purchases, keys, reason), NoteBatch(s.batches, payment, reason);
    assert forall k :: k in ps && ps[k].status == Delivered ==> s.purchases[k].status == Delivered;
    SameMoneyKeepsSound(s, ps, bs);
  }

  lemma NoteKeepsSound(s: Store, payment: Payment, reason: Reason)
    requires Sound(s)
    ensures Sound(Note(s, payment, reason))
  {
    NotedKeepsSound(s, if payment in s.batches then {} else UnitsOf(s.purchases, payment), payment, reason);
  }

  // -------------------------------------------------------------- settlement

  lemma PaidKeepsBatches(purchases: map<PurchaseId, Purchase>, batches: map<Payment, Batch>, payment: Payment, tx: TxId)
    requires AllWhole(purchases, batches)
    ensures AllWhole(SetPaid(purchases, UnitsOf(purchases, payment), tx), SetBatchPaid(batches, payment, tx))
  {
    var ps, bs := SetPaid(purchases, UnitsOf(purchases, payment), tx), SetBatchPaid(batches, payment, tx);
    forall p | p in bs
      ensures BatchWhole(ps, p, bs[p])
    {
      UnitsStay(purchases, ps, p);
      assert BatchWhole(purchases, p, batches[p]);
    }
  }

  lemma PaidKeepsClaims(s: Store, payment: Payment, tx: TxId)
    requires ClaimsUnique(s.purchases, s.batches) && AllIn(s, payment, Verified) && !Claimed(s, payment, tx)
    requires payment !in s.batches ==> forall k :: k in UnitsOf(s.purchases, payment) ==> k.position == 0
    ensures ClaimsUnique(SetPaid(s.purchases, UnitsOf(s.purchases, payment), tx), SetBatchPaid(s.batches, payment, tx))
  {
    var ps, bs := SetPaid(s.purchases, UnitsOf(s.purchases, payment), tx), SetBatchPaid(s.batches, payment, tx);
    forall j, k | j in ps && k in ps && j.payment !in bs && k.payment !in bs && ps[j].tx.Some? && ps[j].tx == ps[k].tx
      ensures j == k
    {
      if j.payment == payment {
        assert j.position == 0;
      }
      if k.payment == payment {
        assert k.position == 0;
      }
    }
  }

  /** Real units of a payment that is about to settle have no ledger rows yet. */
  lemma NothingRecordedYet(s: Store, payment: Payment)
    requires BooksMatch(s.purchases, s.fees, s.shares) && AllIn(s, payment, Verified)
    ensures forall k :: k in UnitsOf(s.purchases, payment) ==> k !in s.fees && k !in s.shares
  {
  }

  lemma RowsSplitAmount(c: Catalog, p: Purchase)
    requires DesignerKnown(c, p)
    ensures FeeRow(c, p).amount + ShareRow(c, p).amount == p.amount && FeeRow(c, p).amount == FeeOn(p.amount)
    ensures FeeRow(c, p).asset == ShareRow(c, p).asset == p.asset && FeeRow(c, p).treasury == ShareRow(c, p).treasury
  {
  }

  lemma PaidKeepsBooks(s: Store, payment: Payment, tx: TxId)
    requires BooksMatch(s.purchases, s.fees, s.shares) && AllIn(s, payment, Verified)
    requires forall k :: k in s.purchases ==> DesignerKnown(s.catalog, s.purchases[k])
    ensures var t := WithRows(s.(purchases := SetPaid(s.purchases, UnitsOf(s.purchases, payment), tx)), UnitsOf(s.purchases, payment));
      BooksMatch(t.purchases, t.fees, t.shares)
  {
    var keys := UnitsOf(s.purchases, payment);
    var u := s.(purchases := SetPaid(s.purchases, keys, tx));
    var t := WithRows(u, keys);
    NothingRecordedYet(s, payment);
    var recorded := ToRecord(u, keys);
    forall k
      ensures k in recorded <==> k in keys && !s.purchases[k].sandbox
      ensures k in recorded ==> t.fees[k] == FeeRow(s.catalog, u.purchases[k]) && t.shares[k] == ShareRow(s.catalog, u.purchases[k])
      ensures k in recorded ==> t.fees[k].amount + t.shares[k].amount == t.purchases[k].amount
    {
      if k in recorded {
        RowsSplitAmount(s.catalog, u.purchases[k]);
      }
    }
  }

  lemma SettleKeepsSound(s: Store, payment: Payment, tx: TxId)
    requires Sound(s)
    ensures Sound(Settle(s, payment, tx))
  {
    if AllIn(s, payment, Verified) && !Claimed(s, payment, tx) {
      var keys := UnitsOf(s.purchases, payment);
      var t := Settle(s, payment, tx);
      assert t.purchases == SetPaid(s.purchases, keys, tx) && t.batches == SetBatchPaid(s.batches, payment, tx);
      PaidKeepsShape(s, payment, tx);
      PaidKeepsTerms(s, payment, tx);
      PaidKeepsBooks(s, payment, tx);
      PaidKeepsClaims(s, payment, tx);
    }
  }

  lemma PaidKeepsShape(s: Store, payment: Payment, tx: TxId)
    requires Shaped(s.catalog, s.purchases, s.batches)
    ensures Shaped(s.catalog, SetPaid(s.purchases, UnitsOf(s.purchases, payment), tx), SetBatchPaid(s.batches, payment, tx))
  {
    PaidKeepsBatches(s.purchases, s.batches, payment, tx);
  }

  lemma PaidKeepsTerms(s: Store, payment: Payment, tx: TxId)
    requires AllIn(s, payment, Verified) && WithinCapacity(s.catalog.offers, s.purchases)
    requires AllSerialsExact(s.purchases, s.licenses) && LicensesEarned(s.purchases, s.licenses)
    ensures var ps := SetPaid(s.purchases, UnitsOf(s.purchases, payment), tx);
      && WithinCapacity(s.catalog.offers, ps) && AllSerialsExact(ps, s.licenses) && LicensesEarned(ps, s.licenses)
  {
    var ps := SetPaid(s.purchases, UnitsOf(s.purchases, payment), tx);
    SameTermsKeepCapacity(s.catalog.offers, s.purchases, ps);
    SameLicensesKeepSerials(s.purchases, ps, s.licenses);
  }

  // ------------------------------------------------------------ the catalogue

  lemma CatalogChangeKeepsSound(s: Store, c: Catalog)
    requires Sound(s)
    requires Shaped(c, s.purchases, s.batches) && WithinCapacity(c.offers, s.purchases)
    ensures Sound(s.(catalog := c))
  {
  }
}
