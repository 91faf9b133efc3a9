/** Conservation of the payout books: what a transfer sends is what its rows
    record, and what the treasury owes and has paid adds up to what it holds. */
module PayoutBooks {
  import opened Wrappers
  import opened Sums
  import opened Ledger
  import opened Payouts

  ghost function RowAmounts(payouts: map<PurchaseId, PayoutRow>, ps: set<PurchaseId>): map<PurchaseId, nat>
    requires ps <= payouts.Keys
  {
    map p | p in ps :: payouts[p].amount
  }

  lemma AmountsSplit(shares: map<PurchaseId, Share>, a: set<PurchaseId>, b: set<PurchaseId>)
    requires a <= shares.Keys && b <= shares.Keys && a !! b
    ensures Total(Amounts(shares, a + b)) == Total(Amounts(shares, a)) + Total(Amounts(shares, b))
  {
    TotalUnion(Amounts(shares, a), Amounts(shares, b));
    assert Amounts(shares, a) + Amounts(shares, b) == Amounts(shares, a + b);
  }

  lemma LegsWithout(shares: map<PurchaseId, Share>, group: set<PurchaseId>, d: DesignerId)
    requires group <= shares.Keys && d in Designers(shares, group)
    ensures var rest := group - PartOf(shares, group, d);
      Legs(shares, rest) == Legs(shares, group) - {d}
  {
    var rest := group - PartOf(shares, group, d);
    assert Designers(shares, rest) == Designers(shares, group) - {d};
    forall e | e in Designers(shares, rest)
      ensures Legs(shares, rest)[e] == Legs(shares, group)[e]
    {
      assert PartOf(shares, rest, e) == PartOf(shares, group, e);
    }
  }

  /** The legs of a transfer sum to the shares it covers. */
  lemma {:induction false} LegsTotal(shares: map<PurchaseId, Share>, group: set<PurchaseId>)
    requires group <= shares.Keys
    ensures Total(Legs(shares, group)) == Total(Amounts(shares, group))
    decreases |group|
  {
    if group == {} {
      assert Legs(shares, group) == map[];
      assert Amounts(shares, group) == map[];
    } else {
      var p :| p in group;
      var d := shares[p].designer;
      var mine := PartOf(shares, group, d);
      var rest := group - mine;
      assert p in mine;
      LegsTotal(shares, rest);
      LegsWithout(shares, group, d);
      TotalRemove(Legs(shares, group), d);
      AmountsSplit(shares, rest, mine);
      assert rest + mine == group;
    }
  }

  /** A recorded group's payout rows sum to exactly the transfer that paid it. */
  lemma RecordedRowsEqualTransfer(s: System)
    requires Safe(s) && Enabled(s, Conclude(Recorded)) && s.run.value.inflight.value.reply.Success?
    ensures var t := Step(s, Conclude(Recorded));
      var group := s.run.value.inflight.value.group;
      && t.payouts.Keys == s.payouts.Keys + group && s.payouts.Keys !! group
      && exists i :: 0 <= i < |t.chain| && t.chain[i].covers == group
                     && Total(t.chain[i].legs) == Total(RowAmounts(t.payouts, group))
  {
    var t := Step(s, Conclude(Recorded));
    var f := s.run.value.inflight.value;
    var i :| 0 <= i < |s.chain| && s.chain[i].covers == f.group;
    LegsTotal(s.shares, f.group);
    RecordedAmounts(s);
  }

  lemma RecordedAmounts(s: System)
    requires Safe(s) && Enabled(s, Conclude(Recorded)) && s.run.value.inflight.value.reply.Success?
    ensures var f := s.run.value.inflight.value;
      f.group <= s.shares.Keys && f.group <= Step(s, Conclude(Recorded)).payouts.Keys
      && RowAmounts(Step(s, Conclude(Recorded)).payouts, f.group) == Amounts(s.shares, f.group)
  {
  }

  ghost function InTreasury(s: System, asset: Asset): set<PurchaseId> {
    set p | p in s.shares && s.shares[p].treasury && s.shares[p].asset == asset
  }

  ghost function OwedIn(s: System, asset: Asset): set<PurchaseId> {
    set p | p in Owed(s) && s.shares[p].asset == asset
  }

  ghost function PaidIn(s: System, asset: Asset): set<PurchaseId> {
    set p | p in s.payouts && s.payouts[p].asset == asset
  }

  lemma PaidAmounts(s: System, asset: Asset)
    requires Safe(s)
    ensures PaidIn(s, asset) <= s.shares.Keys
    ensures RowAmounts(s.payouts, PaidIn(s, asset)) == Amounts(s.shares, PaidIn(s, asset))
  {
  }

  /** Per asset, treasury-held designer shares equal what is owed plus what was paid. */
  lemma TreasuryBalances(s: System, asset: Asset)
    requires Safe(s)
    ensures Total(Amounts(s.shares, InTreasury(s, asset)))
         == Total(Amounts(s.shares, OwedIn(s, asset))) + Total(RowAmounts(s.payouts, PaidIn(s, asset)))
  {
    assert InTreasury(s, asset) == OwedIn(s, asset) + PaidIn(s, asset);
    PaidAmounts(s, asset);
    AmountsSplit(s.shares, OwedIn(s, asset), PaidIn(s, asset));
  }

  /** What one asset's transfers have moved in all. */
  ghost function Moved(chain: seq<Transfer>, asset: Asset): nat {
    if chain == [] then 0
    else Moved(chain[..|chain| - 1], asset)
         + (if chain[|chain| - 1].asset == asset then Total(chain[|chain| - 1].legs) else 0)
  }

  ghost function MovedShares(s: System, asset: Asset): set<PurchaseId> {
    set p | p in s.shares && s.shares[p].asset == asset && TimesMoved(s.chain, p) > 0
  }

  lemma {:induction false} MovedTotal(shares: map<PurchaseId, Share>, chain: seq<Transfer>, asset: Asset)
    requires ChainMatchesShares(shares, chain)
    requires forall p :: TimesMoved(chain, p) <= 1
    ensures Moved(chain, asset) == Total(Amounts(shares, MovedShares(EMPTY.(shares := shares, chain := chain), asset)))
  {
    var s := EMPTY.(shares := shares, chain := chain);
    if chain == [] {
      assert Amounts(shares, MovedShares(s, asset)) == map[];
    } else {
      var front, last := chain[..|chain| - 1], chain[|chain| - 1];
      var t := EMPTY.(shares := shares, chain := front);
      assert chain == front + [last];
      forall p
        ensures TimesMoved(chain, p) == TimesMoved(front, p) + (if p in last.covers then 1 else 0)
      {
        MovedByAppend(front, last, p);
      }
      forall i | 0 <= i < |front|
        ensures front[i] == chain[i] && front[i].covers <= shares.Keys
      {
        assert front[i] == s.chain[i];
      }
      assert last == s.chain[|front|];
      MovedTotal(shares, front, asset);
      LegsTotal(shares, last.covers);
      var before := MovedShares(t, asset);
      if last.asset == asset {
        AmountsSplit(shares, before, last.covers);
        assert MovedShares(s, asset) == before + last.covers;
      } else {
        assert MovedShares(s, asset) == before;
      }
    }
  }

  /** Per asset, all money that ever left for designers equals the recorded
      payouts plus the shares held for review or in the submitted group. */
  lemma ChainBalances(s: System, asset: Asset)
    requires Safe(s)
    ensures var unrecorded := set p | p in MovedShares(s, asset) && p !in s.payouts;
      && Moved(s.chain, asset) == Total(RowAmounts(s.payouts, PaidIn(s, asset))) + Total(Amounts(s.shares, unrecorded))
      && (forall p :: p in unrecorded ==> Quarantined(s.attempts, p) || Accounted(s, p))
  {
    var unrecorded := set p | p in MovedShares(s, asset) && p !in s.payouts;
    MovedTotal(s.shares, s.chain, asset);
    assert MovedShares(EMPTY.(shares := s.shares, chain := s.chain), asset) == MovedShares(s, asset);
    forall p | p in PaidIn(s, asset)
      ensures p in MovedShares(s, asset)
    {
      var i :| 0 <= i < |s.chain| && p in s.chain[i].covers && s.chain[i].tx == s.payouts[p].tx;
      CoveredIsMoved(s.chain, i, p);
    }
    assert MovedShares(s, asset) == PaidIn(s, asset) + unrecorded;
    PaidAmounts(s, asset);
    AmountsSplit(s.shares, PaidIn(s, asset), unrecorded);
  }
}
