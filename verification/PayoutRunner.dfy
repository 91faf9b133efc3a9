/** The payout runner and the attempt table as the code drives them: one object
    whose rows are rewritten in place, group after group, each call equal to a
    sequence of the atomic steps of `Payouts`. */
module PayoutRunner {
  import opened Wrappers
  import opened Sums
  import opened Ledger
  import opened Payouts
  import opened PayoutSelection

  datatype Paid = Paid(asset: Asset, tx: TxId)

  datatype RetryOutcome = NotRetryable | AlreadyResolved | Queued(purchases: set<PurchaseId>)

  // ------------------------------------------------- the run as a specification

  /** Every pending share's asset is still to come. */
  ghost predicate Covers(s: System, order: seq<Asset>, i: nat)
    requires i <= |order|
  {
    s.run.Some? && s.run.value.inflight.None?
    && forall p :: p in s.run.value.pending ==> p in s.shares && s.shares[p].asset in order[i..]
  }

  lemma NextGroup(s: System, order: seq<Asset>, i: nat)
    requires i < |order| && Covers(s, order, i)
    ensures Group(s, s.run.value.pending, order[i]) == {} ==> Covers(s, order, i + 1)
    ensures forall p :: p in s.run.value.pending && p !in Group(s, s.run.value.pending, order[i]) ==>
              s.shares[p].asset in order[i + 1..]
  {
    forall p | p in s.run.value.pending && p !in Group(s, s.run.value.pending, order[i])
      ensures s.shares[p].asset in order[i + 1..]
    {
      assert order[i..] == [order[i]] + order[i + 1..];
    }
  }

  ghost function AfterGroup(s: System, asset: Asset, reply: Reply, writes: Writes): System
    requires Enabled(s, Submit(asset, reply))
  {
    Step(Step(s, Submit(asset, reply)), Conclude(writes))
  }

  lemma AfterGroupIs(s: System, asset: Asset, reply: Reply, writes: Writes)
    requires Enabled(s, Submit(asset, reply))
    ensures var r, t := s.run.value, AfterGroup(s, asset, reply, writes);
      var group, settled := Group(s, r.pending, asset), reply.Success? && writes == Recorded;
      && t == s.(chain := t.chain, payouts := t.payouts, attempts := t.attempts,
                 run := if settled then Some(r.(pending := r.pending - group)) else None)
      && t.chain == Step(s, Submit(asset, reply)).chain
      && t.payouts == (if settled then Rows(s.shares, s.payouts, group, reply.tx) else s.payouts)
  {
  }

  lemma AfterGroupMarks(s: System, asset: Asset, reply: Reply, writes: Writes)
    requires Enabled(s, Submit(asset, reply))
    ensures var r := s.run.value;
      AfterGroup(s, asset, reply, writes).attempts
      == Outcome(s.attempts, Group(s, r.pending, asset), r.ref, r.automatic, reply, writes)
  {
  }

  /** What the loop over asset groups does from position `i` on: each non-empty
      group is submitted and concluded, the first failure ends the run. */
  ghost function PayGroups(s: System, order: seq<Asset>, replies: seq<Reply>, writes: seq<Writes>, i: nat): System
    requires |replies| == |writes| == |order| && i <= |order| && Covers(s, order, i)
    decreases |order| - i
  {
    if i == |order| then
      assert s.run.value.pending == {};
      Step(s, Finish)
    else
      NextGroup(s, order, i);
      if Group(s, s.run.value.pending, order[i]) == {} then PayGroups(s, order, replies, writes, i + 1)
      else
        var t := AfterGroup(s, order[i], replies[i], writes[i]);
        if t.run.None? then t else PayGroups(t, order, replies, writes, i + 1)
  }

  lemma PayGroupsStep(s: System, order: seq<Asset>, replies: seq<Reply>, writes: seq<Writes>, i: nat)
    requires |replies| == |writes| == |order| && i < |order| && Covers(s, order, i)
    requires Group(s, s.run.value.pending, order[i]) != {}
    ensures var t := AfterGroup(s, order[i], replies[i], writes[i]);
      && (t.run.None? ==> PayGroups(s, order, replies, writes, i) == t)
      && (t.run.Some? ==> Covers(t, order, i + 1)
                          && PayGroups(s, order, replies, writes, i) == PayGroups(t, order, replies, writes, i + 1))
  {
    NextGroup(s, order, i);
  }

  ghost predicate OrderCovers(s: System, ids: Option<set<PurchaseId>>, order: seq<Asset>) {
    forall p :: p in Eligible(s, ids) ==> s.shares[p].asset in order
  }

  lemma BeginCovers(s: System, ids: Option<set<PurchaseId>>, ref: Ref, automatic: bool, order: seq<Asset>)
    requires s.run.None? && OrderCovers(s, ids, order)
    ensures Covers(Step(s, Begin(ids, ref, automatic)), order, 0)
  {
    assert order[0..] == order;
  }

  /** No share under the ref is held for review while its designer's
      verification has lapsed. */
  ghost predicate Reviewable(s: System, ref: Ref) {
    forall p :: Quarantined(s.attempts, p) && s.attempts[p].ref == ref ==> s.attempts[p].designer in s.verified
  }

  /** An executed transfer leaves a trace: its reply is one of the named ones, and
      it is recorded or marked. */
  predicate Traced(reply: Reply, writes: Writes) {
    Executed(reply) ==> !reply.Unclassified? && writes != Unmarked
  }

  lemma OneGroupKeepsSafe(s: System, asset: Asset, reply: Reply, writes: Writes)
    requires Safe(s) && Enabled(s, Submit(asset, reply)) && Traced(reply, writes)
    requires Reviewable(s, s.run.value.ref)
    ensures var t := AfterGroup(s, asset, reply, writes);
      Safe(t) && (t.run.Some? ==> t.run.value.ref == s.run.value.ref && Reviewable(t, t.run.value.ref))
  {
    var u := Step(s, Submit(asset, reply));
    StepKeepsSafeExactly(s, Submit(asset, reply));
    StepKeepsSafeExactly(u, Conclude(writes));
    OneGroupKeepsReviewable(s, asset, reply, writes);
  }

  lemma OneGroupKeepsReviewable(s: System, asset: Asset, reply: Reply, writes: Writes)
    requires s.run.Some? && Enabled(s, Submit(asset, reply)) && Reviewable(s, s.run.value.ref)
    ensures var t := AfterGroup(s, asset, reply, writes);
      t.run.Some? ==> t.run.value.ref == s.run.value.ref && Reviewable(t, t.run.value.ref)
  {
  }

  /** The loop keeps the books safe when every executed transfer leaves a trace and
      no share under the ref belongs to a lapsed designer. */
  lemma {:induction false} PayGroupsKeepsSafe(s: System, order: seq<Asset>, replies: seq<Reply>, writes: seq<Writes>, i: nat)
    requires |replies| == |writes| == |order| && i <= |order| && Covers(s, order, i)
    requires Safe(s) && Reviewable(s, s.run.value.ref)
    requires forall j :: 0 <= j < |replies| ==> Traced(replies[j], writes[j])
    ensures Safe(PayGroups(s, order, replies, writes, i))
    decreases |order| - i
  {
    if i == |order| {
      FinishKeepsSafe(s, order, replies, writes);
    } else {
      NextGroup(s, order, i);
      if Group(s, s.run.value.pending, order[i]) == {} {
        PayGroupsKeepsSafe(s, order, replies, writes, i + 1);
      } else {
        OneGroupKeepsSafe(s, order[i], replies[i], writes[i]);
        PayGroupsStep(s, order, replies, writes, i);
        var t := AfterGroup(s, order[i], replies[i], writes[i]);
        if t.run.Some? {
          PayGroupsKeepsSafe(t, order, replies, writes, i + 1);
        }
      }
    }
  }

  lemma FinishKeepsSafe(s: System, order: seq<Asset>, replies: seq<Reply>, writes: seq<Writes>)
    requires |replies| == |writes| == |order| && Covers(s, order, |order|)
    requires Safe(s) && Reviewable(s, s.run.value.ref)
    ensures Safe(PayGroups(s, order, replies, writes, |order|))
  {
    assert s.run.value.pending == {};
    StepKeepsSafeExactly(s, Finish);
  }

  lemma LegsInsert(shares: map<PurchaseId, Share>, done: set<PurchaseId>, p: PurchaseId)
    requires done <= shares.Keys && p in shares && p !in done
    ensures var d := shares[p].designer;
      var before := Legs(shares, done);
      Legs(shares, done + {p}) == before[d := (if d in before then before[d] else 0) + shares[p].amount]
  {
    var d := shares[p].designer;
    var before, after := Legs(shares, done), Legs(shares, done + {p});
    assert Designers(shares, done + {p}) == Designers(shares, done) + {d};
    OwnLeg(shares, done, p);
    forall e | e in after && e != d
      ensures e in before && after[e] == before[e]
    {
      OtherLeg(shares, done, p, e);
    }
  }

  lemma OtherLeg(shares: map<PurchaseId, Share>, done: set<PurchaseId>, p: PurchaseId, e: DesignerId)
    requires done <= shares.Keys && p in shares && e != shares[p].designer && e in Legs(shares, done + {p})
    ensures e in Legs(shares, done) && Legs(shares, done + {p})[e] == Legs(shares, done)[e]
  {
    assert PartOf(shares, done + {p}, e) == PartOf(shares, done, e);
  }

  /** The designer's own leg grows by the share's amount. */
  lemma OwnLeg(shares: map<PurchaseId, Share>, done: set<PurchaseId>, p: PurchaseId)
    requires done <= shares.Keys && p in shares && p !in done
    ensures var d := shares[p].designer;
      && d in Legs(shares, done + {p})
      && Legs(shares, done + {p})[d] == (if d in Legs(shares, done) then Legs(shares, done)[d] else 0) + shares[p].amount
  {
    var d := shares[p].designer;
    var mine := PartOf(shares, done, d);
    assert p in done + {p};
    assert PartOf(shares, done + {p}, d) == mine + {p};
    assert Amounts(shares, mine + {p}) == Amounts(shares, mine)[p := shares[p].amount];
    TotalInsert(Amounts(shares, mine), p, shares[p].amount);
    if d !in Legs(shares, done) {
      assert mine == {};
      assert Amounts(shares, mine) == map[];
    }
  }

  /** The list names exactly the assets and transactions of the rows written
      between `before` and `after`. */
  ghost predicate ListsNewRows(before: map<PurchaseId, PayoutRow>, after: map<PurchaseId, PayoutRow>, paid: seq<Paid>) {
    && (forall p :: p in after && p !in before ==> Paid(after[p].asset, after[p].tx) in paid)
    && (forall x :: x in paid ==>
          exists p :: p in after && p !in before && after[p].asset == x.asset && after[p].tx == x.tx)
  }

  lemma ListExtends(before: map<PurchaseId, PayoutRow>, shares: map<PurchaseId, Share>, rows: map<PurchaseId, PayoutRow>,
                    group: set<PurchaseId>, asset: Asset, tx: TxId, paid: seq<Paid>)
    requires before.Keys <= rows.Keys && ListsNewRows(before, rows, paid)
    requires group <= shares.Keys && group !! rows.Keys && group != {}
    requires forall p :: p in group ==> shares[p].asset == asset
    ensures ListsNewRows(before, Rows(shares, rows, group, tx), paid + [Paid(asset, tx)])
  {
    var after := Rows(shares, rows, group, tx);
    var q :| q in group;
    assert after[q].asset == asset && after[q].tx == tx;
    forall x | x in paid + [Paid(asset, tx)]
      ensures exists p :: p in after && p !in before && after[p].asset == x.asset && after[p].tx == x.tx
    {
      if x in paid {
        var p :| p in rows && p !in before && rows[p].asset == x.asset && rows[p].tx == x.tx;
        assert p in after && after[p] == rows[p];
      }
    }
    assert Paid(asset, tx) in paid + [Paid(asset, tx)];
    assert forall x :: x in paid ==> x in paid + [Paid(asset, tx)];
  }

  // ------------------------------------------------ what a caller can hold it to

  /** The transfer pays each designer of the shares it covers their sum. */
  ghost predicate PaysItsShares(shares: map<PurchaseId, Share>, t: Transfer) {
    && t.covers != {} && (forall p :: p in t.covers ==> p in shares && shares[p].asset == t.asset)
    && (forall d :: d in t.legs <==> exists p :: p in t.covers && p in shares && shares[p].designer == d)
    && (forall d :: d in t.legs ==>
          t.legs[d] == Total(map p | p in t.covers && p in shares && shares[p].designer == d :: shares[p].amount))
  }

  /** The transfers added to `before` pay shares of `from`. */
  ghost predicate AddsTransfers(shares: map<PurchaseId, Share>, before: seq<Transfer>, after: seq<Transfer>, from: set<PurchaseId>) {
    && |before| <= |after| && after[..|before|] == before
    && (forall i :: |before| <= i < |after| ==> after[i].covers <= from && PaysItsShares(shares, after[i]))
  }

  /** The rows added to `before` pay shares of `from`, each its own amount. */
  ghost predicate AddsRows(shares: map<PurchaseId, Share>, before: map<PurchaseId, PayoutRow>, after: map<PurchaseId, PayoutRow>,
                           from: set<PurchaseId>) {
    && (forall p :: p in before ==> p in after && after[p] == before[p])
    && (forall p :: p in after && p !in before ==>
          p in from && p in shares && after[p].designer == shares[p].designer && after[p].asset == shares[p].asset
          && after[p].amount == shares[p].amount)
  }

  lemma SidecarAdds(shares: map<PurchaseId, Share>, chain: seq<Transfer>, asset: Asset, group: set<PurchaseId>, reply: Reply)
    requires group != {} && group <= shares.Keys && forall p :: p in group ==> shares[p].asset == asset
    ensures AddsTransfers(shares, chain,
                          if Executed(reply) then chain + [Transfer(reply.tx, asset, Legs(shares, group), group)] else chain, group)
  {
    if Executed(reply) {
      LegsPayShares(shares, Transfer(reply.tx, asset, Legs(shares, group), group));
    }
  }

  lemma LegsPayShares(shares: map<PurchaseId, Share>, t: Transfer)
    requires t.covers != {} && t.covers <= shares.Keys && t.legs == Legs(shares, t.covers)
    requires forall p :: p in t.covers ==> shares[p].asset == t.asset
    ensures PaysItsShares(shares, t)
  {
    forall d | d in t.legs
      ensures t.legs[d] == Total(map p | p in t.covers && p in shares && shares[p].designer == d :: shares[p].amount)
    {
      assert Amounts(shares, PartOf(shares, t.covers, d))
          == map p | p in t.covers && p in shares && shares[p].designer == d :: shares[p].amount;
    }
  }

  /** What `i` groups of the order have added: transfers and rows for shares of
      `entries`, of those groups' assets only. */
  ghost predicate Progress(shares: map<PurchaseId, Share>, chain: seq<Transfer>, rows: map<PurchaseId, PayoutRow>,
                           chainNow: seq<Transfer>, rowsNow: map<PurchaseId, PayoutRow>, entries: set<PurchaseId>, assets: seq<Asset>) {
    && AddsTransfers(shares, chain, chainNow, entries) && AddsRows(shares, rows, rowsNow, entries)
    && forall k :: |chain| <= k < |chainNow| ==> chainNow[k].asset in assets
  }

  lemma GroupProgress(shares: map<PurchaseId, Share>, a: seq<Transfer>, rowsA: map<PurchaseId, PayoutRow>,
                      b: seq<Transfer>, rowsB: map<PurchaseId, PayoutRow>, pending: set<PurchaseId>, group: set<PurchaseId>, asset: Asset)
    requires AddsTransfers(shares, a, b, group) && AddsRows(shares, rowsA, rowsB, group)
    requires group <= pending && forall p :: p in group ==> p in shares && shares[p].asset == asset
    ensures Progress(shares, a, rowsA, b, rowsB, pending, [asset])
  {
    forall k | |a| <= k < |b|
      ensures b[k].asset in [asset]
    {
      assert PaysItsShares(shares, b[k]);
      var p :| p in b[k].covers;
      assert p in group;
    }
  }

  lemma ProgressExtends(shares: map<PurchaseId, Share>, a: seq<Transfer>, rowsA: map<PurchaseId, PayoutRow>,
                        b: seq<Transfer>, rowsB: map<PurchaseId, PayoutRow>, c: seq<Transfer>, rowsC: map<PurchaseId, PayoutRow>,
                        entries: set<PurchaseId>, pending: set<PurchaseId>, order: seq<Asset>, i: nat)
    requires i < |order| && pending <= entries && Progress(shares, a, rowsA, b, rowsB, entries, order[..i])
    requires Progress(shares, b, rowsB, c, rowsC, pending, [order[i]])
    ensures Progress(shares, a, rowsA, c, rowsC, entries, order[..i + 1])
  {
    assert c[..|a|] == c[..|b|][..|a|];
    assert order[..i + 1] == order[..i] + [order[i]];
    forall k | |a| <= k < |c|
      ensures c[k].covers <= entries && PaysItsShares(shares, c[k]) && c[k].asset in order[..i + 1]
    {
      if k < |b| {
        assert c[k] == c[..|b|][k] == b[k];
      }
    }
  }

  /** The groups are sent in order, and none after one that did not settle. */
  ghost predicate StopsAtFailure(order: seq<Asset>, replies: seq<Reply>, writes: seq<Writes>, before: seq<Transfer>, after: seq<Transfer>)
    requires |replies| == |writes| == |order|
  {
    exists i :: 0 <= i < |order| && !(replies[i].Success? && writes[i] == Recorded)
                && forall k :: |before| <= k < |after| ==> after[k].asset in order[..i + 1]
  }

  /** The two attempts failed in one group, with one error. */
  ghost predicate FailedTogether(attempts: map<PurchaseId, Attempt>, p: PurchaseId, q: PurchaseId)
    requires p in attempts && q in attempts
  {
    && attempts[q].designer == attempts[p].designer && attempts[q].ref == attempts[p].ref && attempts[q].asset == attempts[p].asset
    && attempts[q].status == Failed && attempts[q].error == attempts[p].error
  }

  /** What one answer leaves of the attempts. */
  ghost predicate AttemptsFollow(before: map<PurchaseId, Attempt>, after: map<PurchaseId, Attempt>, group: set<PurchaseId>, ref: Ref,
                                 automatic: bool, reply: Reply, writes: Writes) {
    after.Keys == before.Keys
    && forall q :: q in before ==>
         var waiting := before[q].ref == ref && before[q].status == Processing;
         after[q] ==
           if writes == Unmarked || reply.Unclassified? then before[q]
           else if reply.Unavailable? then
             if waiting then before[q].(status := if automatic then Retrying else Failed, error := ServiceUnavailable) else before[q]
           else if reply.Success? then
             if q !in group then before[q]
             else if writes == Recorded then before[q].(status := Succeeded, error := NoError, tx := Some(reply.tx))
             else before[q].(status := ReconciliationRequired, error := LedgerRecordingFailed, tx := Some(reply.tx))
           else if q in group then
             if reply.Ambiguous? then before[q].(status := ReconciliationRequired, error := AmbiguousResult, tx := None)
             else before[q].(status := Failed, error := TransferRejected, tx := None)
           else if waiting then before[q].(status := Failed, error := NotSubmitted)
           else before[q]
  }

  function Outcome(before: map<PurchaseId, Attempt>, group: set<PurchaseId>, ref: Ref, automatic: bool, reply: Reply, writes: Writes)
    : map<PurchaseId, Attempt>
  {
    if writes == Unmarked then before
    else
      match reply
      case Success(tx) =>
        if writes == Recorded then SucceedAll(before, group, tx)
        else FailEntries(before, group, ReconciliationRequired, LedgerRecordingFailed, Some(tx))
      case Unavailable => FailRemaining(before, ref, if automatic then Retrying else Failed, ServiceUnavailable)
      case Ambiguous(_, _) =>
        FailRemaining(FailEntries(before, group, ReconciliationRequired, AmbiguousResult, None), ref, Failed, NotSubmitted)
      case Rejected =>
        FailRemaining(FailEntries(before, group, Failed, TransferRejected, None), ref, Failed, NotSubmitted)
      case Unclassified(_, _) => before
  }

  class PayoutLedger {
    var shares: map<PurchaseId, Share>
    var payouts: map<PurchaseId, PayoutRow>
    var attempts: map<PurchaseId, Attempt>
    var verified: set<DesignerId>
    /** What the network has executed; no code here can read it. */
    ghost var chain: seq<Transfer>

    constructor ()
      ensures Db() == EMPTY
    {
      shares, payouts, attempts, verified, chain := map[], map[], map[], {}, [];
    }

    /** The database and the chain, with the advisory lock free. */
    ghost function Db(): System
      reads this
    {
      System(shares, payouts, attempts, verified, None, chain)
    }

    /** PayoutAttempt.start!: one row per entry, created or reused. */
    method StartAttempts(entries: set<PurchaseId>, ref: Ref)
      requires entries <= shares.Keys
      modifies this`attempts
      ensures attempts == StartAll(old(Db()), entries, ref)
      ensures attempts.Keys == old(attempts).Keys + entries
      ensures forall p :: p in old(attempts) && p !in entries ==> attempts[p] == old(attempts)[p]
      ensures forall p :: p in entries ==>
        attempts[p] == Attempt(shares[p].designer, ref, shares[p].asset, Processing,
                               if p in old(attempts) then old(attempts)[p].count + 1 else 1, NoError, None)
    {
      var todo := entries;
      ghost var done: set<PurchaseId> := {};
      while todo != {}
        invariant done !! todo && done + todo == entries
        invariant attempts == StartAll(old(Db()), done, ref)
        decreases todo
      {
        var p :| p in todo;
        var count := if p in attempts then attempts[p].count + 1 else 1;
        attempts := attempts[p := Attempt(shares[p].designer, ref, shares[p].asset, Processing, count, NoError, None)];
        todo, done := todo - {p}, done + {p};
      }
    }

    /** PayoutAttempt.reconcile_ref!: visits each unresolved row under the ref. */
    method Reconcile(ref: Ref, designer: Option<DesignerId>)
      modifies this`attempts
      ensures attempts == ReconcileRef(old(Db()), ref, designer)
      ensures attempts.Keys == old(attempts).Keys
      ensures forall p :: p in attempts ==>
        var a := old(attempts)[p];
        attempts[p] ==
          if a.status == Succeeded || a.ref != ref || (designer.Some? && a.designer != designer.value) then a
          else if p in payouts then a.(status := Succeeded, error := NoError, tx := Some(payouts[p].tx))
          else if a.designer !in verified then a.(status := Failed, error := DestinationNotReady)
          else a
    {
      var todo := set p | p in attempts && InReconcileScope(attempts[p], ref, designer);
      ghost var scope := todo;
      ghost var before := attempts;
      while todo != {}
        invariant todo <= scope
        invariant attempts.Keys == before.Keys
        invariant forall p :: p in attempts ==>
          attempts[p] == if p in scope && p !in todo then ReconcileOne(old(Db()), p) else before[p]
        decreases todo
      {
        var p :| p in todo;
        if p in payouts {
          attempts := attempts[p := attempts[p].(status := Succeeded, error := NoError, tx := Some(payouts[p].tx))];
        } else if attempts[p].designer !in verified {
          attempts := attempts[p := attempts[p].(status := Failed, error := DestinationNotReady)];
        }
        todo := todo - {p};
      }
    }

    /** One leg per designer, summed share by share. */
    method BuildTransfers(group: set<PurchaseId>) returns (legs: map<DesignerId, nat>)
      requires group <= shares.Keys
      ensures legs == Legs(shares, group)
    {
      legs := map[];
      var todo := group;
      ghost var done: set<PurchaseId> := {};
      assert legs == Legs(shares, {});
      while todo != {}
        invariant done !! todo && done + todo == group
        invariant legs == Legs(shares, done)
        decreases todo
      {
        var p :| p in todo;
        var d := shares[p].designer;
        LegsInsert(shares, done, p);
        legs := legs[d := (if d in legs then legs[d] else 0) + shares[p].amount];
        todo, done := todo - {p}, done + {p};
      }
      assert done == group;
    }

    /** The sidecar: it may execute the transfer whatever the caller is told. */
    method CallSidecar(asset: Asset, legs: map<DesignerId, nat>, ghost group: set<PurchaseId>, reply: Reply)
      modifies this`chain
      ensures chain == if Executed(reply) then old(chain) + [Transfer(reply.tx, asset, legs, group)] else old(chain)
    {
      if Executed(reply) {
        chain := chain + [Transfer(reply.tx, asset, legs, group)];
      }
    }

    /** Writes one payout row per entry of a settled group. */
    method RecordPayouts(group: set<PurchaseId>, tx: TxId)
      requires group <= shares.Keys && group !! payouts.Keys
      modifies this`payouts
      ensures payouts == Rows(shares, old(payouts), group, tx)
    {
      var todo := group;
      ghost var done: set<PurchaseId> := {};
      while todo != {}
        invariant done !! todo && done + todo == group
        invariant payouts == Rows(shares, old(payouts), done, tx)
        decreases todo
      {
        var p :| p in todo;
        var share := shares[p];
        payouts := payouts[p := PayoutRow(share.designer, share.asset, share.amount, tx)];
        todo, done := todo - {p}, done + {p};
      }
      assert done == group;
    }

    /** The same database seen from inside a run. */
    ghost function During(ref: Ref, automatic: bool, pending: set<PurchaseId>): System
      reads this
    {
      Db().(run := Some(Run(ref, automatic, pending, None)))
    }

    /** One asset group: transfer, then record it or mark its attempts. */
    method PayGroup(ref: Ref, automatic: bool, ghost pending: set<PurchaseId>, asset: Asset, group: set<PurchaseId>,
                    reply: Reply, writes: Writes)
      returns (settled: bool)
      requires pending <= shares.Keys && pending !! payouts.Keys
      requires group == Group(Db(), pending, asset) && group != {}
      modifies this
      ensures shares == old(shares) && verified == old(verified)
      ensures settled <==> reply.Success? && writes == Recorded
      ensures var after := AfterGroup(old(During(ref, automatic, pending)), asset, reply, writes);
        if settled then During(ref, automatic, pending - group) == after else Db() == after
      ensures if settled then payouts == Rows(shares, old(payouts), group, reply.tx) else payouts == old(payouts)
      ensures AddsTransfers(shares, old(chain), chain, group) && AttemptsFollow(old(attempts), attempts, group, ref, automatic, reply, writes)
      ensures |chain| == |old(chain)| + (if reply.Success? || ((reply.Ambiguous? || reply.Unclassified?) && reply.applied) then 1 else 0)
    {
      AfterGroupIs(During(ref, automatic, pending), asset, reply, writes);
      AfterGroupMarks(During(ref, automatic, pending), asset, reply, writes);
      SidecarAdds(shares, chain, asset, group, reply);
      var legs := BuildTransfers(group);
      CallSidecar(asset, legs, group, reply);
      assert chain == Step(old(During(ref, automatic, pending)), Submit(asset, reply)).chain;
      settled := WriteOutcome(ref, automatic, group, reply, writes);
    }

    /** The rows of a settled group, or the marks of any other outcome. */
    method WriteOutcome(ref: Ref, automatic: bool, group: set<PurchaseId>, reply: Reply, writes: Writes) returns (settled: bool)
      requires group <= shares.Keys && group !! payouts.Keys
      modifies this`payouts, this`attempts
      ensures settled <==> reply.Success? && writes == Recorded
      ensures payouts == if settled then Rows(shares, old(payouts), group, reply.tx) else old(payouts)
      ensures attempts == Outcome(old(attempts), group, ref, automatic, reply, writes)
      ensures AttemptsFollow(old(attempts), attempts, group, ref, automatic, reply, writes)
    {
      settled := false;
      if writes == Unmarked {
        return;
      }
      match reply
      case Success(tx) =>
        if writes == Recorded {
          RecordPayouts(group, tx);
          attempts := SucceedAll(attempts, group, tx);
          settled := true;
        } else {
          attempts := FailEntries(attempts, group, ReconciliationRequired, LedgerRecordingFailed, Some(tx));
        }
      case Unavailable =>
        attempts := FailRemaining(attempts, ref, if automatic then Retrying else Failed, ServiceUnavailable);
      case Ambiguous(_, _) =>
        attempts := FailEntries(attempts, group, ReconciliationRequired, AmbiguousResult, None);
        attempts := FailRemaining(attempts, ref, Failed, NotSubmitted);
      case Rejected =>
        attempts := FailEntries(attempts, group, Failed, TransferRejected, None);
        attempts := FailRemaining(attempts, ref, Failed, NotSubmitted);
      case Unclassified(_, _) =>
    }

    /** A group that settles adds its asset and transaction to the result. */
    method PayAndList(ref: Ref, automatic: bool, ghost pending: set<PurchaseId>, asset: Asset, group: set<PurchaseId>,
                      reply: Reply, writes: Writes, paid: seq<Paid>, ghost first: map<PurchaseId, PayoutRow>)
      returns (raised: bool, list: seq<Paid>)
      requires pending <= shares.Keys && pending !! payouts.Keys
      requires group == Group(Db(), pending, asset) && group != {}
      requires first.Keys <= payouts.Keys && ListsNewRows(first, payouts, paid)
      modifies this
      ensures shares == old(shares) && ListsNewRows(first, payouts, list)
      ensures payouts.Keys == if raised then old(payouts).Keys else old(payouts).Keys + group
      ensures var after := AfterGroup(old(During(ref, automatic, pending)), asset, reply, writes);
        if raised then Db() == after else During(ref, automatic, pending - group) == after
      ensures Progress(shares, old(chain), old(payouts), chain, payouts, pending, [asset])
      ensures verified == old(verified) && (raised <==> !(reply.Success? && writes == Recorded))
    {
      var settled := PayGroup(ref, automatic, pending, asset, group, reply, writes);
      raised, list := !settled, paid;
      if settled {
        ListExtends(first, shares, old(payouts), group, asset, reply.tx, paid);
        list := paid + [Paid(asset, reply.tx)];
      }
      GroupProgress(shares, old(chain), old(payouts), chain, payouts, pending, group, asset);
    }

    /** One position of the loop over asset groups. */
    method PayPosition(ref: Ref, automatic: bool, pending: set<PurchaseId>, order: seq<Asset>, replies: seq<Reply>,
                       writes: seq<Writes>, i: nat, paid: seq<Paid>, ghost first: map<PurchaseId, PayoutRow>)
      returns (left: set<PurchaseId>, list: seq<Paid>, raised: bool)
      requires |replies| == |writes| == |order| && i < |order|
      requires pending <= shares.Keys && pending !! payouts.Keys
      requires Covers(During(ref, automatic, pending), order, i)
      requires first.Keys <= payouts.Keys && ListsNewRows(first, payouts, paid)
      modifies this
      ensures left <= pending && left <= shares.Keys && left !! payouts.Keys
      ensures payouts.Keys == old(payouts).Keys + (pending - left) && ListsNewRows(first, payouts, list)
      ensures !raised ==> Covers(During(ref, automatic, left), order, i + 1)
      ensures PayGroups(old(During(ref, automatic, pending)), order, replies, writes, i)
           == if raised then Db() else PayGroups(During(ref, automatic, left), order, replies, writes, i + 1)
      ensures shares == old(shares) && verified == old(verified)
      ensures Progress(shares, old(chain), old(payouts), chain, payouts, pending, [order[i]])
      ensures raised ==> !(replies[i].Success? && writes[i] == Recorded)
    {
      var asset := order[i];
      var group := set p | p in pending && shares[p].asset == asset;
      assert group == Group(During(ref, automatic, pending), pending, asset);
      NextGroup(During(ref, automatic, pending), order, i);
      if group == {} {
        return pending, paid, false;
      }
      PayGroupsStep(During(ref, automatic, pending), order, replies, writes, i);
      raised, list := PayAndList(ref, automatic, pending, asset, group, replies[i], writes[i], paid, first);
      left := if raised then pending else pending - group;
      assert pending - left == if raised then {} else group;
    }

    /** The loop over asset groups, ended by the first failure or by reconciling
        the ref. */
    method PayGroupsInOrder(ref: Ref, automatic: bool, entries: set<PurchaseId>,
                            order: seq<Asset>, replies: seq<Reply>, writes: seq<Writes>)
      returns (paid: seq<Paid>, raised: bool)
      requires |replies| == |writes| == |order|
      requires entries <= shares.Keys && entries !! payouts.Keys
      requires Covers(During(ref, automatic, entries), order, 0)
      modifies this
      ensures Db() == PayGroups(old(During(ref, automatic, entries)), order, replies, writes, 0)
      ensures ListsNewRows(old(payouts), payouts, paid) && (!raised ==> payouts.Keys == old(payouts).Keys + entries)
      ensures shares == old(shares) && verified == old(verified)
      ensures Progress(shares, old(chain), old(payouts), chain, payouts, entries, order)
      ensures raised ==> StopsAtFailure(order, replies, writes, old(chain), chain)
    {
      var pending := entries;
      paid, raised := [], false;
      var i := 0;
      while i < |order|
        invariant i <= |order| && !raised
        invariant pending <= entries && pending <= shares.Keys && pending !! payouts.Keys
        invariant payouts.Keys == old(payouts).Keys + (entries - pending)
        invariant ListsNewRows(old(payouts), payouts, paid)
        invariant Covers(During(ref, automatic, pending), order, i)
        invariant shares == old(shares) && verified == old(verified)
        invariant Progress(shares, old(chain), old(payouts), chain, payouts, entries, order[..i])
        invariant PayGroups(During(ref, automatic, pending), order, replies, writes, i)
               == PayGroups(old(During(ref, automatic, entries)), order, replies, writes, 0)
      {
        ghost var before, sent := (chain, payouts), pending;
        pending, paid, raised := PayPosition(ref, automatic, pending, order, replies, writes, i, paid, old(payouts));
        ProgressExtends(shares, old(chain), old(payouts), before.0, before.1, chain, payouts, entries, sent, order, i);
        if raised {
          return;
        }
        i := i + 1;
      }
      assert pending == {} && order[..i] == order;
      Reconcile(ref, None);
    }

    /** PayoutRunner.run under the advisory lock. `order` is the order in which
        the query's rows group into assets; `replies` and `writes` are what the
        sidecar and the database answer for each group. */
    method PayOut(ids: Option<set<PurchaseId>>, ref: Ref, automatic: bool,
                  order: seq<Asset>, replies: seq<Reply>, writes: seq<Writes>)
      returns (paid: seq<Paid>, raised: bool)
      requires |replies| == |writes| == |order|
      requires OrderCovers(Db(), ids, order)
      modifies this
      ensures Covers(Step(old(Db()), Begin(ids, ref, automatic)), order, 0)
      ensures Db() == PayGroups(Step(old(Db()), Begin(ids, ref, automatic)), order, replies, writes, 0)
      ensures ListsNewRows(old(payouts), payouts, paid)
      ensures shares == old(shares) && verified == old(verified)
      ensures forall p :: p in old(payouts) ==> p in payouts && payouts[p] == old(payouts)[p]
      ensures forall p :: p in payouts && p !in old(payouts) ==>
        && Payable(old(Db()), ids, p)
        && payouts[p] == PayoutRow(shares[p].designer, shares[p].asset, shares[p].amount, payouts[p].tx)
      ensures |old(chain)| <= |chain| && chain[..|old(chain)|] == old(chain)
      ensures forall i :: |old(chain)| <= i < |chain| ==>
        PaysItsShares(shares, chain[i]) && forall p :: p in chain[i].covers ==> Payable(old(Db()), ids, p)
      ensures !raised ==> forall p :: Payable(old(Db()), ids, p) ==> p in payouts
      ensures raised ==> StopsAtFailure(order, replies, writes, old(chain), chain)
    {
      BeginCovers(Db(), ids, ref, automatic, order);
      var entries := set p | p in shares && shares[p].treasury && p !in payouts && (ids.None? || p in ids.value)
                             && !Quarantined(attempts, p) && shares[p].designer in verified;
      assert entries == Eligible(Db(), ids);
      assert forall p :: p in entries <==> Payable(old(Db()), ids, p);
      StartAttempts(entries, ref);
      paid, raised := PayGroupsInOrder(ref, automatic, entries, order, replies, writes);
    }

    /** PayoutAttempt.exhaust!, when the job has used up its retries. */
    method Exhaust(ref: Ref)
      modifies this`attempts
      ensures Db() == Step(old(Db()), Event.Exhaust(ref))
      ensures attempts.Keys == old(attempts).Keys
      ensures forall q :: q in attempts ==>
        attempts[q] == if old(attempts)[q].ref == ref && old(attempts)[q].status == Retrying
                       then old(attempts)[q].(status := Failed, error := ServiceUnavailable) else old(attempts)[q]
    {
      attempts := ExhaustRef(attempts, ref);
    }

    /** The designer's retry: re-queues a failed group, or resolves what is paid. */
    method RetryFailed(p: PurchaseId) returns (outcome: RetryOutcome)
      requires p in attempts
      modifies this`attempts
      ensures Db() == Step(old(Db()), Retry(p))
      ensures outcome.NotRetryable? <==>
        !(old(attempts[p]).status == Failed && (old(attempts[p]).error == ServiceUnavailable || old(attempts[p]).error == NotSubmitted))
      ensures outcome.NotRetryable? ==> attempts == old(attempts)
      ensures outcome.Queued? ==>
        && outcome.purchases != {}
        && (forall q :: q in outcome.purchases <==>
              q in shares && shares[q].treasury && q !in payouts && q in old(attempts) && FailedTogether(old(attempts), p, q)
              && shares[q].designer == old(attempts[p]).designer && shares[q].asset == old(attempts[p]).asset)
        && attempts.Keys == old(attempts).Keys
        && (forall q :: q in attempts ==>
              attempts[q] == if FailedTogether(old(attempts), p, q) then old(attempts)[q].(status := Retrying) else old(attempts)[q])
      ensures outcome.AlreadyResolved? ==>
        forall q :: q in attempts && attempts[q] != old(attempts)[q] ==>
          old(attempts)[q].designer == old(attempts[p]).designer && old(attempts)[q].ref == old(attempts[p]).ref
          && (attempts[q].status == Succeeded <==> q in payouts)
    {
      var attempt := attempts[p];
      if !Retryable(attempt) {
        return NotRetryable;
      }
      var group := set q | q in attempts && attempts[q].designer == attempt.designer && attempts[q].ref == attempt.ref
                           && attempts[q].asset == attempt.asset && attempts[q].status == Failed && attempts[q].error == attempt.error;
      assert group == RetryGroup(Db(), p);
      var purchases := set q | q in group && q in shares && shares[q].treasury && q !in payouts
                               && shares[q].designer == attempt.designer && shares[q].asset == attempt.asset;
      assert purchases == RetryPurchases(Db(), p);
      if purchases == {} {
        Reconcile(attempt.ref, Some(attempt.designer));
        return AlreadyResolved;
      }
      attempts := map q | q in attempts :: if q in group then attempts[q].(status := Retrying) else attempts[q];
      return Queued(purchases);
    }
  }
}
