/** The payout protocol: owed designer shares, payout attempts, the sidecar that
    may move money and lose the reply, and the advisory lock that lets one run
    hold the books at a time. Settlements, verification changes and job
    exhaustion do not take that lock and may fall between any two steps. */
module Payouts {
  import opened Wrappers
  import opened Sums
  import opened Ledger

  type Ref = nat

  /** A designer_payout row. */
  datatype PayoutRow = PayoutRow(designer: DesignerId, asset: Asset, amount: nat, tx: TxId)

  datatype Status = Processing | Retrying | Failed | ReconciliationRequired | Succeeded

  datatype ErrorCode =
    | NoError
    | ServiceUnavailable
    | NotSubmitted
    | TransferRejected
    | AmbiguousResult
    | LedgerRecordingFailed
    | DestinationNotReady

  datatype Attempt = Attempt(designer: DesignerId, ref: Ref, asset: Asset, status: Status,
                             count: nat, error: ErrorCode, tx: Option<TxId>)

  /** One executed transfer: what each designer received and which shares it covered. */
  datatype Transfer = Transfer(tx: TxId, asset: Asset, legs: map<DesignerId, nat>, covers: set<PurchaseId>)

  /** What the sidecar call ends in. `Unclassified` is any error outside the
      three the runner rescues by name, raised before a transaction id is known. */
  datatype Reply =
    | Success(tx: TxId)
    | Unavailable
    | Rejected
    | Ambiguous(applied: bool, tx: TxId)
    | Unclassified(applied: bool, tx: TxId)

  /** What the database does once the sidecar has answered: the rows of a settled
      group are recorded; or they are not, and the attempts are marked with the
      outcome; or an outage fails the marking too. */
  datatype Writes = Recorded | Marked | Unmarked

  datatype Inflight = Inflight(asset: Asset, group: set<PurchaseId>, reply: Reply)

  /** The run that holds the advisory lock: `pending` is its snapshot of eligible
      shares, less the asset groups already recorded. */
  datatype Run = Run(ref: Ref, automatic: bool, pending: set<PurchaseId>, inflight: Option<Inflight>)

  datatype System = System(
    shares: map<PurchaseId, Share>,
    payouts: map<PurchaseId, PayoutRow>,
    attempts: map<PurchaseId, Attempt>,
    verified: set<DesignerId>,
    run: Option<Run>,
    chain: seq<Transfer>)

  const EMPTY := System(map[], map[], map[], {}, None, [])

  // ---------------------------------------------------------------- queries

  function Owed(s: System): set<PurchaseId> {
    set p | p in s.shares && s.shares[p].treasury && p !in s.payouts
  }

  predicate Quarantined(attempts: map<PurchaseId, Attempt>, p: PurchaseId) {
    p in attempts && attempts[p].status == ReconciliationRequired
  }

  /** The shares a run selects: owed, in its scope, not awaiting reconciliation,
      and owned by a designer whose payout account is verified. */
  function Eligible(s: System, ids: Option<set<PurchaseId>>): set<PurchaseId> {
    set p | p in Owed(s) && (ids.None? || p in ids.value)
            && !Quarantined(s.attempts, p) && s.shares[p].designer in s.verified
  }

  function Group(s: System, pending: set<PurchaseId>, asset: Asset): set<PurchaseId> {
    set p | p in pending && p in s.shares && s.shares[p].asset == asset
  }

  predicate Retryable(a: Attempt) {
    a.status == Failed && (a.error == ServiceUnavailable || a.error == NotSubmitted)
  }

  ghost function Amounts(shares: map<PurchaseId, Share>, ps: set<PurchaseId>): map<PurchaseId, nat>
    requires ps <= shares.Keys
  {
    map p | p in ps :: shares[p].amount
  }

  ghost function Designers(shares: map<PurchaseId, Share>, group: set<PurchaseId>): set<DesignerId>
    requires group <= shares.Keys
  {
    set p | p in group :: shares[p].designer
  }

  ghost function PartOf(shares: map<PurchaseId, Share>, group: set<PurchaseId>, d: DesignerId): set<PurchaseId>
    requires group <= shares.Keys
  {
    set p | p in group && shares[p].designer == d
  }

  /** One leg per designer: the sum of that designer's shares in the group. */
  ghost function Legs(shares: map<PurchaseId, Share>, group: set<PurchaseId>): map<DesignerId, nat>
    requires group <= shares.Keys
  {
    map d | d in Designers(shares, group) ::
      Total(Amounts(shares, PartOf(shares, group, d)))
  }

  // ---------------------------------------------------- payout_attempts writes

  function StartAttempt(s: System, p: PurchaseId, ref: Ref): Attempt
    requires p in s.shares
  {
    var before := if p in s.attempts then s.attempts[p].count else 0;
    Attempt(s.shares[p].designer, ref, s.shares[p].asset, Processing, before + 1, NoError, None)
  }

  function StartAll(s: System, entries: set<PurchaseId>, ref: Ref): map<PurchaseId, Attempt>
    requires entries <= s.shares.Keys
  {
    map p | p in s.attempts.Keys + entries ::
      if p in entries then StartAttempt(s, p, ref) else s.attempts[p]
  }

  function SucceedAll(attempts: map<PurchaseId, Attempt>, entries: set<PurchaseId>, tx: TxId): map<PurchaseId, Attempt> {
    map p | p in attempts ::
      if p in entries then attempts[p].(status := Succeeded, error := NoError, tx := Some(tx)) else attempts[p]
  }

  function FailEntries(attempts: map<PurchaseId, Attempt>, entries: set<PurchaseId>, status: Status,
                       error: ErrorCode, tx: Option<TxId>): map<PurchaseId, Attempt> {
    map p | p in attempts ::
      if p in entries then attempts[p].(status := status, error := error, tx := tx) else attempts[p]
  }

  function FailRemaining(attempts: map<PurchaseId, Attempt>, ref: Ref, status: Status, error: ErrorCode): map<PurchaseId, Attempt> {
    map p | p in attempts ::
      var a := attempts[p];
      if a.ref == ref && a.status == Processing then a.(status := status, error := error) else a
  }

  function ExhaustRef(attempts: map<PurchaseId, Attempt>, ref: Ref): map<PurchaseId, Attempt> {
    map p | p in attempts ::
      var a := attempts[p];
      if a.ref == ref && a.status == Retrying then a.(status := Failed, error := ServiceUnavailable) else a
  }

  function ReconcileOne(s: System, p: PurchaseId): Attempt
    requires p in s.attempts
  {
    var a := s.attempts[p];
    if p in s.payouts then a.(status := Succeeded, error := NoError, tx := Some(s.payouts[p].tx))
    else if a.designer !in s.verified then a.(status := Failed, error := DestinationNotReady)
    else a
  }

  /** The unresolved attempts `reconcile_ref!` visits. */
  predicate InReconcileScope(a: Attempt, ref: Ref, designer: Option<DesignerId>) {
    a.status != Succeeded && a.ref == ref && (designer.None? || a.designer == designer.value)
  }

  function ReconcileRef(s: System, ref: Ref, designer: Option<DesignerId>): map<PurchaseId, Attempt> {
    map p | p in s.attempts ::
      if InReconcileScope(s.attempts[p], ref, designer) then ReconcileOne(s, p) else s.attempts[p]
  }

  // ------------------------------------------------------------------ events

  datatype Event =
    | Settle(p: PurchaseId, share: Share)
    | SetVerified(designer: DesignerId, ok: bool)
    | Begin(ids: Option<set<PurchaseId>>, ref: Ref, automatic: bool)
    | Submit(asset: Asset, reply: Reply)
    | Conclude(writes: Writes)
    | Finish
    | Retry(p: PurchaseId)
    | Exhaust(ref: Ref)

  /** Which step may come next. Runs, retries and reconciliation hold the
      advisory lock; the other three events may happen at any moment. */
  predicate Enabled(s: System, e: Event) {
    match e
    case Settle(_, _) => true
    case SetVerified(_, _) => true
    case Exhaust(_) => true
    case Begin(_, _, _) => s.run.None?
    case Submit(asset, _) =>
      s.run.Some? && s.run.value.inflight.None? && Group(s, s.run.value.pending, asset) != {}
    case Conclude(_) => s.run.Some? && s.run.value.inflight.Some?
    case Finish => s.run.Some? && s.run.value.inflight.None? && s.run.value.pending == {}
    case Retry(p) => s.run.None? && p in s.attempts
  }

  predicate Executed(r: Reply) {
    r.Success? || (r.Ambiguous? && r.applied) || (r.Unclassified? && r.applied)
  }

  ghost function SubmitStep(s: System, asset: Asset, reply: Reply): System
    requires Enabled(s, Submit(asset, reply))
  {
    var run := s.run.value;
    var group := Group(s, run.pending, asset);
    var moved := s.(run := Some(run.(inflight := Some(Inflight(asset, group, reply)))));
    if Executed(reply) then
      moved.(chain := s.chain + [Transfer(reply.tx, asset, Legs(s.shares, group), group)])
    else moved
  }

  /** The rows one recorded group writes. */
  function Rows(shares: map<PurchaseId, Share>, payouts: map<PurchaseId, PayoutRow>, group: set<PurchaseId>, tx: TxId)
    : map<PurchaseId, PayoutRow>
  {
    map p | p in payouts.Keys + group && (p in payouts || p in shares) ::
      if p in payouts then payouts[p]
      else PayoutRow(shares[p].designer, shares[p].asset, shares[p].amount, tx)
  }

  function ConcludeStep(s: System, writes: Writes): System
    requires Enabled(s, Conclude(writes))
  {
    if writes == Unmarked then s.(run := None) else MarkStep(s, writes == Recorded)
  }

  function MarkStep(s: System, recorded: bool): System
    requires s.run.Some? && s.run.value.inflight.Some?
  {
    var run := s.run.value;
    var f := run.inflight.value;
    match f.reply
    case Success(tx) =>
      if recorded then
        s.(payouts := Rows(s.shares, s.payouts, f.group, tx),
           attempts := SucceedAll(s.attempts, f.group, tx),
           run := Some(run.(pending := run.pending - f.group, inflight := None)))
      else
        s.(attempts := FailEntries(s.attempts, f.group, ReconciliationRequired, LedgerRecordingFailed, Some(tx)),
           run := None)
    case Unavailable =>
      s.(attempts := FailRemaining(s.attempts, run.ref, if run.automatic then Retrying else Failed, ServiceUnavailable),
         run := None)
    case Ambiguous(_, _) =>
      var marked := FailEntries(s.attempts, f.group, ReconciliationRequired, AmbiguousResult, None);
      s.(attempts := FailRemaining(marked, run.ref, Failed, NotSubmitted), run := None)
    case Rejected =>
      var marked := FailEntries(s.attempts, f.group, Failed, TransferRejected, None);
      s.(attempts := FailRemaining(marked, run.ref, Failed, NotSubmitted), run := None)
    case Unclassified(_, _) =>
      s.(run := None)
  }

  /** The failed attempts a designer's retry re-queues together with `p`. */
  function RetryGroup(s: System, p: PurchaseId): set<PurchaseId>
    requires p in s.attempts
  {
    var a := s.attempts[p];
    set q | q in s.attempts && s.attempts[q].designer == a.designer && s.attempts[q].ref == a.ref
            && s.attempts[q].asset == a.asset && s.attempts[q].status == Failed && s.attempts[q].error == a.error
  }

  /** The purchases the retry hands to the payout job. */
  function RetryPurchases(s: System, p: PurchaseId): set<PurchaseId>
    requires p in s.attempts
  {
    set q | q in RetryGroup(s, p) && q in Owed(s)
            && s.shares[q].designer == s.attempts[p].designer && s.shares[q].asset == s.attempts[p].asset
  }

  function RetryStep(s: System, p: PurchaseId): System
    requires p in s.attempts
  {
    var a := s.attempts[p];
    if !Retryable(a) then s
    else if RetryPurchases(s, p) == {} then
      s.(attempts := ReconcileRef(s, a.ref, Some(a.designer)))
    else
      var group := RetryGroup(s, p);
      s.(attempts := map q | q in s.attempts ::
           if q in group then s.attempts[q].(status := Retrying) else s.attempts[q])
  }

  ghost function Step(s: System, e: Event): System
    requires Enabled(s, e)
  {
    match e
    case Settle(p, share) => if p in s.shares then s else s.(shares := s.shares[p := share])
    case SetVerified(d, ok) => s.(verified := if ok then s.verified + {d} else s.verified - {d})
    case Begin(ids, ref, automatic) =>
      var entries := Eligible(s, ids);
      s.(attempts := StartAll(s, entries, ref), run := Some(Run(ref, automatic, entries, None)))
    case Submit(asset, reply) => SubmitStep(s, asset, reply)
    case Conclude(writes) => ConcludeStep(s, writes)
    case Finish => s.(attempts := ReconcileRef(s, s.run.value.ref, None), run := None)
    case Retry(p) => RetryStep(s, p)
    case Exhaust(ref) => s.(attempts := ExhaustRef(s.attempts, ref))
  }

  // ----------------------------------------------------------------- safety

  /** How many executed transfers moved share `p`. */
  ghost function TimesMoved(chain: seq<Transfer>, p: PurchaseId): nat {
    if chain == [] then 0
    else TimesMoved(chain[..|chain| - 1], p) + (if p in chain[|chain| - 1].covers then 1 else 0)
  }

  ghost predicate AtMostOnce(chain: seq<Transfer>) {
    forall p :: TimesMoved(chain, p) <= 1
  }

  /** Every payout row belongs to a treasury share, repeats its designer, asset
      and amount, and names an executed transfer that covered it. */
  ghost predicate RowsBacked(shares: map<PurchaseId, Share>, payouts: map<PurchaseId, PayoutRow>, chain: seq<Transfer>) {
    forall p :: p in payouts ==>
      && p in shares && shares[p].treasury
      && payouts[p].designer == shares[p].designer
      && payouts[p].asset == shares[p].asset
      && payouts[p].amount == shares[p].amount
      && exists i :: 0 <= i < |chain| && p in chain[i].covers && chain[i].tx == payouts[p].tx
                     && chain[i].asset == payouts[p].asset
  }

  /** Each transfer's legs are the per-designer sums of the shares it covered. */
  ghost predicate ChainMatchesShares(shares: map<PurchaseId, Share>, chain: seq<Transfer>) {
    forall i :: 0 <= i < |chain| ==>
      && chain[i].covers <= shares.Keys
      && (forall p :: p in chain[i].covers ==> shares[p].asset == chain[i].asset)
      && chain[i].legs == Legs(shares, chain[i].covers)
  }

  /** The share is in the group the current run has just submitted, and the reply
      leads to a record of it. */
  predicate Accounted(s: System, p: PurchaseId) {
    s.run.Some? && s.run.value.inflight.Some? && p in s.run.value.inflight.value.group
    && (s.run.value.inflight.value.reply.Success? || s.run.value.inflight.value.reply.Ambiguous?)
  }

  /** Moved money is recorded, quarantined, or about to be one of the two. */
  ghost predicate MovedIsKnown(s: System) {
    forall p :: TimesMoved(s.chain, p) > 0 ==>
      p in s.shares && (p in s.payouts || Quarantined(s.attempts, p) || Accounted(s, p))
  }

  ghost predicate RunWellFormed(s: System) {
    s.run.Some? ==>
      var run := s.run.value;
      && run.pending <= s.shares.Keys
      && (forall p :: p in run.pending ==>
            s.shares[p].treasury && p !in s.payouts && p in s.attempts && s.attempts[p].designer == s.shares[p].designer
            && !Quarantined(s.attempts, p))
      && (run.inflight.None? ==> forall p :: p in run.pending ==> TimesMoved(s.chain, p) == 0)
      && (run.inflight.Some? ==>
            var f := run.inflight.value;
            && f.group == Group(s, run.pending, f.asset) && f.group != {}
            && (forall p :: p in run.pending && p !in f.group ==> TimesMoved(s.chain, p) == 0)
            && (forall p :: p in f.group ==> TimesMoved(s.chain, p) == if Executed(f.reply) then 1 else 0)
            && (f.reply.Success? ==>
                  exists i :: 0 <= i < |s.chain| && s.chain[i].covers == f.group && s.chain[i].tx == f.reply.tx
                              && s.chain[i].asset == f.asset))
  }

  ghost predicate AttemptsMatch(shares: map<PurchaseId, Share>, attempts: map<PurchaseId, Attempt>) {
    forall p :: p in attempts ==>
      p in shares && attempts[p].designer == shares[p].designer && attempts[p].asset == shares[p].asset
  }

  ghost predicate Safe(s: System) {
    && AtMostOnce(s.chain)
    && RowsBacked(s.shares, s.payouts, s.chain)
    && ChainMatchesShares(s.shares, s.chain)
    && MovedIsKnown(s)
    && RunWellFormed(s)
    && AttemptsMatch(s.shares, s.attempts)
  }

  /** Moved, unrecorded and quarantined under `ref`: what only a person with the
      chain in front of them may release. */
  predicate HeldForReview(s: System, p: PurchaseId, ref: Ref, designer: Option<DesignerId>) {
    Quarantined(s.attempts, p) && InReconcileScope(s.attempts[p], ref, designer) && p !in s.payouts
  }

  /** The three things the code takes on trust: a sidecar error outside the three
      named classes moved nothing; no outage fails both the recording and the
      marking of a group that was moved; and no attempt awaiting reconciliation
      belongs to a designer whose verification has lapsed when its ref is
      reconciled. */
  ghost predicate Admissible(s: System, e: Event) {
    match e
    case Submit(_, reply) => !(reply.Unclassified? && reply.applied)
    case Conclude(writes) =>
      s.run.Some? && s.run.value.inflight.Some? && writes == Unmarked ==> !Executed(s.run.value.inflight.value.reply)
    case Finish => s.run.Some? ==> ReconcileIsSafe(s, s.run.value.ref, None)
    case Retry(p) =>
      p in s.attempts && Retryable(s.attempts[p]) && RetryPurchases(s, p) == {} ==>
        ReconcileIsSafe(s, s.attempts[p].ref, Some(s.attempts[p].designer))
    case _ => true
  }

  ghost predicate ReconcileIsSafe(s: System, ref: Ref, designer: Option<DesignerId>) {
    forall p :: HeldForReview(s, p, ref, designer) && TimesMoved(s.chain, p) > 0 ==> s.attempts[p].designer in s.verified
  }

  // -------------------------------------------------------- every step is safe

  lemma MovedByAppend(chain: seq<Transfer>, t: Transfer, p: PurchaseId)
    ensures TimesMoved(chain + [t], p) == TimesMoved(chain, p) + (if p in t.covers then 1 else 0)
  {
    assert (chain + [t])[..|chain|] == chain;
  }

  lemma {:induction false} CoveredIsMoved(chain: seq<Transfer>, i: nat, p: PurchaseId)
    requires i < |chain| && p in chain[i].covers
    ensures TimesMoved(chain, p) > 0
  {
    if i < |chain| - 1 {
      CoveredIsMoved(chain[..|chain| - 1], i, p);
    }
  }

  lemma LegsStable(before: map<PurchaseId, Share>, after: map<PurchaseId, Share>, group: set<PurchaseId>)
    requires group <= before.Keys && group <= after.Keys
    requires forall p :: p in group ==> before[p] == after[p]
    ensures Legs(before, group) == Legs(after, group)
  {
    assert Designers(before, group) == Designers(after, group);
    forall d | d in Designers(before, group)
      ensures Legs(before, group)[d] == Legs(after, group)[d]
    {
      assert PartOf(before, group, d) == PartOf(after, group, d);
      assert Amounts(before, PartOf(before, group, d)) == Amounts(after, PartOf(after, group, d));
    }
  }

  lemma ChainOutlivesSettle(before: map<PurchaseId, Share>, after: map<PurchaseId, Share>, chain: seq<Transfer>)
    requires ChainMatchesShares(before, chain)
    requires forall p :: p in before ==> p in after && after[p] == before[p]
    ensures ChainMatchesShares(after, chain)
  {
    forall i | 0 <= i < |chain|
      ensures chain[i].covers <= after.Keys && chain[i].legs == Legs(after, chain[i].covers)
    {
      LegsStable(before, after, chain[i].covers);
    }
  }

  lemma SettleKeepsSafe(s: System, p: PurchaseId, share: Share)
    requires Safe(s)
    ensures Safe(Step(s, Settle(p, share)))
  {
    var t := Step(s, Settle(p, share));
    ChainOutlivesSettle(s.shares, t.shares, s.chain);
    if s.run.Some? && s.run.value.inflight.Some? {
      var asset := s.run.value.inflight.value.asset;
      assert Group(t, t.run.value.pending, asset) == Group(s, s.run.value.pending, asset);
    }
    assert RunWellFormed(t);
    assert MovedIsKnown(t);
  }

  lemma BeginKeepsSafe(s: System, ids: Option<set<PurchaseId>>, ref: Ref, automatic: bool)
    requires Safe(s) && Enabled(s, Begin(ids, ref, automatic))
    ensures Safe(Step(s, Begin(ids, ref, automatic)))
  {
  }

  lemma UnappliedSubmitKeepsSafe(s: System, asset: Asset, reply: Reply)
    requires Safe(s) && Enabled(s, Submit(asset, reply)) && !Executed(reply)
    ensures Safe(Step(s, Submit(asset, reply)))
  {
  }

  /** An executed submission moves each share of the group once more. */
  lemma SubmitMoves(s: System, asset: Asset, reply: Reply, p: PurchaseId)
    requires Enabled(s, Submit(asset, reply)) && Executed(reply)
    ensures var group := Group(s, s.run.value.pending, asset);
      TimesMoved(Step(s, Submit(asset, reply)).chain, p) == TimesMoved(s.chain, p) + (if p in group then 1 else 0)
  {
    var group := Group(s, s.run.value.pending, asset);
    MovedByAppend(s.chain, Transfer(reply.tx, asset, Legs(s.shares, group), group), p);
  }

  lemma SubmitKeepsSafe(s: System, asset: Asset, reply: Reply)
    requires Safe(s) && Enabled(s, Submit(asset, reply))
    ensures Safe(Step(s, Submit(asset, reply))) <==> Admissible(s, Submit(asset, reply))
  {
    var t := Step(s, Submit(asset, reply));
    var group := Group(s, s.run.value.pending, asset);
    if !Executed(reply) {
      UnappliedSubmitKeepsSafe(s, asset, reply);
    } else {
      forall p
        ensures TimesMoved(t.chain, p) == TimesMoved(s.chain, p) + (if p in group then 1 else 0)
      {
        SubmitMoves(s, asset, reply, p);
      }
      assert t.chain[|s.chain|].covers == group && t.chain[|s.chain|].tx == reply.tx;
      assert forall i :: 0 <= i < |s.chain| ==> t.chain[i] == s.chain[i];
      if reply.Unclassified? {
        var p :| p in group;
        assert TimesMoved(t.chain, p) > 0 && p !in t.payouts && !Quarantined(t.attempts, p) && !Accounted(t, p);
      }
    }
  }

  lemma RecordedRowsBacked(s: System)
    requires Safe(s) && Enabled(s, Conclude(Recorded)) && s.run.value.inflight.value.reply.Success?
    ensures var t := Step(s, Conclude(Recorded)); RowsBacked(t.shares, t.payouts, t.chain)
  {
    var f := s.run.value.inflight.value;
    var t := Step(s, Conclude(Recorded));
    var i :| 0 <= i < |s.chain| && s.chain[i].covers == f.group && s.chain[i].tx == f.reply.tx
             && s.chain[i].asset == f.asset;
    forall p | p in t.payouts
      ensures p in t.shares && t.shares[p].treasury
      ensures t.payouts[p].designer == t.shares[p].designer && t.payouts[p].asset == t.shares[p].asset
      ensures t.payouts[p].amount == t.shares[p].amount
      ensures exists j :: 0 <= j < |t.chain| && p in t.chain[j].covers && t.chain[j].tx == t.payouts[p].tx
                          && t.chain[j].asset == t.payouts[p].asset
    {
      if p !in s.payouts {
        assert p in t.chain[i].covers;
      }
    }
  }

  lemma RecordKeepsSafe(s: System)
    requires Safe(s) && Enabled(s, Conclude(Recorded)) && s.run.value.inflight.value.reply.Success?
    ensures Safe(Step(s, Conclude(Recorded)))
  {
    var t := Step(s, Conclude(Recorded));
    RecordedRowsBacked(s);
    assert MovedIsKnown(t);
    assert RunWellFormed(t);
  }

  /** Ending a run is safe when no attempt changes hands and every moved share is
      still recorded or quarantined. */
  lemma RunEndKeepsSafe(s: System, attempts: map<PurchaseId, Attempt>)
    requires Safe(s)
    requires attempts.Keys == s.attempts.Keys
    requires forall p :: p in attempts ==>
      attempts[p].designer == s.attempts[p].designer && attempts[p].asset == s.attempts[p].asset
    requires forall p :: TimesMoved(s.chain, p) > 0 && p !in s.payouts ==> Quarantined(attempts, p)
    ensures Safe(s.(attempts := attempts, run := None))
  {
  }

  lemma FailureEndsRun(s: System, writes: Writes)
    requires Enabled(s, Conclude(writes))
    requires s.run.value.inflight.value.reply.Success? ==> writes != Recorded
    ensures var t := Step(s, Conclude(writes));
      && t == s.(attempts := t.attempts, run := None)
      && t.attempts.Keys == s.attempts.Keys
      && (forall p :: p in t.attempts ==>
            t.attempts[p].designer == s.attempts[p].designer && t.attempts[p].asset == s.attempts[p].asset)
  {
  }

  /** Quarantine outlives every failure branch, except for members of the group. */
  lemma FailureHolds(s: System, writes: Writes, p: PurchaseId)
    requires Enabled(s, Conclude(writes))
    requires s.run.value.inflight.value.reply.Success? ==> writes != Recorded
    requires p in s.attempts
    ensures var f := s.run.value.inflight.value;
      var after := Step(s, Conclude(writes)).attempts;
      && (p !in f.group && Quarantined(s.attempts, p) ==> Quarantined(after, p))
      && (p in f.group && (f.reply.Success? || f.reply.Ambiguous?) && writes != Unmarked ==> Quarantined(after, p))
  {
  }

  lemma FailureQuarantines(s: System, writes: Writes, p: PurchaseId)
    requires MovedIsKnown(s) && RunWellFormed(s) && Enabled(s, Conclude(writes))
    requires s.run.value.inflight.value.reply.Success? ==> writes != Recorded
    requires TimesMoved(s.chain, p) > 0 && p !in s.payouts && Admissible(s, Conclude(writes))
    ensures Quarantined(Step(s, Conclude(writes)).attempts, p)
  {
    assert Quarantined(s.attempts, p) || Accounted(s, p);
    FailureHolds(s, writes, p);
  }

  lemma FailureKeepsSafe(s: System, writes: Writes)
    requires Safe(s) && Enabled(s, Conclude(writes))
    requires s.run.value.inflight.value.reply.Success? ==> writes != Recorded
    ensures Safe(Step(s, Conclude(writes))) <==> Admissible(s, Conclude(writes))
  {
    var t := Step(s, Conclude(writes));
    FailureEndsRun(s, writes);
    if Admissible(s, Conclude(writes)) {
      forall p | TimesMoved(s.chain, p) > 0 && p !in s.payouts
        ensures Quarantined(t.attempts, p)
      {
        FailureQuarantines(s, writes, p);
      }
      RunEndKeepsSafe(s, t.attempts);
    } else {
      var p :| p in s.run.value.inflight.value.group;
      assert TimesMoved(t.chain, p) > 0 && p !in t.payouts && !Quarantined(t.attempts, p);
    }
  }

  /** Reconciling releases a moved share exactly when it is not safe to. */
  lemma ReconcileHolds(s: System, ref: Ref, designer: Option<DesignerId>)
    requires MovedIsKnown(s)
    requires s.run.Some? ==> s.run.value.inflight.None?
    ensures (forall p :: TimesMoved(s.chain, p) > 0 && p !in s.payouts ==> Quarantined(ReconcileRef(s, ref, designer), p))
       <==> ReconcileIsSafe(s, ref, designer)
  {
    var after := ReconcileRef(s, ref, designer);
    forall p | TimesMoved(s.chain, p) > 0 && p !in s.payouts
      ensures Quarantined(s.attempts, p)
      ensures Quarantined(after, p) <==> (HeldForReview(s, p, ref, designer) ==> s.attempts[p].designer in s.verified)
    {
      assert !Accounted(s, p);
    }
  }

  lemma ReconcileKeepsSafe(s: System, ref: Ref, designer: Option<DesignerId>)
    requires Safe(s)
    requires s.run.Some? ==> s.run.value.inflight.None?
    ensures Safe(s.(attempts := ReconcileRef(s, ref, designer), run := None)) <==> ReconcileIsSafe(s, ref, designer)
  {
    var t := s.(attempts := ReconcileRef(s, ref, designer), run := None);
    ReconcileHolds(s, ref, designer);
    if ReconcileIsSafe(s, ref, designer) {
      RunEndKeepsSafe(s, t.attempts);
    } else {
      var p :| TimesMoved(s.chain, p) > 0 && p !in s.payouts && !Quarantined(t.attempts, p);
      assert !Accounted(t, p);
    }
  }

  lemma RetryKeepsSafe(s: System, p: PurchaseId)
    requires Safe(s) && Enabled(s, Retry(p))
    ensures Safe(Step(s, Retry(p))) <==> Admissible(s, Retry(p))
  {
    var a := s.attempts[p];
    if Retryable(a) && RetryPurchases(s, p) == {} {
      ReconcileKeepsSafe(s, a.ref, Some(a.designer));
      assert Step(s, Retry(p)) == s.(attempts := ReconcileRef(s, a.ref, Some(a.designer)), run := None);
    } else if Retryable(a) {
      var t := Step(s, Retry(p));
      forall q | TimesMoved(s.chain, q) > 0 && q !in s.payouts
        ensures Quarantined(t.attempts, q)
      {
        assert !Accounted(s, q);
      }
      RunEndKeepsSafe(s, t.attempts);
      assert t == s.(attempts := t.attempts, run := None);
    }
  }

  lemma ConcludeKeepsSafe(s: System, writes: Writes)
    requires Safe(s) && Enabled(s, Conclude(writes))
    ensures Safe(Step(s, Conclude(writes))) <==> Admissible(s, Conclude(writes))
  {
    if s.run.value.inflight.value.reply.Success? && writes == Recorded {
      RecordKeepsSafe(s);
    } else {
      FailureKeepsSafe(s, writes);
    }
  }

  lemma OutsideKeepsSafe(s: System, e: Event)
    requires Safe(s) && (e.SetVerified? || e.Exhaust?)
    ensures Safe(Step(s, e))
  {
  }

  /** A step keeps the books safe exactly when it is admissible. */
  lemma StepKeepsSafeExactly(s: System, e: Event)
    requires Safe(s) && Enabled(s, e)
    ensures Safe(Step(s, e)) <==> Admissible(s, e)
  {
    match e {
      case Settle(p, share) => SettleKeepsSafe(s, p, share);
      case SetVerified(d, ok) => OutsideKeepsSafe(s, e);
      case Begin(ids, ref, automatic) => BeginKeepsSafe(s, ids, ref, automatic);
      case Submit(asset, reply) => SubmitKeepsSafe(s, asset, reply);
      case Conclude(writes) => ConcludeKeepsSafe(s, writes);
      case Finish => ReconcileKeepsSafe(s, s.run.value.ref, None);
      case Retry(p) => RetryKeepsSafe(s, p);
      case Exhaust(ref) => OutsideKeepsSafe(s, e);
    }
  }

  // -------------------------------------------------------------- whole runs

  ghost predicate Possible(s: System, events: seq<Event>)
    decreases |events|
  {
    events != [] ==> Enabled(s, events[0]) && Possible(Step(s, events[0]), events[1..])
  }

  ghost function Exec(s: System, events: seq<Event>): System
    requires Possible(s, events)
    decreases |events|
  {
    if events == [] then s else Exec(Step(s, events[0]), events[1..])
  }

  ghost predicate AllAdmissible(s: System, events: seq<Event>)
    requires Possible(s, events)
    decreases |events|
  {
    events != [] ==> Admissible(s, events[0]) && AllAdmissible(Step(s, events[0]), events[1..])
  }

  lemma {:induction false} RunKeepsSafe(s: System, events: seq<Event>)
    requires Safe(s) && Possible(s, events) && AllAdmissible(s, events)
    ensures Safe(Exec(s, events))
    decreases |events|
  {
    if events != [] {
      StepKeepsSafeExactly(s, events[0]);
      RunKeepsSafe(Step(s, events[0]), events[1..]);
    }
  }

  /** Over every run, each share is moved at most once, every payout row was
      moved by the transfer it names, and a moved share is recorded or held. */
  lemma PayoutAtMostOnce(events: seq<Event>)
    requires Possible(EMPTY, events) && AllAdmissible(EMPTY, events)
    ensures var s := Exec(EMPTY, events);
      && (forall p :: TimesMoved(s.chain, p) <= 1)
      && (forall p :: p in s.payouts ==>
            TimesMoved(s.chain, p) == 1 && p in s.shares && s.payouts[p].designer == s.shares[p].designer
            && s.payouts[p].asset == s.shares[p].asset && s.payouts[p].amount == s.shares[p].amount)
      && (forall p :: TimesMoved(s.chain, p) == 1 && s.run.None? ==>
            p in s.payouts || (p in s.attempts && s.attempts[p].status == ReconciliationRequired))
  {
    assert Safe(EMPTY);
    RunKeepsSafe(EMPTY, events);
    var s := Exec(EMPTY, events);
    forall p | p in s.payouts
      ensures TimesMoved(s.chain, p) == 1
    {
      var i :| 0 <= i < |s.chain| && p in s.chain[i].covers && s.chain[i].tx == s.payouts[p].tx;
      CoveredIsMoved(s.chain, i, p);
    }
  }
}
