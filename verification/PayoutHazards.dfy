/** Histories on which the payout code pays a share more than once. Each breaks one
    of the conditions of `Payouts.Admissible`. */
module PayoutHazards {
  import opened Wrappers
  import opened Ledger
  import opened Payouts

  ghost predicate Reaches(s: System, events: seq<Event>, t: System) {
    Possible(s, events) && Exec(s, events) == t
  }

  lemma ReachesByStep(s: System, events: seq<Event>, m: System, e: Event)
    requires Reaches(s, events, m) && Enabled(m, e)
    ensures Reaches(s, events + [e], Step(m, e))
  {
    assert Possible(m, [e]) && Exec(m, [e]) == Step(m, e) by {
      assert [e][1..] == [];
      assert Possible(Step(m, e), []);
    }
    ReachesAppend(s, events, m, [e]);
  }

  lemma {:induction false} ReachesAppend(s: System, a: seq<Event>, m: System, b: seq<Event>)
    requires Reaches(s, a, m) && Possible(m, b)
    ensures Reaches(s, a + b, Exec(m, b))
    decreases |a|
  {
    if a == [] {
      assert a + b == b;
    } else {
      ReachesAppend(Step(s, a[0]), a[1..], m, b);
      assert (a + b)[1..] == a[1..] + b;
    }
  }

  /** What one sweep meets: the sidecar's reply, and what the database then does. */
  datatype Answer = Answer(reply: Reply, writes: Writes)

  /** A sweep under `ref` that meets `a` while paying `asset`. */
  function Sweep(asset: Asset, ref: Ref, a: Answer): seq<Event> {
    [Begin(None, ref, false), Submit(asset, a.reply), Conclude(a.writes)]
  }

  /** The states after selecting and after submitting. */
  ghost function Selected(s: System, ref: Ref): System
    requires s.run.None?
  {
    Step(s, Begin(None, ref, false))
  }

  ghost function Submitted(s: System, p: PurchaseId, ref: Ref, reply: Reply): System
    requires s.run.None? && p in Eligible(s, None)
  {
    assert p in Group(Selected(s, ref), Selected(s, ref).run.value.pending, s.shares[p].asset);
    Step(Selected(s, ref), Submit(s.shares[p].asset, reply))
  }

  lemma SweepReaches(s: System, p: PurchaseId, ref: Ref, a: Answer)
    requires s.run.None? && p in Eligible(s, None)
    ensures Enabled(Submitted(s, p, ref, a.reply), Conclude(a.writes))
    ensures Reaches(s, Sweep(s.shares[p].asset, ref, a), Step(Submitted(s, p, ref, a.reply), Conclude(a.writes)))
  {
    var asset := s.shares[p].asset;
    var m := Selected(s, ref);
    assert Reaches(s, [], s);
    ReachesByStep(s, [], s, Begin(None, ref, false));
    assert p in Group(m, m.run.value.pending, asset);
    ReachesByStep(s, [] + [Begin(None, ref, false)], m, Submit(asset, a.reply));
    ReachesByStep(s, [] + [Begin(None, ref, false)] + [Submit(asset, a.reply)], Submitted(s, p, ref, a.reply), Conclude(a.writes));
    assert [] + [Begin(None, ref, false)] + [Submit(asset, a.reply)] + [Conclude(a.writes)] == Sweep(asset, ref, a);
  }

  /** The status an attempt of the submitted group is left with, for an answer that
      settles nothing. */
  function StatusAfter(a: Answer): Status {
    if a.writes == Unmarked then Processing
    else
      match a.reply
      case Ambiguous(_, _) => ReconciliationRequired
      case Success(_) => ReconciliationRequired
      case Unclassified(_, _) => Processing
      case _ => Failed
  }

  lemma SubmittedFields(s: System, p: PurchaseId, ref: Ref, reply: Reply)
    requires s.run.None? && p in Eligible(s, None)
    ensures var m := Submitted(s, p, ref, reply);
      && m.shares == s.shares && m.payouts == s.payouts && m.verified == s.verified
      && m.run.Some? && m.run.value.inflight.Some? && m.run.value.inflight.value.reply == reply && !m.run.value.automatic
      && p in m.run.value.inflight.value.group && m.run.value.ref == ref
      && p in m.attempts && m.attempts[p] == StartAttempt(s, p, ref)
      && TimesMoved(m.chain, p) == TimesMoved(s.chain, p) + (if Executed(reply) then 1 else 0)
  {
    var m := Submitted(s, p, ref, reply);
    if Executed(reply) {
      MovedByAppend(s.chain, m.chain[|s.chain|], p);
    }
  }

  predicate Settles(a: Answer) {
    a.reply.Success? && a.writes == Recorded
  }

  lemma SweepOutcome(s: System, p: PurchaseId, ref: Ref, a: Answer) returns (t: System)
    requires s.run.None? && p in Eligible(s, None) && !Settles(a)
    ensures Reaches(s, Sweep(s.shares[p].asset, ref, a), t)
    ensures t.run.None? && t.shares == s.shares && t.payouts == s.payouts && t.verified == s.verified
    ensures TimesMoved(t.chain, p) == TimesMoved(s.chain, p) + (if Executed(a.reply) then 1 else 0)
    ensures p in t.attempts && t.attempts[p].ref == ref && t.attempts[p].designer == s.shares[p].designer
    ensures t.attempts[p].status == StatusAfter(a)
  {
    SweepReaches(s, p, ref, a);
    SubmittedFields(s, p, ref, a.reply);
    ConcludedFields(Submitted(s, p, ref, a.reply), a, p);
    t := Step(Submitted(s, p, ref, a.reply), Conclude(a.writes));
  }

  lemma ConcludedFields(m: System, a: Answer, p: PurchaseId)
    requires Enabled(m, Conclude(a.writes)) && p in m.run.value.inflight.value.group && p in m.attempts
    requires m.run.value.inflight.value.reply == a.reply && !m.run.value.automatic && !Settles(a)
    requires m.attempts[p].status == Processing && m.attempts[p].ref == m.run.value.ref
    ensures var t := Step(m, Conclude(a.writes));
      && t == m.(run := None, attempts := t.attempts) && p in t.attempts
      && t.attempts[p].ref == m.attempts[p].ref && t.attempts[p].designer == m.attempts[p].designer
      && t.attempts[p].status == StatusAfter(a)
  {
  }

  // ------------------------------------------------------- untraced transfers

  /** The transfer executed, and neither a row nor a mark says so: an error outside
      the three named classes hid the transaction id, or an outage failed the
      recording and the marking. */
  predicate Untraced(a: Answer) {
    Executed(a.reply) && (a.reply.Unclassified? || a.writes == Unmarked)
  }

  /** One sweep per answer. */
  function Sweeps(asset: Asset, ref: Ref, answers: seq<Answer>): seq<Event> {
    if answers == [] then [] else Sweep(asset, ref, answers[0]) + Sweeps(asset, ref, answers[1..])
  }

  /** An untraced transfer leaves the share owed: n sweeps that meet one each, of
      either kind, pay it n more times, from any state. */
  lemma {:induction false} UntracedSweepsPayAgain(s: System, p: PurchaseId, ref: Ref, answers: seq<Answer>)
    requires s.run.None? && p in Eligible(s, None) && forall i :: 0 <= i < |answers| ==> Untraced(answers[i])
    ensures var events := Sweeps(s.shares[p].asset, ref, answers);
      && Possible(s, events) && p in Eligible(Exec(s, events), None)
      && TimesMoved(Exec(s, events).chain, p) == TimesMoved(s.chain, p) + |answers|
    decreases |answers|
  {
    if answers != [] {
      var t := SweepOutcome(s, p, ref, answers[0]);
      assert p in Eligible(t, None);
      UntracedSweepsPayAgain(t, p, ref, answers[1..]);
      ReachesAppend(s, Sweep(s.shares[p].asset, ref, answers[0]), t, Sweeps(t.shares[p].asset, ref, answers[1..]));
    }
  }

  // ------------------------------------------------------- lapsed verification

  /** The designer loses the verification, a run under `ref` that has nothing to
      pay reconciles it, and the designer is verified again. */
  function Lapse(d: DesignerId, ref: Ref): seq<Event> {
    [SetVerified(d, false), Begin(Some({}), ref, false), Finish, SetVerified(d, true)]
  }

  ghost function Lapsed(s: System, d: DesignerId, ref: Ref): System
    requires s.run.None?
  {
    Step(Step(s, SetVerified(d, false)), Begin(Some({}), ref, false))
  }

  lemma LapsedReaches(s: System, d: DesignerId, ref: Ref)
    requires s.run.None?
    ensures Enabled(Lapsed(s, d, ref), Finish)
    ensures Reaches(s, Lapse(d, ref)[..2], Lapsed(s, d, ref))
    ensures Reaches(s, Lapse(d, ref), Step(Step(Lapsed(s, d, ref), Finish), SetVerified(d, true)))
  {
    assert Reaches(s, [], s);
    ReachesByStep(s, [], s, SetVerified(d, false));
    ReachesByStep(s, [] + [SetVerified(d, false)], Step(s, SetVerified(d, false)), Begin(Some({}), ref, false));
    assert [] + [SetVerified(d, false)] + [Begin(Some({}), ref, false)] == Lapse(d, ref)[..2];
    var m := Lapsed(s, d, ref);
    assert m.run.value.pending == {};
    ReachesByStep(s, Lapse(d, ref)[..2], m, Finish);
    ReachesByStep(s, Lapse(d, ref)[..2] + [Finish], Step(m, Finish), SetVerified(d, true));
    assert Lapse(d, ref)[..2] + [Finish] + [SetVerified(d, true)] == Lapse(d, ref);
  }

  lemma LapsedFields(s: System, p: PurchaseId)
    requires s.run.None? && p in Owed(s) && Quarantined(s.attempts, p)
    requires s.attempts[p].designer == s.shares[p].designer
    ensures var m := Lapsed(s, s.shares[p].designer, s.attempts[p].ref);
      && Enabled(m, Finish) && m.attempts == s.attempts
      && (TimesMoved(s.chain, p) > 0 ==> !Admissible(m, Finish))
      && Step(m, Finish).attempts[p].status == Failed
      && Step(m, Finish) == s.(verified := s.verified - {s.shares[p].designer}, attempts := Step(m, Finish).attempts)
  {
    var m := Lapsed(s, s.shares[p].designer, s.attempts[p].ref);
    assert m.run.value.pending == {} && m.attempts == s.attempts;
    assert TimesMoved(s.chain, p) > 0 ==> HeldForReview(m, p, s.attempts[p].ref, None);
  }

  /** Such a lapse releases a quarantined share, although no payout row covers
      it; the reconciliation is the step that does it. */
  lemma LapseReleases(s: System, p: PurchaseId)
    requires s.run.None? && p in Owed(s) && Quarantined(s.attempts, p)
    requires s.attempts[p].designer == s.shares[p].designer
    ensures var events := Lapse(s.shares[p].designer, s.attempts[p].ref);
      && Possible(s, events) && p in Eligible(Exec(s, events), None)
      && Exec(s, events).run.None? && Exec(s, events).chain == s.chain && Exec(s, events).shares == s.shares
    ensures var m := Lapsed(s, s.shares[p].designer, s.attempts[p].ref);
      Quarantined(m.attempts, p) && (TimesMoved(s.chain, p) > 0 ==> !Admissible(m, Finish))
  {
    var d, ref := s.shares[p].designer, s.attempts[p].ref;
    LapsedReaches(s, d, ref);
    LapsedFields(s, p);
    FreedFields(s, Step(Lapsed(s, d, ref), Finish), p);
  }

  lemma FreedFields(s: System, freed: System, p: PurchaseId)
    requires p in Owed(s) && p in freed.attempts && !Quarantined(freed.attempts, p)
    requires freed == s.(verified := freed.verified, attempts := freed.attempts)
    ensures p in Eligible(Step(freed, SetVerified(s.shares[p].designer, true)), None)
  {
  }

  /** A sweep whose reply is lost, the lapse, and another such sweep. */
  function LapseRun(share: Share, ref: Ref, first: TxId, again: TxId): seq<Event> {
    Sweep(share.asset, ref, Answer(Ambiguous(true, first), Marked)) + Lapse(share.designer, ref)
    + Sweep(share.asset, ref, Answer(Ambiguous(true, again), Marked))
  }

  /** The reconciling run's end in that history. */
  const RECONCILING := 5

  ghost predicate AlwaysAdmissible(e: Event) {
    forall s: System :: Admissible(s, e)
  }

  lemma OnlyReconcilingIsDoubtful(share: Share, ref: Ref, first: TxId, again: TxId)
    ensures var events := LapseRun(share, ref, first, again);
      && |events| == 10 && events[RECONCILING] == Finish
      && forall i :: 0 <= i < |events| && i != RECONCILING ==> AlwaysAdmissible(events[i])
  {
    var events := LapseRun(share, ref, first, again);
    forall i | 0 <= i < |events| && i != RECONCILING
      ensures AlwaysAdmissible(events[i])
    {
      assert !events[i].Finish? && !events[i].Retry? && (events[i].Submit? ==> events[i].reply.Ambiguous?);
    }
  }

  /** With every sidecar reply classified, a share is paid twice when its
      designer's verification lapses over one reconciliation. That one step is
      the only inadmissible one of the ten. */
  lemma LapsedVerificationPaysTwice(s: System, p: PurchaseId, ref: Ref, first: TxId, again: TxId)
    requires s.run.None? && p in Eligible(s, None)
    ensures var events := LapseRun(s.shares[p], ref, first, again);
      && Possible(s, events) && TimesMoved(Exec(s, events).chain, p) == TimesMoved(s.chain, p) + 2
      && |events| == 10 && events[RECONCILING] == Finish
      && Possible(s, events[..RECONCILING]) && !Admissible(Exec(s, events[..RECONCILING]), Finish)
      && forall i :: 0 <= i < |events| && i != RECONCILING ==> AlwaysAdmissible(events[i])
  {
    var share := s.shares[p];
    var opening := Sweep(share.asset, ref, Answer(Ambiguous(true, first), Marked));
    var events := LapseRun(share, ref, first, again);
    OnlyReconcilingIsDoubtful(share, ref, first, again);
    var held := SweepOutcome(s, p, ref, Answer(Ambiguous(true, first), Marked));
    LapseReleases(held, p);
    LapsedReaches(held, share.designer, ref);
    ReachesAppend(s, opening, held, Lapse(share.designer, ref)[..2]);
    assert opening + Lapse(share.designer, ref)[..2] == events[..RECONCILING];
    var free := Exec(held, Lapse(share.designer, ref));
    ReachesAppend(s, opening, held, Lapse(share.designer, ref));
    var twice := SweepOutcome(free, p, ref, Answer(Ambiguous(true, again), Marked));
    ReachesAppend(s, opening + Lapse(share.designer, ref), free, Sweep(share.asset, ref, Answer(Ambiguous(true, again), Marked)));
  }

  // ------------------------------------------------------ where they can begin

  const SOLD := PurchaseId(0, 0)

  const ONE_SALE := [Settle(SOLD, Share(0, 0, 9, true)), SetVerified(0, true)]

  /** The state all of them start from, reached by one sale. */
  lemma OneShareIsReachable()
    ensures Possible(EMPTY, ONE_SALE) && AllAdmissible(EMPTY, ONE_SALE)
    ensures Exec(EMPTY, ONE_SALE).run.None? && SOLD in Eligible(Exec(EMPTY, ONE_SALE), None)
    ensures TimesMoved(Exec(EMPTY, ONE_SALE).chain, SOLD) == 0
  {
    var s := Step(EMPTY, ONE_SALE[0]);
    var t := Step(s, ONE_SALE[1]);
    assert ONE_SALE[1..][1..] == [] && ONE_SALE[1..][0] == ONE_SALE[1];
    assert Possible(t, []) && Exec(t, []) == t && AllAdmissible(t, []);
    assert Possible(s, ONE_SALE[1..]) && Exec(s, ONE_SALE[1..]) == t && AllAdmissible(s, ONE_SALE[1..]);
    assert SOLD in Eligible(t, None);
  }
}
