/** Whose shares the transfers of any history carry: what the run that sent them
    found when it selected, whatever changed since. */
module PayoutSelection {
  import opened Wrappers
  import opened Sums
  import opened Ledger
  import opened Payouts

  lemma {:induction false} ExecSnoc(s: System, events: seq<Event>, e: Event)
    requires Possible(s, events + [e])
    ensures Possible(s, events) && Enabled(Exec(s, events), e)
    ensures Exec(s, events + [e]) == Step(Exec(s, events), e)
    decreases |events|
  {
    if events == [] {
      assert [e][1..] == [] && events + [e] == [e];
    } else {
      assert (events + [e])[0] == events[0] && (events + [e])[1..] == events[1..] + [e];
      ExecSnoc(Step(s, events[0]), events[1..], e);
    }
  }

  /** A sweep or a scoped job in this state may send the share. */
  ghost predicate Payable(s: System, ids: Option<set<PurchaseId>>, p: PurchaseId) {
    && p in s.shares && s.shares[p].treasury && p !in s.payouts && s.shares[p].designer in s.verified
    && (ids.Some? ==> p in ids.value)
    && !(p in s.attempts && s.attempts[p].status == ReconciliationRequired)
  }

  /** The run's selection is exactly the payable shares. */
  lemma BeginSelectsExactly(s: System, ids: Option<set<PurchaseId>>, ref: Ref, automatic: bool)
    requires Enabled(s, Begin(ids, ref, automatic))
    ensures var t := Step(s, Begin(ids, ref, automatic));
      t.run.Some? && forall p :: p in t.run.value.pending <==> Payable(s, ids, p)
  {
  }

  /** Event `k` began a run that found all of these shares payable. */
  ghost predicate SelectedAt(events: seq<Event>, k: nat, ps: set<PurchaseId>)
    requires Possible(EMPTY, events)
  {
    k < |events| && events[k].Begin? && Possible(EMPTY, events[..k])
    && forall p :: p in ps ==> Payable(Exec(EMPTY, events[..k]), events[k].ids, p)
  }

  ghost predicate Selected(events: seq<Event>, ps: set<PurchaseId>)
    requires Possible(EMPTY, events)
  {
    exists k: nat :: SelectedAt(events, k, ps)
  }

  ghost predicate RunSelected(events: seq<Event>, s: System)
    requires Possible(EMPTY, events)
  {
    && (s.run.Some? ==> Selected(events, s.run.value.pending))
    && (forall i :: 0 <= i < |s.chain| ==> Selected(events, s.chain[i].covers))
  }

  lemma SelectedStays(events: seq<Event>, e: Event, ps: set<PurchaseId>, part: set<PurchaseId>)
    requires Possible(EMPTY, events + [e]) && Possible(EMPTY, events) && Selected(events, ps) && part <= ps
    ensures Selected(events + [e], part)
  {
    var k: nat :| SelectedAt(events, k, ps);
    assert (events + [e])[..k] == events[..k];
    assert SelectedAt(events + [e], k, part);
  }

  lemma BeginSelects(events: seq<Event>, e: Event)
    requires e.Begin? && Possible(EMPTY, events + [e]) && Possible(EMPTY, events) && Enabled(Exec(EMPTY, events), e)
    ensures Selected(events + [e], Step(Exec(EMPTY, events), e).run.value.pending)
  {
    var k := |events|;
    assert (events + [e])[..k] == events;
    BeginSelectsExactly(Exec(EMPTY, events), e.ids, e.ref, e.automatic);
    assert SelectedAt(events + [e], k, Step(Exec(EMPTY, events), e).run.value.pending);
  }

  lemma StepKeepsSelected(events: seq<Event>, e: Event)
    requires Possible(EMPTY, events + [e]) && Possible(EMPTY, events) && Enabled(Exec(EMPTY, events), e)
    requires RunSelected(events, Exec(EMPTY, events))
    ensures RunSelected(events + [e], Step(Exec(EMPTY, events), e))
  {
    var s, t := Exec(EMPTY, events), Step(Exec(EMPTY, events), e);
    if t.run.Some? {
      if e.Begin? {
        BeginSelects(events, e);
      } else {
        SelectedStays(events, e, s.run.value.pending, t.run.value.pending);
      }
    }
    forall i | 0 <= i < |t.chain|
      ensures Selected(events + [e], t.chain[i].covers)
    {
      if i < |s.chain| {
        assert t.chain[i] == s.chain[i];
        SelectedStays(events, e, s.chain[i].covers, t.chain[i].covers);
      } else {
        SelectedStays(events, e, s.run.value.pending, t.chain[i].covers);
      }
    }
  }

  /** Every executed transfer, in any history, carries only shares that the run
      that sent it found owed, in its scope, not awaiting reconciliation and of a
      designer verified at that moment. */
  lemma {:induction false} TransfersWereSelected(events: seq<Event>)
    requires Possible(EMPTY, events)
    ensures RunSelected(events, Exec(EMPTY, events))
    ensures forall i :: 0 <= i < |Exec(EMPTY, events).chain| ==> Selected(events, Exec(EMPTY, events).chain[i].covers)
    decreases |events|
  {
    if events != [] {
      var front, e := events[..|events| - 1], events[|events| - 1];
      assert events == front + [e];
      ExecSnoc(EMPTY, front, e);
      TransfersWereSelected(front);
      StepKeepsSelected(front, e);
    }
  }
}
