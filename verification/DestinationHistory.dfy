/** What lies behind a change of the payout account: the events of the run that
    must have come before it. */
module DestinationHistory {
  import opened Wrappers
  import opened Ledger
  import opened PayoutDestination

  lemma {:induction false} ExecSnoc(s: State, run: seq<Event>, e: Event)
    requires Possible(s, run + [e])
    ensures Possible(s, run) && Enabled(Exec(s, run), e) && Exec(s, run + [e]) == Step(Exec(s, run), e)
    decreases |run|
  {
    if run == [] {
      assert run + [e] == [e] && [e][1..] == [];
      assert Possible(Step(s, e), []);
    } else {
      assert (run + [e])[1..] == run[1..] + [e];
      ExecSnoc(Step(s, run[0]), run[1..], e);
    }
  }

  /** The signature check accepted this challenge as the k-th event. */
  ghost predicate AcceptedAt(s: State, run: seq<Event>, k: nat, c: Challenge) {
    && k < |run| && run[k].SignatureAccepted? && Possible(s, run[..k])
    && run[k].t in Exec(s, run[..k]).verifies && Exec(s, run[..k]).verifies[run[k].t].message == c
  }

  ghost predicate Accepted(s: State, run: seq<Event>, c: Challenge) {
    exists k: nat :: AcceptedAt(s, run, k, c)
  }

  /** The k-th event finished the verify of this challenge while a different
      verified account was active. */
  ghost predicate ProvedAt(s: State, run: seq<Event>, k: nat, c: Challenge) {
    && k < |run| && run[k].FinishVerify? && Possible(s, run[..k])
    && var before := Exec(s, run[..k]);
       && run[k].t in before.verifies && before.verifies[run[k].t].message == c
       && before.row.active.Some? && before.row.verifiedAt.Some? && before.row.active != Some(c.account)
  }

  /** From the k-th event on nothing asked for, cancelled or ended a change. */
  predicate QuietAfter(run: seq<Event>, k: nat) {
    forall j :: k < j < |run| ==> run[j].Tick? || run[j].BeginVerify? || run[j].SignatureAccepted? || run[j].Recheck?
  }

  /** The proof was made at `at` and still stands. */
  ghost predicate StandingSince(s: State, run: seq<Event>, k: nat, c: Challenge, at: Time) {
    ProvedAt(s, run, k, c) && Exec(s, run[..k]).now == at && QuietAfter(run, k)
  }

  ghost predicate OnRecord(s: State, run: seq<Event>)
    requires Possible(s, run)
  {
    && (forall c :: c in Exec(s, run).signed ==> Accepted(s, run, c))
    && (Exec(s, run).proof.Some? ==>
          var p := Exec(s, run).proof.value; exists k: nat :: StandingSince(s, run, k, p.challenge, p.at))
  }

  lemma AcceptedStays(s: State, run: seq<Event>, e: Event, c: Challenge)
    requires Accepted(s, run, c)
    ensures Accepted(s, run + [e], c)
  {
    var k: nat :| AcceptedAt(s, run, k, c);
    assert (run + [e])[..k] == run[..k];
    assert AcceptedAt(s, run + [e], k, c);
  }

  lemma SignedOnRecord(s: State, run: seq<Event>, e: Event, c: Challenge)
    requires Possible(s, run) && Enabled(Exec(s, run), e) && OnRecord(s, run) && c in Step(Exec(s, run), e).signed
    ensures Accepted(s, run + [e], c)
  {
    if c in Exec(s, run).signed {
      AcceptedStays(s, run, e, c);
    } else {
      assert (run + [e])[..|run|] == run;
      assert AcceptedAt(s, run + [e], |run|, c);
    }
  }

  lemma ProofOnRecord(s: State, run: seq<Event>, e: Event)
    requires Possible(s, run) && Enabled(Exec(s, run), e) && OnRecord(s, run) && Safe(Exec(s, run))
    requires Step(Exec(s, run), e).proof.Some?
    ensures var p := Step(Exec(s, run), e).proof.value; exists k: nat :: StandingSince(s, run + [e], k, p.challenge, p.at)
  {
    var p := Step(Exec(s, run), e).proof.value;
    if e.FinishVerify? {
      assert (run + [e])[..|run|] == run;
      assert StandingSince(s, run + [e], |run|, p.challenge, p.at);
    } else {
      var k: nat :| StandingSince(s, run, k, p.challenge, p.at);
      assert (run + [e])[..k] == run[..k];
      assert StandingSince(s, run + [e], k, p.challenge, p.at);
    }
  }

  lemma {:induction false} RunOnRecord(signup: Option<Account>, run: seq<Event>)
    requires Possible(Fresh(signup), run)
    ensures OnRecord(Fresh(signup), run)
    decreases |run|
  {
    var s := Fresh(signup);
    if run != [] {
      var front, e := run[..|run| - 1], run[|run| - 1];
      assert run == front + [e];
      ExecSnoc(s, front, e);
      RunOnRecord(signup, front);
      RunKeepsSafe(s, front);
      forall c | c in Exec(s, run).signed
        ensures Accepted(s, run, c)
      {
        SignedOnRecord(s, front, e, c);
      }
      if Exec(s, run).proof.Some? {
        ProofOnRecord(s, front, e);
      }
    }
  }

  /** In any run: an account becomes the active one only after the signature check
      accepted a challenge that names it. When it takes the place of another
      verified account, the verify of that challenge was finished at least
      24 hours earlier, and nothing was requested, cancelled or activated since. */
  lemma ChangeHasItsHistory(signup: Option<Account>, run: seq<Event>, e: Event)
    requires Possible(Fresh(signup), run) && Enabled(Exec(Fresh(signup), run), e)
    ensures var s := Exec(Fresh(signup), run);
      var a := Step(s, e);
      a.row.active.Some? && a.row.active != s.row.active ==>
        exists c: Challenge ::
          && c.account == a.row.active.value && Accepted(Fresh(signup), run, c)
          && (s.row.active.Some? && s.row.verifiedAt.Some? ==>
                exists k: nat, at: Time :: StandingSince(Fresh(signup), run, k, c, at) && at + 24 * 60 * 60 <= s.now)
  {
    var start := Fresh(signup);
    var s := Exec(start, run);
    var a := Step(s, e);
    RunKeepsSafe(start, run);
    RunOnRecord(signup, run);
    if a.row.active.Some? && a.row.active != s.row.active {
      if e.FinishVerify? {
        assert Accepted(start, run, s.verifies[e.t].message);
      } else {
        var p := s.proof.value;
        assert Accepted(start, run, p.challenge);
        var k: nat :| StandingSince(start, run, k, p.challenge, p.at);
        assert StandingSince(start, run, k, p.challenge, p.at) && p.at + 24 * 60 * 60 <= s.now;
      }
    }
  }

  /** A closed account has no destination and no change under way. */
  predicate ClosedIsBare(r: Row) {
    r.closed ==> r.active.None? && r.verifiedAt.None? && r.controlAt.None? && NothingPending(r)
  }

  /** Nor does it ever get one again, whatever was in flight when it closed. */
  lemma {:induction false} ClosedStaysBare(s: State, run: seq<Event>)
    requires Possible(s, run) && ClosedIsBare(s.row)
    ensures ClosedIsBare(Exec(s, run).row) && (s.row.closed ==> Exec(s, run).row.closed)
    decreases |run|
  {
    if run != [] {
      assert ClosedIsBare(Step(s, run[0]).row);
      ClosedStaysBare(Step(s, run[0]), run[1..]);
    }
  }
}
