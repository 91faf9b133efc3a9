/** Changing where a designer is paid: request, a two-section verify with the
    signature check between its locks, a waiting period, activate, cancel. */
module PayoutDestination {
  import opened Wrappers
  import opened Ledger

  type Time = nat
  type Txn = nat

  const CHALLENGE_TTL: nat := 15 * 60
  const REPLACEMENT_HOLD: nat := 24 * 60 * 60

  /** The challenge text names its account and carries a random nonce. */
  datatype Challenge = Challenge(account: Account, nonce: nat)

  /** The designer's payout columns. */
  datatype Row = Row(
    active: Option<Account>,
    verifiedAt: Option<Time>,
    controlAt: Option<Time>,
    pending: Option<Account>,
    challenge: Option<Challenge>,
    expiresAt: Option<Time>,
    requestedAt: Option<Time>,
    proofAt: Option<Time>,
    holdUntil: Option<Time>,
    closed: bool)

  datatype Error = AlreadyActive | AccountClosed | NoPendingChange | ChallengeExpired | InvalidChallenge | HoldActive

  datatype Outcome = Activated | SafetyHold

  predicate AccountVerified(r: Row) {
    r.active.Some? && r.verifiedAt.Some?
  }

  /** A different account is active and verified. */
  predicate Replaces(r: Row, account: Account) {
    AccountVerified(r) && r.active != Some(account)
  }

  /** No change is under way: nothing requested, challenged, proved or held. */
  predicate NothingPending(r: Row) {
    r.pending.None? && r.challenge.None? && r.expiresAt.None? && r.requestedAt.None? && r.proofAt.None? && r.holdUntil.None?
  }

  // ------------------------------------------------------------- what each call does

  function Requested(r: Row, c: Challenge, now: Time): Row {
    r.(pending := Some(c.account), challenge := Some(c), expiresAt := Some(now + CHALLENGE_TTL), requestedAt := Some(now),
       proofAt := None, holdUntil := None)
  }

  /** validate_challenge!; the stored digest of a challenge is the challenge. */
  function ChallengeError(r: Row, message: Challenge, now: Time): Option<Error> {
    if r.pending.None? then Some(NoPendingChange)
    else if r.expiresAt.Some? && r.expiresAt.value < now then Some(ChallengeExpired)
    else if r.challenge != Some(message) then Some(InvalidChallenge)
    else None
  }

  function Cleared(r: Row): Row {
    r.(pending := None, challenge := None, expiresAt := None, requestedAt := None, proofAt := None, holdUntil := None)
  }

  /** activate_locked! */
  function ActivatedRow(r: Row, account: Account, now: Time): Row {
    Cleared(r).(active := Some(account), verifiedAt := Some(now), controlAt := Some(now))
  }

  /** The second section of verify!. */
  function Finished(r: Row, account: Account, now: Time): Row {
    if Replaces(r, account) then
      r.(proofAt := Some(now), holdUntil := Some(now + REPLACEMENT_HOLD), challenge := None, expiresAt := None)
    else ActivatedRow(r, account, now)
  }

  function ActivationError(r: Row, now: Time): Option<Error> {
    if r.closed then Some(AccountClosed)
    else if r.proofAt.None? then Some(NoPendingChange)
    else if r.holdUntil.Some? && r.holdUntil.value > now then Some(HoldActive)
    else None
  }

  /** The row a closed account keeps. */
  function ClosedRow(r: Row): Row {
    Cleared(r).(active := None, verifiedAt := None, controlAt := None, closed := true)
  }

  // ------------------------------------------------------------------------- machine

  /** A verify! between its two sections. */
  datatype Verify = Verify(account: Account, message: Challenge, proved: bool)

  /** A challenge accepted by the second section; `replaced` is whether a different
      verified account was active then. */
  datatype Proof = Proof(challenge: Challenge, at: Time, replaced: bool)

  datatype Activation = Activation(account: Account, at: Time, proof: Proof)

  datatype State = State(
    row: Row,
    now: Time,
    verifies: map<Txn, Verify>,
    issued: set<Challenge>,
    signed: set<Challenge>,
    proof: Option<Proof>,
    activations: seq<Activation>)

  datatype Event =
    | Tick(to: Time)
    | Request(challenge: Challenge)
    | BeginVerify(t: Txn, message: Challenge)
    | SignatureAccepted(t: Txn)
    | FinishVerify(t: Txn)
    | Activate
    | Cancel
    | Recheck(ok: bool)
    | CloseAccount

  predicate Enabled(s: State, e: Event) {
    match e
    case Tick(to) => to >= s.now
    case Request(c) => !s.row.closed && c !in s.issued
    case BeginVerify(t, m) => t !in s.verifies && !s.row.closed && ChallengeError(s.row, m, s.now).None?
    case SignatureAccepted(t) => t in s.verifies && !s.verifies[t].proved
    case FinishVerify(t) => t in s.verifies && s.verifies[t].proved && ChallengeError(s.row, s.verifies[t].message, s.now).None?
    case Activate => ActivationError(s.row, s.now).None? && s.row.pending.Some?
    case Cancel => !s.row.closed && s.row.pending.Some?
    case Recheck(_) => AccountVerified(s.row)
    case CloseAccount => true
  }

  function Step(s: State, e: Event): State
    requires Enabled(s, e)
  {
    match e
    case Tick(to) => s.(now := to)
    case Request(c) => s.(row := Requested(s.row, c, s.now), issued := s.issued + {c}, proof := None)
    case BeginVerify(t, m) => s.(verifies := s.verifies[t := Verify(s.row.pending.value, m, false)])
    case SignatureAccepted(t) =>
      s.(verifies := s.verifies[t := s.verifies[t].(proved := true)], signed := s.signed + {s.verifies[t].message})
    case FinishVerify(t) =>
      var v := s.verifies[t];
      var proof := Proof(v.message, s.now, Replaces(s.row, v.account));
      s.(row := Finished(s.row, v.account, s.now),
         verifies := s.verifies - {t},
         proof := if Replaces(s.row, v.account) then Some(proof) else None,
         activations := if Replaces(s.row, v.account) then s.activations
                        else s.activations + [Activation(v.account, s.now, proof)])
    case Activate =>
      s.(row := ActivatedRow(s.row, s.row.pending.value, s.now),
         proof := None,
         activations := if s.proof.Some? then s.activations + [Activation(s.row.pending.value, s.now, s.proof.value)] else s.activations)
    case Cancel => s.(row := Cleared(s.row), proof := None)
    case Recheck(ok) => s.(row := s.row.(verifiedAt := if ok then Some(s.now) else None))
    case CloseAccount => s.(row := ClosedRow(s.row), proof := None)
  }

  // ---------------------------------------------------------------------- invariants

  /** What is pending is what the live challenge names. */
  ghost predicate ChallengeNamesPending(s: State) {
    s.row.challenge.Some? ==>
      s.row.pending == Some(s.row.challenge.value.account) && s.row.challenge.value in s.issued && s.row.proofAt.None?
  }

  /** Between its sections a verify holds an issued challenge and that challenge's
      account; it goes on only with the account's own signature. */
  ghost predicate VerifiesHonest(s: State) {
    forall t :: t in s.verifies ==>
      && s.verifies[t].account == s.verifies[t].message.account && s.verifies[t].message in s.issued
      && (s.verifies[t].proved ==> s.verifies[t].message in s.signed)
  }

  /** A waiting proof is for the pending account, and its hold is counted from it. */
  ghost predicate ProofWaits(s: State) {
    && (s.row.proofAt.Some? <==> s.proof.Some?)
    && (s.proof.Some? ==>
          && s.row.proofAt == Some(s.proof.value.at) && s.proof.value.at <= s.now
          && s.row.pending == Some(s.proof.value.challenge.account) && s.proof.value.challenge in s.signed
          && s.row.holdUntil == Some(s.proof.value.at + REPLACEMENT_HOLD))
  }

  /** An activation as it should be: the account named by a challenge that the
      account itself signed, and a day after the proof when it took the place of
      another verified account. */
  predicate Earned(signed: set<Challenge>, a: Activation) {
    && a.account == a.proof.challenge.account && a.proof.challenge in signed && a.proof.at <= a.at
    && (a.proof.replaced ==> a.at >= a.proof.at + REPLACEMENT_HOLD)
  }

  ghost predicate AllEarned(s: State) {
    forall i :: 0 <= i < |s.activations| ==> Earned(s.signed, s.activations[i])
  }

  ghost predicate Safe(s: State) {
    ChallengeNamesPending(s) && VerifiesHonest(s) && ProofWaits(s) && AllEarned(s)
  }

  /** A fresh account: perhaps with an unverified destination from sign-up. */
  function Fresh(signup: Option<Account>): State {
    State(Row(signup, None, None, None, None, None, None, None, None, false), 0, map[], {}, {}, None, [])
  }

  lemma StepKeepsSafe(s: State, e: Event)
    requires Safe(s) && Enabled(s, e)
    ensures Safe(Step(s, e))
  {
    var a := Step(s, e);
    match e {
      case FinishVerify(t) =>
        assert a.signed == s.signed;
      case SignatureAccepted(t) =>
        assert s.signed <= a.signed;
      case _ =>
    }
  }

  ghost predicate Possible(s: State, run: seq<Event>)
    decreases |run|
  {
    run == [] || (Enabled(s, run[0]) && Possible(Step(s, run[0]), run[1..]))
  }

  ghost function Exec(s: State, run: seq<Event>): State
    requires Possible(s, run)
    decreases |run|
  {
    if run == [] then s else Exec(Step(s, run[0]), run[1..])
  }

  lemma {:induction false} RunKeepsSafe(s: State, run: seq<Event>)
    requires Safe(s) && Possible(s, run)
    ensures Safe(Exec(s, run))
    decreases |run|
  {
    if run != [] {
      StepKeepsSafe(s, run[0]);
      RunKeepsSafe(Step(s, run[0]), run[1..]);
    }
  }

  /** Whatever requests and cancellations fell between the sections of a verify, and
      in every run: an event that changes the active account to another one appends
      an activation of exactly that account — signed for by its own challenge, and at
      least a day after the proof if a different verified account was active then. */
  lemma DestinationIsSafe(signup: Option<Account>, run: seq<Event>, e: Event)
    requires Possible(Fresh(signup), run) && Enabled(Exec(Fresh(signup), run), e)
    ensures var s := Exec(Fresh(signup), run);
      var a := Step(s, e);
      a.row.active.Some? && a.row.active != s.row.active ==>
        && |a.activations| == |s.activations| + 1
        && var last := a.activations[|s.activations|];
           a.row.active == Some(last.account) && last.at == a.now && Earned(a.signed, last)
  {
    var s := Exec(Fresh(signup), run);
    RunKeepsSafe(Fresh(signup), run);
    StepKeepsSafe(s, e);
  }

  /** The second section succeeds exactly when the very challenge the first section
      saw is still live: any request, cancellation or completed verify in between
      stops it. */
  lemma SecondSectionExactly(s: State, t: Txn)
    requires Safe(s) && t in s.verifies && s.verifies[t].proved
    ensures Enabled(s, FinishVerify(t)) <==>
      s.row.challenge == Some(s.verifies[t].message) && !(s.row.expiresAt.Some? && s.row.expiresAt.value < s.now)
    ensures Enabled(s, FinishVerify(t)) ==> s.row.pending == Some(s.verifies[t].account)
  {
  }

  // -------------------------------------------------------------------- the service

  /** One step of the machine. */
  ghost predicate Steps(s: State, e: Event, t: State) {
    Enabled(s, e) && t == Step(s, e)
  }

  /** The designer's row with its clock. `books` is the history beside it: which
      challenges were issued and signed, which verifies are open, what was proved. */
  class Service {
    var row: Row
    var now: Time
    ghost var books: State

    ghost predicate Valid()
      reads this
    {
      books.row == row && books.now == now && Safe(books)
    }

    /** No verify can finish: none is between its sections with a live challenge. */
    ghost predicate VerifiesDead()
      reads this
    {
      forall t :: t in books.verifies ==> !Enabled(books, FinishVerify(t))
    }

    constructor (signup: Option<Account>)
      ensures Valid() && books == Fresh(signup)
    {
      row, now, books := Fresh(signup).row, 0, Fresh(signup);
    }

    method Wait(to: Time)
      requires Valid() && to >= now
      modifies this
      ensures Valid() && Steps(old(books), Tick(to), books)
    {
      now, books := to, Step(books, Tick(to));
    }

    /** request!; the active account stays, and every verify in flight is dead. */
    method RequestChange(c: Challenge) returns (error: Option<Error>)
      requires Valid() && c !in books.issued
      modifies this
      ensures Valid() && row.active == old(row).active && row.verifiedAt == old(row).verifiedAt && now == old(now)
      ensures var r := old(row);
        var known := r.active == Some(c.account) && r.verifiedAt.Some? && r.controlAt.Some?;
        && (error == Some(AlreadyActive) <==> known)
        && (error == Some(AccountClosed) <==> !known && r.closed)
        && (error.None? <==> !known && !r.closed)
      ensures error.None? ==>
        && row.pending == Some(c.account) && row.challenge == Some(c)
        && row.expiresAt == Some(now + 15 * 60) && row.requestedAt == Some(now)
        && row.proofAt.None? && row.holdUntil.None?
      ensures error.Some? ==> books == old(books)
      ensures error.None? ==> Steps(old(books), Request(c), books) && VerifiesDead() && books.proof.None?
    {
      if AccountVerified(row) && row.controlAt.Some? && row.active == Some(c.account) {
        return Some(AlreadyActive);
      }
      if row.closed {
        return Some(AccountClosed);
      }
      ghost var s := books;
      row := row.(pending := Some(c.account), challenge := Some(c));
      row := row.(expiresAt := Some(now + CHALLENGE_TTL), requestedAt := Some(now));
      row := row.(proofAt := None, holdUntil := None);
      books := Step(books, Request(c));
      StepKeepsSafe(s, Request(c));
      error := None;
    }

    /** validate_challenge! */
    method ValidateChallenge(message: Challenge, expected: Option<Challenge>) returns (error: Option<Error>)
      requires expected.Some? ==> expected == Some(message)
      ensures error == ChallengeError(row, message, now)
      ensures error == Some(NoPendingChange) <==> row.pending.None?
      ensures error == Some(ChallengeExpired) <==> row.pending.Some? && row.expiresAt.Some? && row.expiresAt.value < now
      ensures error.None? <==>
        row.pending.Some? && (row.expiresAt.Some? ==> row.expiresAt.value >= now) && row.challenge == Some(message)
      ensures error.Some? ==> error.value in {NoPendingChange, ChallengeExpired, InvalidChallenge}
    {
      if row.pending.None? {
        return Some(NoPendingChange);
      }
      if row.expiresAt.Some? && row.expiresAt.value < now {
        return Some(ChallengeExpired);
      }
      var digest := if expected.Some? then expected else row.challenge;
      if digest.None? || digest != Some(message) || row.challenge != Some(message) {
        return Some(InvalidChallenge);
      }
      error := None;
    }

    /** verify!, up to releasing the first lock: on success the account to check the
        signature for is the one the message names. */
    method VerifyFirst(ghost t: Txn, message: Challenge) returns (r: Result<Account, Error>)
      requires Valid() && t !in books.verifies
      modifies this`books
      ensures Valid()
      ensures r.Err? ==> books == old(books) && !Enabled(old(books), BeginVerify(t, message))
      ensures r.Ok? <==> !row.closed && row.challenge == Some(message) && (row.expiresAt.Some? ==> row.expiresAt.value >= now)
      ensures r.Ok? ==> r.value == message.account && message in books.issued
      ensures r.Ok? ==> Steps(old(books), BeginVerify(t, message), books)
    {
      if row.closed {
        return Err(AccountClosed);
      }
      var error := ValidateChallenge(message, None);
      if error.Some? {
        return Err(error.value);
      }
      ghost var s := books;
      r := Ok(row.pending.value);
      books := Step(books, BeginVerify(t, message));
      StepKeepsSafe(s, BeginVerify(t, message));
    }

    /** The sidecar accepted the account's signature over the message. */
    ghost method AcceptSignature(t: Txn)
      requires Valid() && Enabled(books, SignatureAccepted(t))
      modifies this`books
      ensures Valid() && Steps(old(books), SignatureAccepted(t), books)
    {
      ghost var s := books;
      books := Step(books, SignatureAccepted(t));
      StepKeepsSafe(s, SignatureAccepted(t));
    }

    /** verify!, under its second lock: it goes through exactly while the challenge
        it began with is live, and then the signed account is active at once, or
        waits a day when it is to replace another verified one. */
    method VerifySecond(ghost t: Txn, account: Account, message: Challenge) returns (r: Result<Outcome, Error>)
      requires Valid() && t in books.verifies && books.verifies[t] == Verify(account, message, true)
      modifies this
      ensures Valid()
      ensures r.Ok? <==> old(row).challenge == Some(message) && !(old(row).expiresAt.Some? && old(row).expiresAt.value < now)
      ensures r.Err? ==> books == old(books)
      ensures r.Ok? ==> Steps(old(books), FinishVerify(t), books) && message in books.signed && message.account == account
      ensures r.Ok? ==> now == old(now) && row.challenge.None? && row.expiresAt.None?
      ensures r.Ok? ==>
        (r.value.SafetyHold? <==> old(row).active.Some? && old(row).verifiedAt.Some? && old(row).active != Some(account))
      ensures r == Ok(Activated) ==>
        row.active == Some(account) && row.verifiedAt == Some(now) && row.controlAt == Some(now) && row.pending.None?
      ensures r == Ok(SafetyHold) ==>
        && row.active == old(row).active && row.verifiedAt == old(row).verifiedAt && row.pending == Some(account)
        && row.proofAt == Some(now) && row.holdUntil == Some(now + 24 * 60 * 60)
    {
      ghost var s := books;
      SecondSectionExactly(s, t);
      var error := ValidateChallenge(message, Some(message));
      if error.Some? {
        return Err(error.value);
      }
      if AccountVerified(row) && row.active != Some(account) {
        row := row.(proofAt := Some(now), holdUntil := Some(now + REPLACEMENT_HOLD));
        row := row.(challenge := None, expiresAt := None);
        r := Ok(SafetyHold);
      } else {
        ActivateLocked(account);
        r := Ok(Activated);
      }
      books := Step(books, FinishVerify(t));
      StepKeepsSafe(s, FinishVerify(t));
    }

    /** activate_locked!: a changed account loses its verification before it gets
        the new one. */
    method ActivateLocked(account: Account)
      modifies this`row
      ensures row == ActivatedRow(old(row), account, now)
      ensures row.active == Some(account) && row.verifiedAt == Some(now) && row.controlAt == Some(now) && row.closed == old(row).closed
      ensures NothingPending(row)
    {
      if row.active != Some(account) {
        row := row.(active := Some(account), verifiedAt := None, controlAt := None);
      }
      row := row.(verifiedAt := Some(now), controlAt := Some(now));
      ClearPending();
    }

    method ClearPending()
      modifies this`row
      ensures row == Cleared(old(row)) && NothingPending(row)
      ensures row.active == old(row).active && row.verifiedAt == old(row).verifiedAt && row.controlAt == old(row).controlAt
    {
      row := row.(pending := None, challenge := None, expiresAt := None);
      row := row.(requestedAt := None, proofAt := None, holdUntil := None);
    }

    /** activate!: it succeeds exactly when a signed challenge has waited out its
        day, and the account it makes active is the one that signed. */
    method ActivateChange() returns (error: Option<Error>)
      requires Valid()
      modifies this
      ensures Valid()
      ensures error.None? <==>
        !old(row).closed && old(books).proof.Some? && old(books).proof.value.at + 24 * 60 * 60 <= now
      ensures error == Some(AccountClosed) <==> old(row).closed
      ensures error == Some(NoPendingChange) <==> !old(row).closed && old(row).proofAt.None?
      ensures error == Some(HoldActive) <==> !old(row).closed && old(row).proofAt.Some? && old(row).proofAt.value + 24 * 60 * 60 > now
      ensures error.Some? ==> books == old(books)
      ensures error.None? ==> Steps(old(books), Activate, books)
      ensures error.None? ==>
        var c := old(books).proof.value.challenge;
        && row.active == old(row).pending == Some(c.account) && c in books.signed
        && row.verifiedAt == Some(now) && row.controlAt == Some(now) && NothingPending(row) && now == old(now)
    {
      if row.closed {
        return Some(AccountClosed);
      }
      if row.proofAt.None? {
        return Some(NoPendingChange);
      }
      if row.holdUntil.Some? && row.holdUntil.value > now {
        return Some(HoldActive);
      }
      ghost var s := books;
      ActivateLocked(row.pending.value);
      books := Step(books, Activate);
      StepKeepsSafe(s, Activate);
      error := None;
    }

    /** cancel!: the active account stays; every verify in flight is dead and no
        proof is left to activate. */
    method CancelChange() returns (error: Option<Error>)
      requires Valid()
      modifies this
      ensures Valid() && row.active == old(row).active && row.verifiedAt == old(row).verifiedAt && row.controlAt == old(row).controlAt
      ensures error == Some(AccountClosed) <==> old(row).closed
      ensures error == Some(NoPendingChange) <==> !old(row).closed && old(row).pending.None?
      ensures error.None? <==> !old(row).closed && old(row).pending.Some?
      ensures error.Some? ==> books == old(books)
      ensures error.None? ==> NothingPending(row)
      ensures error.None? ==> Steps(old(books), Cancel, books) && VerifiesDead() && books.proof.None?
    {
      if row.closed {
        return Some(AccountClosed);
      }
      if row.pending.None? {
        return Some(NoPendingChange);
      }
      ghost var s := books;
      ClearPending();
      books := Step(books, Cancel);
      StepKeepsSafe(s, Cancel);
      error := None;
    }
  }
}
