/** The spending caps hold and an approval pays for one transaction, in every run. */
module ChatSafety {
  import opened Wrappers
  import opened Sums
  import opened ChatSpend

  // ------------------------------------------------------------------ sums by group

  function Of(approvals: map<Nonce, Approval>, charged: map<Nonce, nat>, c: ConversationId): map<Nonce, nat>
    requires charged.Keys <= approvals.Keys
  {
    map n | n in charged && approvals[n].conversation == c :: charged[n]
  }

  function NotOf(approvals: map<Nonce, Approval>, charged: map<Nonce, nat>, c: ConversationId): map<Nonce, nat>
    requires charged.Keys <= approvals.Keys
  {
    map n | n in charged && approvals[n].conversation != c :: charged[n]
  }

  lemma SplitByConversation(approvals: map<Nonce, Approval>, charged: map<Nonce, nat>, c: ConversationId)
    requires charged.Keys <= approvals.Keys
    ensures Total(charged) == Total(Of(approvals, charged, c)) + Total(NotOf(approvals, charged, c))
  {
    assert Of(approvals, charged, c) + NotOf(approvals, charged, c) == charged;
    TotalUnion(Of(approvals, charged, c), NotOf(approvals, charged, c));
  }

  lemma OthersKeepTheirs(approvals: map<Nonce, Approval>, charged: map<Nonce, nat>, c: ConversationId, b: ConversationId)
    requires charged.Keys <= approvals.Keys && b != c
    ensures Of(approvals, NotOf(approvals, charged, c), b) == Of(approvals, charged, b)
  {
  }

  /** Charges grouped by conversation stay below the conversations' totals. */
  lemma {:induction false} GroupsBelow(approvals: map<Nonce, Approval>, charged: map<Nonce, nat>, totals: map<ConversationId, nat>)
    requires charged.Keys <= approvals.Keys
    requires forall n :: n in charged ==> approvals[n].conversation in totals
    requires forall c :: c in totals ==> Total(Of(approvals, charged, c)) <= totals[c]
    ensures Total(charged) <= Total(totals)
    decreases |totals|
  {
    if totals == map[] {
      assert charged == map[];
    } else {
      var c :| c in totals;
      SplitByConversation(approvals, charged, c);
      var rest := NotOf(approvals, charged, c);
      forall b | b in totals - {c}
        ensures Total(Of(approvals, rest, b)) <= (totals - {c})[b]
      {
        OthersKeepTheirs(approvals, charged, c, b);
      }
      GroupsBelow(approvals, rest, totals - {c});
      TotalRemove(totals, c);
    }
  }

  /** The counter never under-estimates what was approved today. */
  lemma CounterCoversToday(s: State, caps: Caps)
    requires Accounted(s, caps) && TouchedToday(s)
    ensures Total(ChargedToday(s.approvals, s.today, s.conversations.Keys)) <= ApprovedToday(s)
  {
    var charged := ChargedToday(s.approvals, s.today, s.conversations.Keys);
    var totals := SpendOf(s.conversations, s.today);
    forall c | c in totals
      ensures Total(Of(s.approvals, charged, c)) <= totals[c]
    {
      TotalMonotone(Of(s.approvals, charged, c), ChargedTo(s.approvals, c));
    }
    GroupsBelow(s.approvals, charged, totals);
  }

  // ------------------------------------------------------------------------ approving

  lemma ApprovalAdds(s: State, c: ConversationId, nonce: Nonce, price: nat, b: ConversationId)
    requires nonce !in s.approvals
    ensures var after := s.approvals[nonce := Approval(c, price, s.today)];
      Total(ChargedTo(after, b)) == Total(ChargedTo(s.approvals, b)) + (if b == c then price else 0)
  {
    var after := s.approvals[nonce := Approval(c, price, s.today)];
    if b == c {
      assert ChargedTo(after, c) == ChargedTo(s.approvals, c)[nonce := price];
      TotalInsert(ChargedTo(s.approvals, c), nonce, price);
    } else {
      assert ChargedTo(after, b) == ChargedTo(s.approvals, b);
    }
  }

  lemma ApprovalAddsToday(s: State, c: ConversationId, nonce: Nonce, price: nat)
    requires nonce !in s.approvals && c in s.conversations
    ensures var after := s.approvals[nonce := Approval(c, price, s.today)];
      Total(ChargedToday(after, s.today, s.conversations.Keys))
      == Total(ChargedToday(s.approvals, s.today, s.conversations.Keys)) + price
  {
    var before := ChargedToday(s.approvals, s.today, s.conversations.Keys);
    var after := s.approvals[nonce := Approval(c, price, s.today)];
    assert ChargedToday(after, s.today, s.conversations.Keys) == before[nonce := price];
    TotalInsert(before, nonce, price);
  }

  lemma ReserveKeepsDailyCap(s: State, caps: Caps, c: ConversationId, snapshot: Nonce, amount: nat)
    requires Sound(s, caps) && Enabled(s, caps, Reserve(c, snapshot, amount)) && s.conversations[c].proposal.value.stage == Pending
    ensures WithinDailyCap(Reserved(s, c, amount), caps)
  {
    var p := s.conversations[c].proposal.value;
    assert p.nonce !in s.approvals;
    CounterCoversToday(s, caps);
    ApprovalAddsToday(s, c, p.nonce, p.terms.price);
    assert Reserved(s, c, amount).conversations.Keys == s.conversations.Keys;
  }

  lemma ReserveKeepsCaps(s: State, caps: Caps, c: ConversationId, snapshot: Nonce, amount: nat)
    requires Sound(s, caps) && Enabled(s, caps, Reserve(c, snapshot, amount))
    ensures var a := Reserved(s, c, amount);
      Accounted(a, caps) && TouchedToday(a) && WithinDailyCap(a, caps)
  {
    var a := Reserved(s, c, amount);
    var p := s.conversations[c].proposal.value;
    if p.stage == Pending {
      ReserveKeepsDailyCap(s, caps, c, snapshot, amount);
      forall b | b in a.conversations
        ensures a.conversations[b].spend == Total(ChargedTo(a.approvals, b)) && a.conversations[b].spend <= caps.conversation
      {
        ApprovalAdds(s, c, p.nonce, p.terms.price, b);
      }
    } else {
      assert a.conversations == s.conversations;
    }
  }

  lemma ReserveKeepsRows(s: State, caps: Caps, c: ConversationId, snapshot: Nonce, amount: nat)
    requires Sound(s, caps) && Enabled(s, caps, Reserve(c, snapshot, amount))
    ensures var a := Reserved(s, c, amount);
      Stored(a) && NoncesApart(a.conversations, a.usedNonces) && OneTransaction(a)
  {
    var a := Reserved(s, c, amount);
    assert forall b :: b in a.conversations && a.conversations[b].proposal.Some? ==>
      s.conversations[b].proposal.Some? && a.conversations[b].proposal.value.nonce == s.conversations[b].proposal.value.nonce;
  }

  lemma ReserveKeepsCharges(s: State, caps: Caps, c: ConversationId, snapshot: Nonce, amount: nat)
    requires Sound(s, caps) && Enabled(s, caps, Reserve(c, snapshot, amount))
    ensures ChargedOnce(Reserved(s, c, amount)) && Priced(Reserved(s, c, amount))
  {
    var p := s.conversations[c].proposal.value;
    assert p.stage == Pending <==> p.nonce !in s.approvals;
  }

  // -------------------------------------------------------------------- other steps

  predicate IsConversationEvent(e: Event) {
    e.Open? || e.Close? || e.Talk? || e.ClearProposal? || e.Propose? || e.Authorize? || e.Complete? || e.NewDay?
  }

  lemma OthersKeepCaps(s: State, caps: Caps, e: Event)
    requires Sound(s, caps) && Enabled(s, caps, e) && IsConversationEvent(e)
    ensures Accounted(Step(s, caps, e), caps) && TouchedToday(Step(s, caps, e)) && WithinDailyCap(Step(s, caps, e), caps)
  {
    var a := Step(s, caps, e);
    assert a.approvals == s.approvals;
    if e.Open? {
      assert ChargedTo(s.approvals, e.c) == map[];
    }
    TotalMonotone(ChargedToday(a.approvals, a.today, a.conversations.Keys), ChargedToday(s.approvals, s.today, s.conversations.Keys));
  }

  lemma OthersKeepRows(s: State, caps: Caps, e: Event)
    requires Sound(s, caps) && Enabled(s, caps, e) && IsConversationEvent(e)
    ensures Stored(Step(s, caps, e)) && NoncesApart(Step(s, caps, e).conversations, Step(s, caps, e).usedNonces)
  {
    assert Step(s, caps, e).approvals == s.approvals;
  }

  lemma OthersKeepCharges(s: State, caps: Caps, e: Event)
    requires Sound(s, caps) && Enabled(s, caps, e) && IsConversationEvent(e)
    ensures ChargedOnce(Step(s, caps, e)) && Priced(Step(s, caps, e))
  {
    assert Step(s, caps, e).approvals == s.approvals && Step(s, caps, e).tokens == s.tokens;
  }

  lemma OthersKeepTransactions(s: State, caps: Caps, e: Event)
    requires Sound(s, caps) && Enabled(s, caps, e) && IsConversationEvent(e)
    ensures OneTransaction(Step(s, caps, e))
  {
    var a := Step(s, caps, e);
    if e.Authorize? {
      AuthorizeKeepsTransactions(s, caps, e);
    } else {
      forall c | c in a.conversations && a.conversations[c].proposal.Some?
        ensures OnlyItsOwn(a.authorised, a.conversations[c].proposal.value)
      {
        if e.Propose? && e.c == c {
        } else {
          assert OnlyItsOwn(s.authorised, s.conversations[c].proposal.value);
        }
      }
    }
  }

  lemma AuthorizeKeepsTransactions(s: State, caps: Caps, e: Event)
    requires Sound(s, caps) && Enabled(s, caps, e) && e.Authorize?
    ensures OneTransaction(Step(s, caps, e))
  {
    var a := Step(s, caps, e);
    var p := s.conversations[e.t.conversation].proposal.value;
    assert OnlyItsOwn(s.authorised, p);
    forall c | c in a.conversations && a.conversations[c].proposal.Some?
      ensures OnlyItsOwn(a.authorised, a.conversations[c].proposal.value)
    {
      assert OnlyItsOwn(s.authorised, s.conversations[c].proposal.value);
    }
  }

  lemma StepKeepsSound(s: State, caps: Caps, e: Event)
    requires Sound(s, caps) && Enabled(s, caps, e)
    ensures Sound(Step(s, caps, e), caps)
  {
    if e.Reserve? {
      ReserveKeepsCaps(s, caps, e.c, e.snapshot, e.amount);
      ReserveKeepsRows(s, caps, e.c, e.snapshot, e.amount);
      ReserveKeepsCharges(s, caps, e.c, e.snapshot, e.amount);
    } else {
      OthersKeepCaps(s, caps, e);
      OthersKeepRows(s, caps, e);
      OthersKeepCharges(s, caps, e);
      OthersKeepTransactions(s, caps, e);
    }
  }

  // -------------------------------------------------------------------------- runs

  ghost predicate Possible(s: State, caps: Caps, run: seq<Event>)
    decreases |run|
  {
    run == [] || (Enabled(s, caps, run[0]) && Possible(Step(s, caps, run[0]), caps, run[1..]))
  }

  ghost function Exec(s: State, caps: Caps, run: seq<Event>): State
    requires Possible(s, caps, run)
    decreases |run|
  {
    if run == [] then s else Exec(Step(s, caps, run[0]), caps, run[1..])
  }

  lemma {:induction false} RunKeepsSound(s: State, caps: Caps, run: seq<Event>)
    requires Sound(s, caps) && Possible(s, caps, run)
    ensures Sound(Exec(s, caps, run), caps)
    decreases |run|
  {
    if run != [] {
      StepKeepsSound(s, caps, run[0]);
      RunKeepsSound(Step(s, caps, run[0]), caps, run[1..]);
    }
  }

  lemma StartIsSound(caps: Caps)
    ensures Sound(START, caps)
  {
  }

  /** In every state of every run: no conversation has approved more than its cap,
      today's approvals of the conversations that still exist stay within the daily
      cap, and no nonce was ever authorised for two transactions. */
  lemma CapsHold(caps: Caps, run: seq<Event>)
    requires Possible(START, caps, run)
    ensures var s := Exec(START, caps, run);
      && Capped(s.approvals, s.conversations, caps, s.today)
      && (forall n, d, e :: (n, d) in s.authorised && (n, e) in s.authorised ==> d == e)
  {
    StartIsSound(caps);
    RunKeepsSound(START, caps, run);
    var s := Exec(START, caps, run);
    assert Capped(s.approvals, s.conversations, caps, s.today) by {
      SumsAreCapped(s, caps);
    }
  }

  /** The caps, on the approvals themselves. */
  ghost predicate Capped(approvals: map<Nonce, Approval>, cs: map<ConversationId, Conversation>, caps: Caps, today: Day) {
    && (forall c, prices: map<Nonce, nat> :: c in cs && PricesTo(prices, approvals, c) ==> Total(prices) <= caps.conversation)
    && (forall prices: map<Nonce, nat> :: PricesOn(prices, approvals, cs, today) ==> Total(prices) <= caps.daily)
  }

  /** The prices approved in this conversation, ever. */
  ghost predicate PricesTo(prices: map<Nonce, nat>, approvals: map<Nonce, Approval>, c: ConversationId) {
    && (forall n :: n in prices <==> n in approvals && approvals[n].conversation == c)
    && (forall n :: n in prices ==> prices[n] == approvals[n].price)
  }

  /** The prices approved today in the conversations that still exist. */
  ghost predicate PricesOn(prices: map<Nonce, nat>, approvals: map<Nonce, Approval>, cs: map<ConversationId, Conversation>, today: Day) {
    && (forall n :: n in prices <==> n in approvals && approvals[n].day == today && approvals[n].conversation in cs)
    && (forall n :: n in prices ==> prices[n] == approvals[n].price)
  }

  lemma SumsAreCapped(s: State, caps: Caps)
    requires Accounted(s, caps) && WithinDailyCap(s, caps)
    ensures Capped(s.approvals, s.conversations, caps, s.today)
  {
    forall c, prices: map<Nonce, nat> | c in s.conversations && PricesTo(prices, s.approvals, c)
      ensures Total(prices) <= caps.conversation
    {
      assert prices == ChargedTo(s.approvals, c);
    }
    forall prices: map<Nonce, nat> | PricesOn(prices, s.approvals, s.conversations, s.today)
      ensures Total(prices) <= caps.daily
    {
      assert prices == ChargedToday(s.approvals, s.today, s.conversations.Keys);
    }
  }

  /** A charge is written for a nonce that had none, and a charge once written stays
      as it is: each nonce is charged once. */
  lemma ChargesStay(caps: Caps, run: seq<Event>, e: Event, n: Nonce)
    requires Possible(START, caps, run) && Enabled(Exec(START, caps, run), caps, e)
    requires n in Exec(START, caps, run).approvals
    ensures n in Step(Exec(START, caps, run), caps, e).approvals
    ensures Step(Exec(START, caps, run), caps, e).approvals[n] == Exec(START, caps, run).approvals[n]
  {
    RunKeepsSound(START, caps, run);
    var s := Exec(START, caps, run);
    if e.Reserve? {
      assert s.conversations[e.c].proposal.Some?;
    }
  }

  /** A transaction is authorised only for a charged nonce, in the charged
      conversation, for exactly the charged price. */
  lemma AuthorisedWasCharged(caps: Caps, run: seq<Event>, t: Token, terms: Terms, amount: nat, digest: Digest)
    requires Possible(START, caps, run) && Enabled(Exec(START, caps, run), caps, Authorize(t, terms, amount, digest))
    ensures var s := Exec(START, caps, run);
      && amount == terms.price * 10_000 && t.nonce in s.approvals
      && s.approvals[t.nonce].conversation == t.conversation && s.approvals[t.nonce].price == terms.price
  {
    RunKeepsSound(START, caps, run);
  }

  // ------------------------------------------------------------------- the services

  /** One step of the machine. */
  ghost predicate Steps(s: State, caps: Caps, e: Event, t: State) {
    Enabled(s, caps, e) && t == Step(s, caps, e)
  }

  /** The sum over the conversations touched today. */
  ghost predicate IsTouchedToday(cs: map<ConversationId, Conversation>, today: Day, cents: nat) {
    forall spends: map<ConversationId, nat> :: SpendsOn(spends, cs, today) ==> cents == Total(spends)
  }

  /** What each conversation touched today has approved, ever. */
  ghost predicate SpendsOn(spends: map<ConversationId, nat>, cs: map<ConversationId, Conversation>, today: Day) {
    && (forall c :: c in spends <==> c in cs && cs[c].updated == today)
    && (forall c :: c in spends ==> spends[c] == cs[c].spend)
  }

  lemma TouchedIsSpend(cs: map<ConversationId, Conversation>, today: Day)
    ensures IsTouchedToday(cs, today, Total(SpendOf(cs, today)))
    ensures forall cents :: IsTouchedToday(cs, today, cents) ==> cents == Total(SpendOf(cs, today))
  {
    forall spends: map<ConversationId, nat> | SpendsOn(spends, cs, today)
      ensures spends == SpendOf(cs, today)
    {
    }
    assert SpendsOn(SpendOf(cs, today), cs, today);
  }

  /** The row once its pending proposal is charged. */
  predicate ChargedRow(before: Conversation, after: Conversation, today: Day, amount: nat) {
    && before.proposal.Some? && after.proposal.Some?
    && after.spend == before.spend + before.proposal.value.terms.price && after.updated == today
    && after.proposal.value.nonce == before.proposal.value.nonce && after.proposal.value.terms == before.proposal.value.terms
    && after.proposal.value.stage == Approved && after.proposal.value.amount == amount
    && after.proposal.value.digest == before.proposal.value.digest
  }

  /** The answer for a pending proposal at `price`: the conversation's cap, then the
      daily one. */
  predicate WithinCaps(caps: Caps, spend: nat, touched: nat, price: nat, r: Result<Token, Error>) {
    && (r == Err(SpendCapExceeded) <==> spend + price > caps.conversation)
    && (r == Err(DailyCapExceeded) <==> spend + price <= caps.conversation && touched + price > caps.daily)
    && (r.Ok? <==> spend + price <= caps.conversation && touched + price <= caps.daily)
  }

  /** The reservation's answer for the proposal the buyer looked at. */
  ghost predicate ReserveAnswers(cs: map<ConversationId, Conversation>, today: Day, caps: Caps, c: ConversationId, snapshot: Nonce,
                                 amount: nat, r: Result<Token, Error>)
    requires c in cs
  {
    var row := cs[c];
    if row.proposal.None? || row.proposal.value.nonce != snapshot then r == Err(StaleProposal)
    else if row.proposal.value.stage == Pending then
      forall touched: nat :: IsTouchedToday(cs, today, touched) ==>
        WithinCaps(caps, row.spend, touched, row.proposal.value.terms.price, r)
    else if row.proposal.value.stage == Approved && row.proposal.value.amount == amount then r.Ok?
    else r == Err(AlreadyUsed)
  }

  /** What a granted reservation writes: a pending proposal is charged, once and
      today, and nothing else changes. */
  ghost predicate ReserveWrites(s: State, t: State, c: ConversationId, amount: nat)
    requires c in s.conversations && s.conversations[c].proposal.Some?
  {
    var p := s.conversations[c].proposal.value;
    && (forall b :: b in t.conversations <==> b in s.conversations)
    && (forall b :: b in s.conversations && b != c ==> t.conversations[b] == s.conversations[b])
    && if p.stage == Pending then
         && ChargedRow(s.conversations[c], t.conversations[c], s.today, amount)
         && t.approvals == s.approvals[p.nonce := Approval(c, p.terms.price, s.today)]
       else t.conversations[c] == s.conversations[c] && t.approvals == s.approvals
  }

  lemma ErrorAnswers(s: State, caps: Caps, c: ConversationId, snapshot: Nonce, amount: nat, r: Result<Token, Error>)
    requires c in s.conversations
    requires ReserveError(s, caps, c, snapshot, amount) == if r.Ok? then None else Some(r.error)
    ensures ReserveAnswers(s.conversations, s.today, caps, c, snapshot, amount, r)
  {
    TouchedIsSpend(s.conversations, s.today);
  }

  lemma ReservedWrites(s: State, c: ConversationId, amount: nat)
    requires c in s.conversations && s.conversations[c].proposal.Some?
    ensures ReserveWrites(s, Reserved(s, c, amount), c, amount)
  {
  }

  /** The answer to a transaction brought with a token: stale or changed terms, then
      a transaction already bound, then a proposal that is not up for one. */
  predicate AuthorizeAnswers(row: Conversation, t: Token, terms: Terms, amount: nat, digest: Digest, error: Option<Error>) {
    if row.proposal.None? || row.proposal.value.nonce != t.nonce || t.terms != terms || t.amount != amount then
      error == Some(InvalidIntent)
    else if row.proposal.value.stage == Approved then error.None?
    else if row.proposal.value.stage == Submitting then error == (if row.proposal.value.digest == Some(digest) then None else Some(Replayed))
    else error == Some(AlreadyUsed)
  }

  /** The stage moves; what was agreed and charged stays. */
  predicate StageMoves(before: Conversation, after: Conversation, today: Day, to: Stage, digest: Digest) {
    && before.proposal.Some? && after.proposal.Some? && after.spend == before.spend && after.updated == today
    && after.proposal.value.nonce == before.proposal.value.nonce && after.proposal.value.terms == before.proposal.value.terms
    && after.proposal.value.amount == before.proposal.value.amount
    && after.proposal.value.stage == to && after.proposal.value.digest == Some(digest)
  }

  /** This transaction of the proposal is on its way to the network. */
  predicate IsSubmitting(row: Conversation, nonce: Nonce, digest: Digest) {
    && row.proposal.Some? && row.proposal.value.nonce == nonce
    && row.proposal.value.stage == Submitting && row.proposal.value.digest == Some(digest)
  }

  ghost predicate Bound(s: State, nonce: Nonce, digest: Digest) {
    (nonce, digest) in s.authorised
  }

  /** A reservation issues a token for the charged price, and charges nothing twice. */
  lemma ReserveIssues(s: State, caps: Caps, c: ConversationId, snapshot: Nonce, amount: nat)
    requires Sound(s, caps) && Enabled(s, caps, Event.Reserve(c, snapshot, amount))
    ensures var a := Step(s, caps, Event.Reserve(c, snapshot, amount));
      var token := TokenFor(c, a.conversations[c].proposal.value);
      && Sound(a, caps) && token in a.tokens && token.amount == amount && token.nonce == snapshot
      && ChargedAs(a.approvals, snapshot, c, token.terms.price)
      && (snapshot in s.approvals ==> a.approvals == s.approvals)
  {
    StepKeepsSound(s, caps, Event.Reserve(c, snapshot, amount));
  }

  /** The conversations with their day. `books` is the history beside them: the
      tokens given out, what was charged, which transactions were authorised. */
  class ChatDesk {
    var conversations: map<ConversationId, Conversation>
    var today: Day
    const caps: Caps
    ghost var books: State

    ghost predicate Valid()
      reads this
    {
      books.conversations == conversations && books.today == today && Sound(books, caps)
    }

    constructor (caps: Caps)
      ensures Valid() && this.caps == caps && books == START
    {
      this.caps := caps;
      conversations, today, books := map[], 0, START;
      new;
      StartIsSound(caps);
    }

    /** The sum over the conversations touched today. */
    method ApprovedTodayCents() returns (cents: nat)
      ensures IsTouchedToday(conversations, today, cents) && cents == Total(SpendOf(conversations, today))
    {
      cents := 0;
      var todo := conversations.Keys;
      ghost var done: map<ConversationId, nat> := map[];
      while todo != {}
        invariant todo <= conversations.Keys
        invariant done == map c | c in conversations && c !in todo && conversations[c].updated == today :: conversations[c].spend
        invariant cents == Total(done)
        decreases todo
      {
        var c :| c in todo;
        if conversations[c].updated == today {
          TotalInsert(done, c, conversations[c].spend);
          cents := cents + conversations[c].spend;
          done := done[c := conversations[c].spend];
        }
        todo := todo - {c};
      }
      assert done == SpendOf(conversations, today);
      TouchedIsSpend(conversations, today);
    }

    /** PurchaseApproval#reserve! and the token issued for it, with the amount of the
        quote for the proposal it looked at. The caps hold afterwards. */
    method Reserve(c: ConversationId, snapshot: Nonce, amount: nat) returns (r: Result<Token, Error>)
      requires Valid() && c in conversations
      requires conversations[c].proposal.Some? && conversations[c].proposal.value.nonce == snapshot ==>
        amount == conversations[c].proposal.value.terms.price * UNITS_PER_CENT
      modifies this
      ensures Valid()
      ensures today == old(today) && ReserveAnswers(old(conversations), today, caps, c, snapshot, amount, r)
      ensures r.Err? ==> books == old(books)
      ensures r.Ok? ==>
        && old(conversations)[c].proposal.Some? && ReserveWrites(old(books), books, c, amount)
        && r.value == Token(c, snapshot, old(conversations)[c].proposal.value.terms, amount)
        && books.tokens == old(books).tokens + {r.value}
      ensures r.Ok? ==> Steps(old(books), caps, ChatSpend.Event.Reserve(c, snapshot, amount), books)
      ensures r.Ok? ==>
        amount == r.value.terms.price * 10_000 && ChargedAs(books.approvals, snapshot, c, r.value.terms.price)
      ensures r.Ok? && snapshot in old(books).approvals ==> books.approvals == old(books).approvals
    {
      ghost var s := books;
      r := Charge(c, snapshot, amount);
      ErrorAnswers(s, caps, c, snapshot, amount, r);
      if r.Ok? {
        ReservedWrites(s, c, amount);
        ReserveIssues(s, caps, c, snapshot, amount);
      }
    }

    method Charge(c: ConversationId, snapshot: Nonce, amount: nat) returns (r: Result<Token, Error>)
      requires Valid() && c in conversations
      requires conversations[c].proposal.Some? && conversations[c].proposal.value.nonce == snapshot ==>
        amount == conversations[c].proposal.value.terms.price * UNITS_PER_CENT
      modifies this
      ensures Valid()
      ensures r.Err? ==> books == old(books)
      ensures ReserveError(old(books), caps, c, snapshot, amount) == if r.Ok? then None else Some(r.error)
      ensures r.Ok? ==> Steps(old(books), caps, ChatSpend.Event.Reserve(c, snapshot, amount), books)
      ensures r.Ok? ==> r.value == TokenFor(c, books.conversations[c].proposal.value)
    {
      ghost var s := books;
      var row := conversations[c];
      if row.proposal.None? || row.proposal.value.nonce != snapshot {
        return Err(StaleProposal);
      }
      var p := row.proposal.value;
      if p.stage == Pending {
        var price := p.terms.price;
        if row.spend + price > caps.conversation {
          return Err(SpendCapExceeded);
        }
        var approved := ApprovedTodayCents();
        if approved + price > caps.daily {
          return Err(DailyCapExceeded);
        }
        p := p.(stage := Approved, amount := amount);
        conversations := conversations[c := Conversation(row.spend + price, today, Some(p))];
      } else if p.stage != Approved || p.amount != amount {
        return Err(AlreadyUsed);
      }
      r := Ok(Token(c, p.nonce, p.terms, p.amount));
      assert conversations[c] == ApprovedRow(row, today, amount);
      assert conversations == Reserved(s, c, amount).conversations;
      books := Step(s, caps, ChatSpend.Event.Reserve(c, snapshot, amount));
      ReserveIssues(s, caps, c, snapshot, amount);
    }

    /** PurchaseIntent.authorize!, for a token with a valid signature: it binds the
        token's nonce to the one transaction ever authorised for it, at the charged
        price; another transaction for a bound nonce is refused. */
    method Authorize(t: Token, terms: Terms, amount: nat, digest: Digest) returns (error: Option<Error>)
      requires Valid() && t in books.tokens && t.conversation in conversations
      modifies this
      ensures Valid()
      ensures AuthorizeAnswers(old(conversations)[t.conversation], t, terms, amount, digest, error)
      ensures error.Some? ==> books == old(books)
      ensures error.None? && old(conversations)[t.conversation].proposal.value.stage == Submitting ==> conversations == old(conversations)
      ensures error.None? && old(conversations)[t.conversation].proposal.value.stage == Approved ==>
        && conversations.Keys == old(conversations).Keys
        && (forall b :: b in conversations && b != t.conversation ==> conversations[b] == old(conversations)[b])
        && StageMoves(old(conversations)[t.conversation], conversations[t.conversation], today, Submitting, digest)
      ensures error.None? ==> Steps(old(books), caps, ChatSpend.Event.Authorize(t, terms, amount, digest), books)
      ensures error.None? ==> Bound(books, t.nonce, digest) && forall d :: Bound(books, t.nonce, d) ==> d == digest
      ensures error.None? ==>
        amount == terms.price * 10_000 && ChargedAs(books.approvals, t.nonce, t.conversation, terms.price)
      ensures (exists d :: d != digest && Bound(old(books), t.nonce, d)) ==> error.Some?
    {
      ghost var s := books;
      var row := conversations[t.conversation];
      if row.proposal.None? || row.proposal.value.nonce != t.nonce || t.terms != terms || t.amount != amount {
        return Some(InvalidIntent);
      }
      var p := row.proposal.value;
      match p.stage {
        case Approved =>
          p := p.(stage := Submitting, digest := Some(digest));
          conversations := conversations[t.conversation := row.(updated := today, proposal := Some(p))];
        case Submitting =>
          if p.digest != Some(digest) {
            return Some(Replayed);
          }
        case _ =>
          return Some(AlreadyUsed);
      }
      books := Step(s, caps, ChatSpend.Event.Authorize(t, terms, amount, digest));
      StepKeepsSound(s, caps, ChatSpend.Event.Authorize(t, terms, amount, digest));
      assert Bound(books, t.nonce, digest);
      error := None;
    }

    /** PurchaseIntent.complete!; it charges and authorises nothing, and after it no
        token of that nonce is accepted again. */
    method Complete(c: ConversationId, nonce: Nonce, digest: Digest)
      requires Valid()
      modifies this
      ensures Valid() && books.approvals == old(books).approvals && books.authorised == old(books).authorised
      ensures c in old(conversations) && IsSubmitting(old(conversations)[c], nonce, digest) ==>
        && conversations.Keys == old(conversations).Keys
        && (forall b :: b in conversations && b != c ==> conversations[b] == old(conversations)[b])
        && StageMoves(old(conversations)[c], conversations[c], today, Completed, digest)
      ensures !(c in old(conversations) && IsSubmitting(old(conversations)[c], nonce, digest)) ==> conversations == old(conversations)
      ensures if Enabled(old(books), caps, ChatSpend.Event.Complete(c, nonce, digest))
        then Steps(old(books), caps, ChatSpend.Event.Complete(c, nonce, digest), books)
        else books == old(books)
      ensures Enabled(old(books), caps, ChatSpend.Event.Complete(c, nonce, digest)) ==>
        forall t: Token, terms: Terms, amount: nat, d: Digest :: t.conversation == c && t.nonce == nonce ==>
          AuthorizeError(conversations[c], t, terms, amount, d).Some?
    {
      if c !in conversations {
        return;
      }
      ghost var s := books;
      var row := conversations[c];
      if row.proposal.Some? && row.proposal.value.nonce == nonce && row.proposal.value.digest == Some(digest)
         && row.proposal.value.stage == Submitting {
        conversations := conversations[c := row.(updated := today, proposal := Some(row.proposal.value.(stage := Completed)))];
        books := Step(s, caps, ChatSpend.Event.Complete(c, nonce, digest));
        StepKeepsSound(s, caps, ChatSpend.Event.Complete(c, nonce, digest));
      }
    }
  }
}
