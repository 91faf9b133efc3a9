/** Purchases approved in a chat: the spending caps, and the binding of one approval
    to one transaction. */
module ChatSpend {
  import opened Wrappers
  import opened Sums

  type ConversationId = nat
  type Nonce = nat
  type Digest = nat
  type Day = nat

  /** What a proposal offers and an intent token is bound to. */
  datatype Terms = Terms(model: nat, kind: string, price: nat, path: string)

  datatype Stage = Pending | Approved | Submitting | Completed

  datatype Proposal = Proposal(nonce: Nonce, terms: Terms, stage: Stage, amount: nat, digest: Option<Digest>)

  datatype Conversation = Conversation(spend: nat, updated: Day, proposal: Option<Proposal>)

  /** The signed, unforgeable intent. */
  datatype Token = Token(conversation: ConversationId, nonce: Nonce, terms: Terms, amount: nat)

  /** An approval as it was charged. */
  datatype Approval = Approval(conversation: ConversationId, price: nat, day: Day)

  datatype Caps = Caps(conversation: nat, daily: nat)

  const UNITS_PER_CENT := 10_000

  datatype State = State(
    conversations: map<ConversationId, Conversation>,
    today: Day,
    usedConversations: set<ConversationId>,
    usedNonces: set<Nonce>,
    tokens: set<Token>,
    approvals: map<Nonce, Approval>,
    authorised: set<(Nonce, Digest)>)

  datatype Error = StaleProposal | SpendCapExceeded | DailyCapExceeded | AlreadyUsed | InvalidIntent | Replayed

  // ------------------------------------------------------------------- the counter

  function SpendOf(cs: map<ConversationId, Conversation>, day: Day): map<ConversationId, nat> {
    map c | c in cs && cs[c].updated == day :: cs[c].spend
  }

  /** approved_today_cents: everything a conversation touched today ever approved. */
  ghost function ApprovedToday(s: State): nat {
    Total(SpendOf(s.conversations, s.today))
  }

  // ----------------------------------------------------------------------- the calls

  /** reserve!, given the quoted amount and the nonce the quote was fetched for. */
  ghost function ReserveError(s: State, caps: Caps, c: ConversationId, snapshot: Nonce, amount: nat): Option<Error>
    requires c in s.conversations
  {
    var row := s.conversations[c];
    if row.proposal.None? || row.proposal.value.nonce != snapshot then Some(StaleProposal)
    else
      var p := row.proposal.value;
      if p.stage == Pending then
        if row.spend + p.terms.price > caps.conversation then Some(SpendCapExceeded)
        else if ApprovedToday(s) + p.terms.price > caps.daily then Some(DailyCapExceeded)
        else None
      else if p.stage != Approved || p.amount != amount then Some(AlreadyUsed)
      else None
  }

  function ApprovedRow(row: Conversation, today: Day, amount: nat): Conversation
    requires row.proposal.Some?
  {
    if row.proposal.value.stage != Pending then row
    else Conversation(row.spend + row.proposal.value.terms.price, today,
                      Some(row.proposal.value.(stage := Approved, amount := amount)))
  }

  function TokenFor(c: ConversationId, p: Proposal): Token {
    Token(c, p.nonce, p.terms, p.amount)
  }

  function Reserved(s: State, c: ConversationId, amount: nat): State
    requires c in s.conversations && s.conversations[c].proposal.Some?
  {
    var row := s.conversations[c];
    var after := ApprovedRow(row, s.today, amount);
    s.(conversations := s.conversations[c := after],
       tokens := s.tokens + {TokenFor(c, after.proposal.value)},
       approvals := if row.proposal.value.stage == Pending
                    then s.approvals[row.proposal.value.nonce := Approval(c, row.proposal.value.terms.price, s.today)]
                    else s.approvals)
  }

  /** authorize!, for a token with a valid signature and time left, and the terms and
      amount of the request it came with. */
  function AuthorizeError(row: Conversation, t: Token, terms: Terms, amount: nat, digest: Digest): Option<Error> {
    if row.proposal.None? || row.proposal.value.nonce != t.nonce || t.terms != terms || t.amount != amount then Some(InvalidIntent)
    else
      match row.proposal.value.stage
      case Approved => None
      case Submitting => if row.proposal.value.digest == Some(digest) then None else Some(Replayed)
      case _ => Some(AlreadyUsed)
  }

  function AuthorizedRow(row: Conversation, today: Day, digest: Digest): Conversation
    requires row.proposal.Some?
  {
    if row.proposal.value.stage != Approved then row
    else row.(updated := today, proposal := Some(row.proposal.value.(stage := Submitting, digest := Some(digest))))
  }

  /** complete! moves only the proposal and transaction it was authorised for. */
  predicate Completes(row: Conversation, nonce: Nonce, digest: Digest) {
    row.proposal.Some? && row.proposal.value.nonce == nonce && row.proposal.value.digest == Some(digest)
    && row.proposal.value.stage == Submitting
  }

  function CompletedRow(row: Conversation, today: Day): Conversation
    requires row.proposal.Some?
  {
    row.(updated := today, proposal := Some(row.proposal.value.(stage := Completed)))
  }

  // ------------------------------------------------------------------------- machine

  datatype Event =
    | NewDay(day: Day)
    | Open(c: ConversationId)
    | Close(c: ConversationId)
    | Talk(c: ConversationId)
    | ClearProposal(c: ConversationId)
    | Propose(c: ConversationId, nonce: Nonce, terms: Terms)
    | Reserve(c: ConversationId, snapshot: Nonce, amount: nat)
    | Authorize(t: Token, terms: Terms, amount: nat, digest: Digest)
    | Complete(c: ConversationId, nonce: Nonce, digest: Digest)

  ghost predicate Enabled(s: State, caps: Caps, e: Event) {
    match e
    case NewDay(day) => day > s.today
    case Open(c) => c !in s.usedConversations
    case Close(c) => c in s.conversations
    case Talk(c) => c in s.conversations
    case ClearProposal(c) => c in s.conversations
    case Propose(c, nonce, _) => c in s.conversations && nonce !in s.usedNonces
    case Reserve(c, snapshot, amount) =>
      c in s.conversations && ReserveError(s, caps, c, snapshot, amount).None?
      && amount == s.conversations[c].proposal.value.terms.price * UNITS_PER_CENT
    case Authorize(t, terms, amount, digest) =>
      t in s.tokens && t.conversation in s.conversations
      && AuthorizeError(s.conversations[t.conversation], t, terms, amount, digest).None?
    case Complete(c, nonce, digest) => c in s.conversations && Completes(s.conversations[c], nonce, digest)
  }

  ghost function Step(s: State, caps: Caps, e: Event): State
    requires Enabled(s, caps, e)
  {
    match e
    case NewDay(day) => s.(today := day)
    case Open(c) =>
      s.(conversations := s.conversations[c := Conversation(0, s.today, None)], usedConversations := s.usedConversations + {c})
    case Close(c) => s.(conversations := s.conversations - {c})
    case Talk(c) => s.(conversations := s.conversations[c := s.conversations[c].(updated := s.today)])
    case ClearProposal(c) => s.(conversations := s.conversations[c := s.conversations[c].(updated := s.today, proposal := None)])
    case Propose(c, nonce, terms) =>
      s.(conversations := s.conversations[c :=
           s.conversations[c].(updated := s.today, proposal := Some(Proposal(nonce, terms, Pending, 0, None)))],
         usedNonces := s.usedNonces + {nonce})
    case Reserve(c, _, amount) => Reserved(s, c, amount)
    case Authorize(t, _, _, digest) =>
      s.(conversations := s.conversations[t.conversation := AuthorizedRow(s.conversations[t.conversation], s.today, digest)],
         authorised := s.authorised + {(t.nonce, digest)})
    case Complete(c, _, _) => s.(conversations := s.conversations[c := CompletedRow(s.conversations[c], s.today)])
  }

  // ---------------------------------------------------------------------- invariants

  /** The approvals charged to one conversation. */
  function ChargedTo(approvals: map<Nonce, Approval>, c: ConversationId): map<Nonce, nat> {
    map n | n in approvals && approvals[n].conversation == c :: approvals[n].price
  }

  /** Today's approvals by conversations that still exist. */
  function ChargedToday(approvals: map<Nonce, Approval>, today: Day, live: set<ConversationId>): map<Nonce, nat> {
    map n | n in approvals && approvals[n].day == today && approvals[n].conversation in live :: approvals[n].price
  }

  ghost predicate Stored(s: State) {
    && s.conversations.Keys <= s.usedConversations
    && s.approvals.Keys <= s.usedNonces
    && (forall n :: n in s.approvals ==> s.approvals[n].conversation in s.usedConversations && s.approvals[n].day <= s.today)
    && (forall c :: c in s.conversations ==> s.conversations[c].updated <= s.today)
    && (forall n, d :: (n, d) in s.authorised ==> n in s.usedNonces)
  }

  /** A nonce is in at most one conversation. */
  ghost predicate NoncesApart(cs: map<ConversationId, Conversation>, used: set<Nonce>) {
    && (forall c :: c in cs && cs[c].proposal.Some? ==> cs[c].proposal.value.nonce in used)
    && (forall b, c :: b in cs && c in cs && b != c && cs[b].proposal.Some? && cs[c].proposal.Some? ==>
          cs[b].proposal.value.nonce != cs[c].proposal.value.nonce)
  }

  /** A pending proposal has not been charged; a charged one is in its own
      conversation's account. */
  ghost predicate ChargedOnce(s: State) {
    forall c :: c in s.conversations && s.conversations[c].proposal.Some? ==>
      var p := s.conversations[c].proposal.value;
      (p.stage == Pending <==> p.nonce !in s.approvals)
  }

  /** The nonce was charged to the conversation, at the price. */
  predicate ChargedAs(approvals: map<Nonce, Approval>, nonce: Nonce, c: ConversationId, price: nat) {
    nonce in approvals && approvals[nonce].conversation == c && approvals[nonce].price == price
  }

  /** Tokens and approved proposals carry the charged price, in base units. */
  ghost predicate Priced(s: State) {
    && (forall t :: t in s.tokens ==>
          t.amount == t.terms.price * UNITS_PER_CENT && ChargedAs(s.approvals, t.nonce, t.conversation, t.terms.price))
    && (forall c :: c in s.conversations && s.conversations[c].proposal.Some? && s.conversations[c].proposal.value.stage != Pending ==>
          var p := s.conversations[c].proposal.value;
          p.amount == p.terms.price * UNITS_PER_CENT && ChargedAs(s.approvals, p.nonce, c, p.terms.price))
  }

  /** A conversation's running total is what was charged to it, within its cap. */
  ghost predicate Accounted(s: State, caps: Caps) {
    forall c :: c in s.conversations ==>
      s.conversations[c].spend == Total(ChargedTo(s.approvals, c)) && s.conversations[c].spend <= caps.conversation
  }

  /** A conversation with an approval today was touched today. */
  ghost predicate TouchedToday(s: State) {
    forall n :: n in s.approvals && s.approvals[n].day == s.today && s.approvals[n].conversation in s.conversations ==>
      s.conversations[s.approvals[n].conversation].updated == s.today
  }

  ghost predicate WithinDailyCap(s: State, caps: Caps) {
    Total(ChargedToday(s.approvals, s.today, s.conversations.Keys)) <= caps.daily
  }

  /** Only the stored digest was ever authorised for the proposal's nonce. */
  ghost predicate OnlyItsOwn(authorised: set<(Nonce, Digest)>, p: Proposal) {
    forall d :: (p.nonce, d) in authorised ==> (p.stage == Submitting || p.stage == Completed) && p.digest == Some(d)
  }

  /** One transaction digest per nonce, ever; while the proposal is stored it is the
      one stored with it. */
  ghost predicate OneTransaction(s: State) {
    && (forall n, d, e :: (n, d) in s.authorised && (n, e) in s.authorised ==> d == e)
    && (forall c :: c in s.conversations && s.conversations[c].proposal.Some? ==>
          OnlyItsOwn(s.authorised, s.conversations[c].proposal.value))
  }

  ghost predicate Sound(s: State, caps: Caps) {
    Stored(s) && NoncesApart(s.conversations, s.usedNonces) && ChargedOnce(s) && Accounted(s, caps) && TouchedToday(s)
    && WithinDailyCap(s, caps) && OneTransaction(s) && Priced(s)
  }

  const START := State(map[], 0, {}, {}, {}, map[], {})
}
