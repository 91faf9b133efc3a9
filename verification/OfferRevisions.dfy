/** Editing licence offers: an offer nobody has reserved is edited in place, a
    reserved or sold one is closed and superseded by its next revision. */
module OfferRevisions {
  import opened Wrappers

  type OfferId = nat
  type ModelId = nat

  datatype Kind = Personal | CommercialUnit

  datatype Currency = USDC | HBAR

  /** The fields a buyer's licence depends on. */
  datatype Commercial = Commercial(kind: Kind, price: nat, currency: Currency, maxUnits: Option<nat>, terms: string)

  datatype Offer = Offer(model: ModelId, commercial: Commercial, active: bool, revision: nat, supersedes: Option<OfferId>)

  /** What a form sends; a field it does not send is None. A price that is not a
      whole number of cents arrives as Some(0). */
  datatype Attributes = Attributes(kind: Option<Kind>, price: Option<nat>, currency: Option<Currency>, maxUnits: Option<Option<nat>>)

  const DEFAULT_TERMS := "v3"

  /** `reserved` are the offers with a real purchase that has not failed, `bought`
      those with any purchase row. */
  datatype State = State(offers: map<OfferId, Offer>, reserved: set<OfferId>, bought: set<OfferId>)

  datatype Error = NotFound | Invalid | HasPurchases

  // ------------------------------------------------------------------ validations

  /** The uniqueness validation and the partial unique index behind it. */
  predicate KindTaken(offers: map<OfferId, Offer>, o: OfferId, model: ModelId, kind: Kind) {
    exists p :: p in offers && p != o && offers[p].active && offers[p].model == model && offers[p].commercial.kind == kind
  }

  predicate Savable(offers: map<OfferId, Offer>, o: OfferId, offer: Offer) {
    offer.commercial.price > 0 && offer.revision > 0
    && (offer.active ==> !KindTaken(offers, o, offer.model, offer.commercial.kind))
  }

  predicate Superseded(offers: map<OfferId, Offer>, o: OfferId) {
    exists p :: p in offers && offers[p].supersedes == Some(o)
  }

  function Edited(c: Commercial, a: Attributes): Commercial {
    Commercial(if a.kind.Some? then a.kind.value else c.kind,
               if a.price.Some? then a.price.value else c.price,
               if a.currency.Some? then a.currency.value else c.currency,
               if a.maxUnits.Some? then a.maxUnits.value else c.maxUnits,
               c.terms)
  }

  /** A row built from the attributes alone: what is not sent is the column default. */
  function Built(a: Attributes, currency: Currency, terms: string): Option<Commercial> {
    if a.kind.None? || a.price.None? then None
    else Some(Commercial(a.kind.value, a.price.value, currency, if a.maxUnits.Some? then a.maxUnits.value else None, terms))
  }

  // ---------------------------------------------------------------------- the calls

  function Created(s: State, model: ModelId, a: Attributes, newId: OfferId): Result<State, Error> {
    match Built(a, if a.currency.Some? then a.currency.value else USDC, DEFAULT_TERMS)
    case None => Err(Invalid)
    case Some(c) =>
      var offer := Offer(model, c, true, 1, None);
      if Savable(s.offers, newId, offer) then Ok(s.(offers := s.offers[newId := offer])) else Err(Invalid)
  }

  function Removed(s: State, o: OfferId): Result<State, Error>
    requires o in s.offers
  {
    if o in s.reserved then Ok(s.(offers := s.offers[o := s.offers[o].(active := false)]))
    else if o in s.bought || Superseded(s.offers, o) then Err(HasPurchases)
    else Ok(s.(offers := s.offers - {o}))
  }

  function Superseding(s: State, o: OfferId, a: Attributes, newId: OfferId): Result<State, Error>
    requires o in s.offers
  {
    var previous := s.offers[o];
    var closed := s.offers[o := previous.(active := false)];
    match Built(a, if a.currency.Some? then a.currency.value else previous.commercial.currency, previous.commercial.terms)
    case None => Err(Invalid)
    case Some(c) =>
      var next := Offer(previous.model, c, true, previous.revision + 1, Some(o));
      if Savable(closed, newId, next) then Ok(s.(offers := closed[newId := next])) else Err(Invalid)
  }

  /** LicenseOffers::Reviser.call for an existing offer. */
  function Revised(s: State, model: ModelId, o: OfferId, destroy: bool, a: Attributes, newId: OfferId): Result<State, Error> {
    if o !in s.offers || s.offers[o].model != model || !s.offers[o].active then Err(NotFound)
    else if destroy then Removed(s, o)
    else
      var edited := Edited(s.offers[o].commercial, a);
      if edited == s.offers[o].commercial then Ok(s)
      else if o !in s.reserved then
        if Savable(s.offers, o, s.offers[o].(commercial := edited))
        then Ok(s.(offers := s.offers[o := s.offers[o].(commercial := edited)]))
        else Err(Invalid)
      else Superseding(s, o, a, newId)
  }

  datatype Event =
    | Create(model: ModelId, a: Attributes, newId: OfferId)
    | Revise(model: ModelId, o: OfferId, destroy: bool, a: Attributes, newId: OfferId)
    | Reserve(o: OfferId)
    | Release(o: OfferId)

  predicate Enabled(s: State, e: Event) {
    match e
    case Create(_, _, f) => f !in s.offers && f !in s.bought
    case Revise(_, _, _, _, f) => f !in s.offers && f !in s.bought
    case Reserve(o) => o in s.offers && s.offers[o].active
    case Release(o) => true
  }

  function Kept(s: State, r: Result<State, Error>): State {
    if r.Ok? then r.value else s
  }

  /** A call that fails leaves everything as it was. */
  function Step(s: State, e: Event): State {
    match e
    case Create(model, a, f) => Kept(s, Created(s, model, a, f))
    case Revise(model, o, destroy, a, f) => Kept(s, Revised(s, model, o, destroy, a, f))
    case Reserve(o) => s.(reserved := s.reserved + {o}, bought := s.bought + {o})
    case Release(o) => s.(reserved := s.reserved - {o})
  }

  // -------------------------------------------------------------------- invariants

  ghost predicate OneActive(offers: map<OfferId, Offer>) {
    forall o, p :: o in offers && p in offers && o != p && offers[o].active && offers[p].active ==>
      offers[o].model != offers[p].model || offers[o].commercial.kind != offers[p].commercial.kind
  }

  ghost predicate Positive(offers: map<OfferId, Offer>) {
    forall o :: o in offers ==> offers[o].revision > 0 && offers[o].commercial.price > 0
  }

  /** A revision follows a closed offer of its listing, one number up. */
  predicate FollowsOn(offers: map<OfferId, Offer>, o: Offer) {
    o.supersedes.Some? ==>
      var p := o.supersedes.value;
      p in offers && !offers[p].active && offers[p].model == o.model && o.revision == offers[p].revision + 1
  }

  /** No offer is followed twice. */
  ghost predicate FollowedOnce(offers: map<OfferId, Offer>) {
    forall o, p :: o in offers && p in offers && o != p && offers[o].supersedes.Some? ==> offers[o].supersedes != offers[p].supersedes
  }

  ghost predicate Chained(offers: map<OfferId, Offer>) {
    Positive(offers) && (forall o :: o in offers ==> FollowsOn(offers, offers[o])) && FollowedOnce(offers)
  }

  ghost predicate Sound(s: State) {
    OneActive(s.offers) && Chained(s.offers) && s.reserved <= s.bought && s.bought <= s.offers.Keys
  }

  lemma CreatedKeepsSound(s: State, model: ModelId, a: Attributes, f: OfferId)
    requires Sound(s) && f !in s.offers && Created(s, model, a, f).Ok?
    ensures Sound(Created(s, model, a, f).value)
  {
    var after := Created(s, model, a, f).value.offers;
    forall p | p in after
      ensures FollowsOn(after, after[p])
    {
      assert p in s.offers ==> FollowsOn(s.offers, s.offers[p]);
    }
  }

  lemma RemovedKeepsSound(s: State, o: OfferId)
    requires Sound(s) && o in s.offers && Removed(s, o).Ok?
    ensures Sound(Removed(s, o).value)
  {
    var after := Removed(s, o).value.offers;
    forall p | p in after
      ensures FollowsOn(after, after[p])
    {
      assert FollowsOn(s.offers, s.offers[p]);
    }
  }

  lemma SupersedingKeepsOneActive(s: State, o: OfferId, a: Attributes, f: OfferId)
    requires OneActive(s.offers) && o in s.offers && f !in s.offers && Superseding(s, o, a, f).Ok?
    ensures OneActive(Superseding(s, o, a, f).value.offers)
  {
  }

  lemma SupersedingKeepsSound(s: State, o: OfferId, a: Attributes, f: OfferId)
    requires Sound(s) && o in s.offers && s.offers[o].active && f !in s.offers && Superseding(s, o, a, f).Ok?
    ensures Sound(Superseding(s, o, a, f).value)
  {
    SupersedingKeepsOneActive(s, o, a, f);
    SupersedingKeepsChain(s, o, a, f);
  }

  lemma SupersedingKeepsChain(s: State, o: OfferId, a: Attributes, f: OfferId)
    requires Chained(s.offers) && o in s.offers && s.offers[o].active && f !in s.offers && Superseding(s, o, a, f).Ok?
    ensures Chained(Superseding(s, o, a, f).value.offers)
  {
    var after := Superseding(s, o, a, f).value.offers;
    forall p | p in s.offers
      ensures s.offers[p].supersedes != Some(o)
    {
      assert FollowsOn(s.offers, s.offers[p]);
    }
    forall p | p in after
      ensures FollowsOn(after, after[p])
    {
      assert p in s.offers ==> FollowsOn(s.offers, s.offers[p]);
    }
    SupersedingFollowsOnce(s, o, a, f);
  }

  lemma SupersedingFollowsOnce(s: State, o: OfferId, a: Attributes, f: OfferId)
    requires FollowedOnce(s.offers) && o in s.offers && f !in s.offers && Superseding(s, o, a, f).Ok?
    requires forall p :: p in s.offers ==> s.offers[p].supersedes != Some(o)
    ensures FollowedOnce(Superseding(s, o, a, f).value.offers)
  {
  }

  lemma EditedKeepsSound(s: State, o: OfferId, c: Commercial)
    requires Sound(s) && o in s.offers && Savable(s.offers, o, s.offers[o].(commercial := c))
    ensures Sound(s.(offers := s.offers[o := s.offers[o].(commercial := c)]))
  {
    var after := s.offers[o := s.offers[o].(commercial := c)];
    forall p | p in after
      ensures FollowsOn(after, after[p])
    {
      assert FollowsOn(s.offers, s.offers[p]);
    }
  }

  lemma RevisedKeepsSound(s: State, model: ModelId, o: OfferId, destroy: bool, a: Attributes, f: OfferId)
    requires Sound(s) && f !in s.offers
    ensures Sound(Kept(s, Revised(s, model, o, destroy, a, f)))
  {
    if Revised(s, model, o, destroy, a, f).Ok? {
      assert FollowsOn(s.offers, s.offers[o]);
      if destroy {
        RemovedKeepsSound(s, o);
      } else if Edited(s.offers[o].commercial, a) != s.offers[o].commercial && o in s.reserved {
        SupersedingKeepsSound(s, o, a, f);
      } else if Edited(s.offers[o].commercial, a) != s.offers[o].commercial {
        EditedKeepsSound(s, o, Edited(s.offers[o].commercial, a));
      }
    }
  }

  lemma StepKeepsSound(s: State, e: Event)
    requires Sound(s) && Enabled(s, e)
    ensures Sound(Step(s, e))
  {
    match e {
      case Create(model, a, f) =>
        if Created(s, model, a, f).Ok? {
          CreatedKeepsSound(s, model, a, f);
        }
      case Revise(model, o, destroy, a, f) => RevisedKeepsSound(s, model, o, destroy, a, f);
      case _ =>
    }
  }

  ghost predicate Possible(s: State, run: seq<Event>)
    decreases |run|
  {
    run == [] || (Enabled(s, run[0]) && Possible(Step(s, run[0]), run[1..]))
  }

  ghost function Exec(s: State, run: seq<Event>): State
    requires Possible(s, run)
    decreases |run|
  {
    if run == [] then s else Exec(Step(s, run[0]), run[1..])
  }

  lemma {:induction false} RunKeepsSound(s: State, run: seq<Event>)
    requires Sound(s) && Possible(s, run)
    ensures Sound(Exec(s, run))
    decreases |run|
  {
    if run != [] {
      StepKeepsSound(s, run[0]);
      RunKeepsSound(Step(s, run[0]), run[1..]);
    }
  }

  const START := State(map[], {}, {})

  /** In every reachable state a listing has at most one active offer of a kind, and
      every revision follows exactly one closed offer, one number up. */
  lemma OffersStaySound(run: seq<Event>)
    requires Possible(START, run)
    ensures OneActive(Exec(START, run).offers) && Chained(Exec(START, run).offers)
  {
    RunKeepsSound(START, run);
  }

  /** n links back along the supersedes chain. */
  ghost function Ancestor(offers: map<OfferId, Offer>, o: OfferId, n: nat): Option<OfferId> {
    if n == 0 then Some(o)
    else
      match Ancestor(offers, o, n - 1)
      case None => None
      case Some(p) => if p in offers then offers[p].supersedes else None
  }

  /** The n-th ancestor is n revisions older, so a chain never returns to an offer it
      has passed. */
  lemma {:induction false} AncestorsAreOlder(offers: map<OfferId, Offer>, o: OfferId, n: nat)
    requires Chained(offers) && o in offers && Ancestor(offers, o, n).Some?
    ensures Ancestor(offers, o, n).value in offers
    ensures offers[Ancestor(offers, o, n).value].revision + n == offers[o].revision
    ensures n > 0 ==> Ancestor(offers, o, n) != Some(o) && !offers[Ancestor(offers, o, n).value].active
  {
    if n > 0 {
      AncestorsAreOlder(offers, o, n - 1);
      var p := Ancestor(offers, o, n - 1).value;
      assert FollowsOn(offers, offers[p]);
    }
  }

  /** No edit changes what a reserved offer says, or takes it away. */
  lemma ReservedOfferIsImmutable(s: State, e: Event, o: OfferId)
    requires Sound(s) && Enabled(s, e) && o in s.reserved
    ensures o in Step(s, e).offers
    ensures Step(s, e).offers[o] == s.offers[o] || Step(s, e).offers[o] == s.offers[o].(active := false)
  {
  }

  /** The offer a successful edit leaves on sale. */
  function Standing(s: State, o: OfferId, a: Attributes, f: OfferId): OfferId
    requires o in s.offers
  {
    if o in s.reserved && Edited(s.offers[o].commercial, a) != s.offers[o].commercial then f else o
  }

  /** The cap reaches the successor: it is sent, or there is none to lose. */
  predicate CapSurvives(s: State, o: OfferId, a: Attributes)
    requires o in s.offers
  {
    o in s.reserved ==> a.maxUnits.Some? || s.offers[o].commercial.maxUnits.None?
  }

  /** An edit leaves one active offer, and it says what the edit asked for exactly
      when the cap survives: a reserved offer's successor is built from the sent
      attributes alone, so a cap that is not sent again is gone. */
  lemma EditTakesEffectExactly(s: State, model: ModelId, o: OfferId, a: Attributes, f: OfferId)
    requires f !in s.offers && Revised(s, model, o, false, a, f).Ok?
    ensures var offers, q := Revised(s, model, o, false, a, f).value.offers, Standing(s, o, a, f);
      && q in offers && offers[q].active && offers[q].model == model
      && (q != o ==> offers[q].supersedes == Some(o) && !offers[o].active)
      && (AsAsked(s.offers[o].commercial, a, offers[q].commercial) <==> q == o || CapSurvives(s, o, a))
      && (q != o ==> (offers[q].commercial.maxUnits == s.offers[o].commercial.maxUnits <==>
                      a.maxUnits == Some(s.offers[o].commercial.maxUnits)
                      || (a.maxUnits.None? && s.offers[o].commercial.maxUnits.None?)))
  {
  }

  /** A capped offer is opened, reserved, and repriced by a form without the cap. */
  const REPRICING := [
    Create(0, Attributes(Some(Personal), Some(900), None, Some(Some(5))), 1),
    Reserve(1),
    Revise(0, 1, false, Attributes(Some(Personal), Some(1000), None, None), 2)]

  /** Such a form is one the code can receive: its run ends with an uncapped offer. */
  lemma UnsentCapIsLost()
    ensures Possible(START, REPRICING)
    ensures var offers := Exec(START, REPRICING).offers;
      && 1 in offers && offers[1].commercial.maxUnits == Some(5) && !offers[1].active
      && 2 in offers && offers[2].commercial.maxUnits == None && offers[2].active && offers[2].supersedes == Some(1)
  {
    var c := Commercial(Personal, 900, USDC, Some(5), DEFAULT_TERMS);
    var s1 := Step(START, REPRICING[0]);
    assert s1 == State(map[1 := Offer(0, c, true, 1, None)], {}, {});
    var s2 := Step(s1, REPRICING[1]);
    assert s2 == s1.(reserved := {1}, bought := {1});
    var s3 := Step(s2, REPRICING[2]);
    var next := Offer(0, c.(price := 1000, maxUnits := None), true, 2, Some(1));
    assert Savable(s2.offers[1 := s2.offers[1].(active := false)], 2, next);
    assert s3.offers == map[1 := Offer(0, c, false, 1, None), 2 := next];
    assert REPRICING[1..][1..] == [REPRICING[2]] && REPRICING[1..][0] == REPRICING[1];
    assert [REPRICING[2]][1..] == [] && Possible(s3, []) && Exec(s3, []) == s3;
    assert Possible(s2, [REPRICING[2]]) && Exec(s2, [REPRICING[2]]) == s3;
    assert Possible(s1, REPRICING[1..]) && Exec(s1, REPRICING[1..]) == s3;
  }

  // ---------------------------------------------------------------- what a call does

  /** The terms asked for: what is sent replaces, what is not sent stays. */
  predicate AsAsked(before: Commercial, a: Attributes, after: Commercial) {
    && (if a.kind.Some? then after.kind == a.kind.value else after.kind == before.kind)
    && (if a.price.Some? then after.price == a.price.value else after.price == before.price)
    && (if a.currency.Some? then after.currency == a.currency.value else after.currency == before.currency)
    && (if a.maxUnits.Some? then after.maxUnits == a.maxUnits.value else after.maxUnits == before.maxUnits)
    && after.terms == before.terms
  }

  /** The terms of a row built from what was sent; a cap that was not is none. */
  predicate AsSent(c: Commercial, a: Attributes, currency: Currency, terms: string) {
    && a.kind == Some(c.kind) && a.price == Some(c.price) && c.currency == currency && c.terms == terms
    && c.maxUnits == if a.maxUnits.Some? then a.maxUnits.value else None
  }

  /** Another active offer of the listing has this kind. */
  ghost predicate HasRival(offers: map<OfferId, Offer>, o: OfferId, model: ModelId, kind: Kind) {
    exists p :: p in offers && p != o && offers[p].active && offers[p].model == model && offers[p].commercial.kind == kind
  }

  /** Only this offer changed. */
  ghost predicate OnlyAt(before: map<OfferId, Offer>, after: map<OfferId, Offer>, o: OfferId) {
    && (forall p :: p != o ==> (p in after <==> p in before))
    && (forall p :: p != o && p in before && p in after ==> after[p] == before[p])
  }

  ghost predicate Creates(before: map<OfferId, Offer>, after: map<OfferId, Offer>, model: ModelId, a: Attributes, id: OfferId,
                          error: Option<Error>) {
    && (error.None? <==>
          a.kind.Some? && a.price.Some? && a.price.value > 0 && !HasRival(before, id, model, a.kind.value))
    && (error.Some? ==> error == Some(Invalid) && after == before)
    && (error.None? ==>
          && OnlyAt(before, after, id) && id in after
          && after[id].model == model && after[id].active && after[id].revision == 1 && after[id].supersedes.None?
          && AsSent(after[id].commercial, a, if a.currency.Some? then a.currency.value else USDC, "v3"))
  }

  /** A reserved offer is closed; one with any purchase or successor is refused; any
      other goes. */
  ghost predicate Destroys(before: map<OfferId, Offer>, after: map<OfferId, Offer>, reserved: set<OfferId>, bought: set<OfferId>,
                           o: OfferId, error: Option<Error>)
    requires o in before
  {
    if o in reserved then
      error.None? && OnlyAt(before, after, o) && o in after && after[o] == before[o].(active := false)
    else if o in bought || (exists p :: p in before && before[p].supersedes == Some(o)) then
      error == Some(HasPurchases) && after == before
    else error.None? && OnlyAt(before, after, o) && o !in after
  }

  /** An offer nobody reserved takes the terms asked for. */
  ghost predicate Edits(before: map<OfferId, Offer>, after: map<OfferId, Offer>, model: ModelId, o: OfferId, a: Attributes,
                        error: Option<Error>)
    requires o in before
  {
    var c := before[o].commercial;
    && (error.None? <==>
          && (if a.price.Some? then a.price.value > 0 else c.price > 0)
          && !HasRival(before, o, model, if a.kind.Some? then a.kind.value else c.kind))
    && (error.Some? ==> error == Some(Invalid) && after == before)
    && (error.None? ==>
          && OnlyAt(before, after, o) && o in after && AsAsked(c, a, after[o].commercial)
          && after[o] == before[o].(commercial := after[o].commercial))
  }

  /** A reserved offer is closed and followed by one built from what was sent. */
  ghost predicate Supersedes(before: map<OfferId, Offer>, after: map<OfferId, Offer>, model: ModelId, o: OfferId, a: Attributes,
                             id: OfferId, error: Option<Error>)
    requires o in before
  {
    var c := before[o].commercial;
    && (error.None? <==>
          a.kind.Some? && a.price.Some? && a.price.value > 0 && !HasRival(before, o, model, a.kind.value))
    && (error.Some? ==> error == Some(Invalid) && after == before)
    && (error.None? ==>
          && (forall p :: p in after <==> p in before || p == id)
          && (forall p :: p in before && p != o && p != id ==> after[p] == before[p])
          && after[o] == before[o].(active := false)
          && after[id].model == model && after[id].active && after[id].revision == before[o].revision + 1
          && after[id].supersedes == Some(o)
          && AsSent(after[id].commercial, a, if a.currency.Some? then a.currency.value else c.currency, c.terms))
  }

  ghost predicate ReviseOutcome(before: map<OfferId, Offer>, after: map<OfferId, Offer>, reserved: set<OfferId>, bought: set<OfferId>,
                                model: ModelId, o: OfferId, destroy: bool, a: Attributes, id: OfferId, error: Option<Error>) {
    if o !in before || before[o].model != model || !before[o].active then error == Some(NotFound) && after == before
    else if destroy then Destroys(before, after, reserved, bought, o, error)
    else if AsAsked(before[o].commercial, a, before[o].commercial) then error.None? && after == before
    else if o !in reserved then Edits(before, after, model, o, a, error)
    else Supersedes(before, after, model, o, a, id, error)
  }

  function ErrorOf(r: Result<State, Error>): Option<Error> {
    if r.Ok? then None else Some(r.error)
  }

  lemma CreatedCreates(s: State, model: ModelId, a: Attributes, id: OfferId)
    ensures var r := Created(s, model, a, id); Creates(s.offers, Kept(s, r).offers, model, a, id, ErrorOf(r))
  {
  }

  lemma RemovedDestroys(s: State, o: OfferId)
    requires o in s.offers
    ensures var r := Removed(s, o); Destroys(s.offers, Kept(s, r).offers, s.reserved, s.bought, o, ErrorOf(r))
  {
  }

  lemma EditedIsAsAsked(c: Commercial, a: Attributes)
    ensures AsAsked(c, a, c) <==> Edited(c, a) == c
    ensures AsAsked(c, a, Edited(c, a))
  {
  }

  lemma SupersedingSupersedes(s: State, o: OfferId, a: Attributes, id: OfferId)
    requires o in s.offers && id !in s.offers
    ensures var r := Superseding(s, o, a, id);
      Supersedes(s.offers, Kept(s, r).offers, s.offers[o].model, o, a, id, ErrorOf(r))
  {
    var model, closed := s.offers[o].model, s.offers[o := s.offers[o].(active := false)];
    forall kind
      ensures KindTaken(closed, id, model, kind) <==> HasRival(s.offers, o, model, kind)
    {
      if HasRival(s.offers, o, model, kind) {
        var p :| p in s.offers && p != o && s.offers[p].active && s.offers[p].model == model && s.offers[p].commercial.kind == kind;
        assert closed[p] == s.offers[p];
      }
    }
  }

  lemma EditedEdits(s: State, o: OfferId, a: Attributes)
    requires o in s.offers && s.offers[o].active && s.offers[o].revision > 0
    ensures var edited := Edited(s.offers[o].commercial, a);
      var saved := Savable(s.offers, o, s.offers[o].(commercial := edited));
      Edits(s.offers, if saved then s.offers[o := s.offers[o].(commercial := edited)] else s.offers, s.offers[o].model, o, a,
            if saved then None else Some(Invalid))
  {
  }

  lemma RevisedOutcome(s: State, model: ModelId, o: OfferId, destroy: bool, a: Attributes, id: OfferId)
    requires id !in s.offers && Positive(s.offers)
    ensures var r := Revised(s, model, o, destroy, a, id);
      ReviseOutcome(s.offers, Kept(s, r).offers, s.reserved, s.bought, model, o, destroy, a, id, ErrorOf(r))
  {
    if o in s.offers && s.offers[o].model == model && s.offers[o].active {
      EditedIsAsAsked(s.offers[o].commercial, a);
      if destroy {
        RemovedDestroys(s, o);
      } else if o in s.reserved {
        SupersedingSupersedes(s, o, a, id);
      } else {
        EditedEdits(s, o, a);
      }
    }
  }

  // --------------------------------------------------------------------- the service

  class Reviser {
    var offers: map<OfferId, Offer>
    var reserved: set<OfferId>
    var bought: set<OfferId>

    constructor ()
      ensures Rows() == START
    {
      offers, reserved, bought := map[], {}, {};
    }

    ghost function Rows(): State
      reads this
    {
      State(offers, reserved, bought)
    }

    method CreateOffer(model: ModelId, a: Attributes, id: OfferId) returns (error: Option<Error>)
      modifies this`offers
      ensures error.None? <==> Created(old(Rows()), model, a, id).Ok?
      ensures error.Some? ==> error.value == Created(old(Rows()), model, a, id).error
      ensures Rows() == Kept(old(Rows()), Created(old(Rows()), model, a, id))
      ensures Creates(old(offers), offers, model, a, id, error)
    {
      CreatedCreates(Rows(), model, a, id);
      var built := Built(a, if a.currency.Some? then a.currency.value else USDC, DEFAULT_TERMS);
      if built.None? {
        return Some(Invalid);
      }
      var offer := Offer(model, built.value, true, 1, None);
      if !Savable(offers, id, offer) {
        return Some(Invalid);
      }
      offers := offers[id := offer];
      error := None;
    }

    method DestroyOffer(o: OfferId) returns (error: Option<Error>)
      requires o in offers
      modifies this`offers
      ensures error.None? <==> Removed(old(Rows()), o).Ok?
      ensures error.Some? ==> error.value == Removed(old(Rows()), o).error
      ensures Rows() == Kept(old(Rows()), Removed(old(Rows()), o))
      ensures Destroys(old(offers), offers, reserved, bought, o, error)
    {
      RemovedDestroys(Rows(), o);
      if o in reserved {
        offers := offers[o := offers[o].(active := false)];
        return None;
      }
      if o in bought || Superseded(offers, o) {
        return Some(HasPurchases);
      }
      offers := offers - {o};
      error := None;
    }

    /** Closes the offer first, and opens it again when its successor cannot be saved. */
    method SupersedeOffer(o: OfferId, a: Attributes, id: OfferId) returns (error: Option<Error>)
      requires o in offers
      modifies this`offers
      ensures error.None? <==> Superseding(old(Rows()), o, a, id).Ok?
      ensures error.Some? ==> error.value == Superseding(old(Rows()), o, a, id).error
      ensures Rows() == Kept(old(Rows()), Superseding(old(Rows()), o, a, id))
    {
      var before := offers;
      offers := offers[o := offers[o].(active := false)];
      var c := before[o].commercial;
      var built := Built(a, if a.currency.Some? then a.currency.value else c.currency, c.terms);
      if built.None? {
        offers := before;
        return Some(Invalid);
      }
      var next := Offer(before[o].model, built.value, true, before[o].revision + 1, Some(o));
      if !Savable(offers, id, next) {
        offers := before;
        return Some(Invalid);
      }
      offers := offers[id := next];
      error := None;
    }

    /** Reviser.call for an existing offer; `id` is the database's next one. A
        refused call changes nothing; no call touches another offer or the terms of
        a reserved one; a successful edit leaves one active offer, with the edited
        terms but for a cap it did not send. */
    method Revise(model: ModelId, o: OfferId, destroy: bool, a: Attributes, id: OfferId) returns (error: Option<Error>)
      requires Sound(Rows()) && id !in offers
      modifies this`offers
      ensures Sound(Rows())
      ensures error.Some? ==> offers == old(offers)
      ensures ReviseOutcome(old(offers), offers, reserved, bought, model, o, destroy, a, id, error)
      ensures forall p :: p in old(offers) && p != o ==> p in offers && offers[p] == old(offers)[p]
      ensures o in reserved ==>
        o in offers && (offers[o] == old(offers)[o] || offers[o] == old(offers)[o].(active := false))
      ensures error.None? && destroy ==> o !in offers || (o in reserved && !offers[o].active)
      ensures error.None? && !destroy ==>
        var q := Standing(old(Rows()), o, a, id);
        && q in offers && offers[q].active && offers[q].model == model
        && (q == o || CapSurvives(old(Rows()), o, a) ==> AsAsked(old(offers)[o].commercial, a, offers[q].commercial))
    {
      ghost var s := Rows();
      RevisedKeepsSound(s, model, o, destroy, a, id);
      RevisedOutcome(s, model, o, destroy, a, id);
      error := Edit(model, o, destroy, a, id);
      if error.None? && !destroy {
        EditTakesEffectExactly(s, model, o, a, id);
        EditedIsAsAsked(s.offers[o].commercial, a);
      }
    }

    method Edit(model: ModelId, o: OfferId, destroy: bool, a: Attributes, id: OfferId) returns (error: Option<Error>)
      modifies this`offers
      ensures error.None? <==> Revised(old(Rows()), model, o, destroy, a, id).Ok?
      ensures error.Some? ==> error.value == Revised(old(Rows()), model, o, destroy, a, id).error
      ensures Rows() == Kept(old(Rows()), Revised(old(Rows()), model, o, destroy, a, id))
    {
      if o !in offers || offers[o].model != model || !offers[o].active {
        return Some(NotFound);
      }
      if destroy {
        error := DestroyOffer(o);
        return;
      }
      var edited := Edited(offers[o].commercial, a);
      if edited == offers[o].commercial {
        return None;
      }
      if o !in reserved {
        if !Savable(offers, o, offers[o].(commercial := edited)) {
          return Some(Invalid);
        }
        offers := offers[o := offers[o].(commercial := edited)];
        return None;
      }
      error := SupersedeOffer(o, a, id);
    }
  }
}
