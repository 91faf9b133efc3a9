/** Pricing a batch: which payment options all offers share, whether a signed
    amount is acceptable, and how it is split over the licences. */
module BatchPricing {
  import opened Wrappers
  import opened Decimal
  import opened Ledger

  const HBAR := "0.0.0"

  /** What must be the same for every licence of a batch. */
  datatype Terms = Terms(scheme: string, network: string, asset: string, payTo: string, feePayer: string)

  datatype Quote = Quote(terms: Terms, amount: nat)

  datatype BatchOption = BatchOption(terms: Terms, amount: nat, items: seq<nat>)

  datatype Match = Match(terms: Terms, amount: string, items: seq<nat>)

  datatype PricingError = IncompatiblePayees

  // ---------------------------------------------------------------- summation

  function Sum(xs: seq<nat>): nat {
    if xs == [] then 0 else Sum(xs[..|xs| - 1]) + xs[|xs| - 1]
  }

  /** Sum adds: of one price, of two lists one after the other. */
  lemma {:induction false} SumAdds(xs: seq<nat>, ys: seq<nat>, x: nat)
    ensures Sum([x]) == x && Sum(xs + ys) == Sum(xs) + Sum(ys)
  {
    assert [x][..0] == [];
    if ys == [] {
      assert xs + ys == xs;
    } else {
      assert (xs + ys)[..|xs + ys| - 1] == xs + ys[..|ys| - 1];
      SumAdds(xs, ys[..|ys| - 1], x);
    }
  }

  lemma SumSnoc(xs: seq<nat>, x: nat)
    ensures Sum(xs + [x]) == Sum(xs) + x
  {
    assert (xs + [x])[..|xs|] == xs;
  }

  // ------------------------------------------------------------- apportionment

  /** The floor of a quote's proportional share. */
  function Share(total: nat, quote: nat, quoted: nat): nat
    requires quoted > 0
  {
    total * quote / quoted
  }

  /** Every licence but the last gets the floor of its share. */
  function Floors(total: nat, quotes: seq<nat>, quoted: nat): (parts: seq<nat>)
    requires quoted > 0
    ensures |parts| == |quotes|
    ensures forall i :: 0 <= i < |quotes| ==> parts[i] == Share(total, quotes[i], quoted)
  {
    if quotes == [] then []
    else Floors(total, quotes[..|quotes| - 1], quoted) + [Share(total, quotes[|quotes| - 1], quoted)]
  }

  lemma DivisionBounds(a: nat, d: nat)
    requires d > 0
    ensures d * (a / d) <= a < d * (a / d) + d
  {
  }

  lemma Spread(k: int, a: int, b: int)
    ensures k * (a + b) == k * a + k * b
  {
  }

  lemma Times(k: nat, a: int, b: int)
    requires a <= b
    ensures k * a <= k * b
  {
  }

  lemma Cancel(k: nat, a: int, b: int)
    requires k > 0 && k * a <= k * b
    ensures a <= b
  {
    if a > b {
      Times(k, b + 1, a);
      Spread(k, b, 1);
    }
  }

  lemma FloorStep(total: nat, quoted: nat, s: nat, f: nat, q: nat, k: nat)
    requires quoted > 0 && quoted * f <= total * s <= quoted * f + k * (quoted - 1)
    ensures quoted * (f + Share(total, q, quoted)) <= total * (s + q)
    ensures total * (s + q) <= quoted * (f + Share(total, q, quoted)) + (k + 1) * (quoted - 1)
  {
    DivisionBounds(total * q, quoted);
    Spread(total, s, q);
    Spread(quoted, f, Share(total, q, quoted));
    Spread(quoted - 1, k, 1);
  }

  /** The floors together lose less than one unit each, in units of `quoted`. */
  lemma {:induction false} FloorsLose(total: nat, quotes: seq<nat>, quoted: nat)
    requires quoted > 0
    ensures quoted * Sum(Floors(total, quotes, quoted)) <= total * Sum(quotes)
    ensures total * Sum(quotes) <= quoted * Sum(Floors(total, quotes, quoted)) + |quotes| * (quoted - 1)
  {
    if quotes != [] {
      var front, q := quotes[..|quotes| - 1], quotes[|quotes| - 1];
      FloorsLose(total, front, quoted);
      SumSnoc(Floors(total, front, quoted), Share(total, q, quoted));
      FloorStep(total, quoted, Sum(front), Sum(Floors(total, front, quoted)), q, |front|);
    }
  }

  lemma FloorsFit(total: nat, quotes: seq<nat>)
    requires |quotes| > 0 && Sum(quotes) > 0
    ensures Sum(Floors(total, quotes[..|quotes| - 1], Sum(quotes))) <= total
  {
    var front, quoted := quotes[..|quotes| - 1], Sum(quotes);
    FloorsLose(total, front, quoted);
    Times(total, Sum(front), quoted);
    Cancel(quoted, Sum(Floors(total, front, quoted)), total);
  }

  function Parts(total: nat, quotes: seq<nat>): (parts: seq<nat>)
    requires |quotes| > 0 && Sum(quotes) > 0
  {
    FloorsFit(total, quotes);
    var floors := Floors(total, quotes[..|quotes| - 1], Sum(quotes));
    floors + [total - Sum(floors)]
  }

  /** BatchRequirements#distribute. */
  method Distribute(total: nat, quotes: seq<nat>) returns (parts: seq<nat>)
    requires |quotes| > 0 && Sum(quotes) > 0
    ensures parts == Parts(total, quotes)
  {
    var quoted, i := 0, 0;
    while i < |quotes|
      invariant i <= |quotes| && quoted == Sum(quotes[..i])
    {
      assert quotes[..i + 1][..i] == quotes[..i];
      quoted := quoted + quotes[i];
      i := i + 1;
    }
    assert quotes[..|quotes|] == quotes;
    parts := [];
    var handed := 0;
    i := 0;
    while i < |quotes| - 1
      invariant i <= |quotes| - 1
      invariant parts == Floors(total, quotes[..i], quoted) && handed == Sum(parts)
    {
      assert quotes[..i + 1][..i] == quotes[..i];
      var share := Share(total, quotes[i], quoted);
      SumSnoc(parts, share);
      parts := parts + [share];
      handed := handed + share;
      i := i + 1;
    }
    FloorsFit(total, quotes);
    parts := parts + [total - handed];
  }

  /** Nothing is lost and nothing is invented. */
  lemma PartsSumToTotal(total: nat, quotes: seq<nat>)
    requires |quotes| > 0 && Sum(quotes) > 0
    ensures |Parts(total, quotes)| == |quotes| && Sum(Parts(total, quotes)) == total
  {
    FloorsFit(total, quotes);
    var floors := Floors(total, quotes[..|quotes| - 1], Sum(quotes));
    SumSnoc(floors, total - Sum(floors));
  }

  lemma {:induction false} FloorsAtQuotedTotal(quoted: nat, quotes: seq<nat>)
    requires quoted > 0
    ensures Floors(quoted, quotes, quoted) == quotes
  {
    if quotes != [] {
      FloorsAtQuotedTotal(quoted, quotes[..|quotes| - 1]);
      ExactShare(quoted, quotes[|quotes| - 1]);
    }
  }

  /** Signed at the quoted total, each licence costs its own quote. */
  lemma PartsAtQuotedTotal(quotes: seq<nat>)
    requires |quotes| > 0 && Sum(quotes) > 0
    ensures Parts(Sum(quotes), quotes) == quotes
  {
    FloorsAtQuotedTotal(Sum(quotes), quotes[..|quotes| - 1]);
    LastIsLeft(Sum(quotes), quotes);
  }

  /** When the floors of the front are its quotes, the last part is the last quote. */
  lemma LastIsLeft(total: nat, quotes: seq<nat>)
    requires |quotes| > 0 && total == Sum(quotes) > 0
    requires Floors(total, quotes[..|quotes| - 1], total) == quotes[..|quotes| - 1]
    ensures Parts(total, quotes) == quotes
  {
    var front, last := quotes[..|quotes| - 1], quotes[|quotes| - 1];
    PartsFrom(total, quotes, front);
    assert total - Sum(front) == last;
    assert front + [last] == quotes;
  }

  lemma PartsFrom(total: nat, quotes: seq<nat>, floors: seq<nat>)
    requires |quotes| > 0 && Sum(quotes) > 0 && Floors(total, quotes[..|quotes| - 1], Sum(quotes)) == floors
    ensures Sum(floors) <= total && Parts(total, quotes) == floors + [total - Sum(floors)]
  {
    FloorsFit(total, quotes);
  }

  lemma ExactShare(d: nat, q: nat)
    requires d > 0
    ensures Share(d, q, d) == q
  {
    DivisionBounds(d * q, d);
    var r := Share(d, q, d);
    Cancel(d, r, q);
    Spread(d, r, 1);
    if q > r {
      Times(d, r + 1, q);
    }
  }

  /** Every licence but the last pays the floor of its exact share. */
  lemma EarlierPartsAreFloors(total: nat, quotes: seq<nat>, i: nat)
    requires |quotes| > 0 && Sum(quotes) > 0 && i < |quotes| - 1
    ensures |Parts(total, quotes)| == |quotes| && Parts(total, quotes)[i] == total * quotes[i] / Sum(quotes)
  {
    FloorsFit(total, quotes);
  }

  /** The last licence pays its exact share or more, by less than one unit for
      each of the others. */
  lemma LastPartExcess(total: nat, quotes: seq<nat>)
    requires |quotes| > 0 && Sum(quotes) > 0
    ensures var n, quoted := |quotes|, Sum(quotes);
      var last := total - Sum(Floors(total, quotes[..n - 1], quoted));
      && |Parts(total, quotes)| == n && Parts(total, quotes)[n - 1] == last
      && PaysItsShareOrMore(total, quoted, quotes[n - 1], last, n - 1)
  {
    var n, quoted, front := |quotes|, Sum(quotes), quotes[..|quotes| - 1];
    FloorsFit(total, quotes);
    FloorsLose(total, front, quoted);
    LastShare(total, quoted, Sum(front), quotes[n - 1], Sum(Floors(total, front, quoted)), n - 1);
  }

  /** part - total * quote / quoted, exactly, is at least 0 and below `others`
      (0 when there are none). */
  predicate PaysItsShareOrMore(total: nat, quoted: nat, quote: nat, part: int, others: nat) {
    total * quote <= part * quoted && (if others == 0 then part == total else part * quoted < total * quote + others * quoted)
  }

  /** With `f` handed out for a quoted `s`, what is left for the last quote. */
  lemma LastShare(total: nat, quoted: nat, s: nat, last: nat, f: nat, k: nat)
    requires quoted == s + last && quoted > 0 && f <= total
    requires quoted * f <= total * s <= quoted * f + k * (quoted - 1)
    requires k == 0 ==> f == 0
    ensures PaysItsShareOrMore(total, quoted, last, total - f, k)
  {
    Spread(total, s, last);
    Spread(quoted, total - f, f);
    Spread(k, quoted - 1, 1);
  }

  // ---------------------------------------------------------------- acceptance

  /** BatchRequirements#amount_acceptable?, with the rational bounds 97/100 and
      103/100 multiplied out. */
  predicate AmountAcceptable(option: BatchOption, amount: string) {
    IsAmount(amount)
    && if option.terms.asset != HBAR then Value(amount) == option.amount
       else 97 * option.amount <= 100 * Value(amount) && 100 * Value(amount) <= 103 * option.amount
  }

  /** The division in the split is safe on every accepted total. */
  lemma AcceptedQuoteIsPositive(option: BatchOption, amount: string)
    requires AmountAcceptable(option, amount)
    ensures option.amount > 0 && Value(amount) > 0
  {
    TextOfValue(amount);
  }

  /** No licence but the last strays from its quote by more than the tolerance and
      the unit its floor loses. */
  lemma PartsWithinTolerance(option: BatchOption, amount: string, i: nat)
    requires AmountAcceptable(option, amount) && option.amount == Sum(option.items) && i < |option.items| - 1
    ensures option.amount > 0 && |Parts(Value(amount), option.items)| == |option.items|
    ensures var part := Parts(Value(amount), option.items)[i];
      100 * part + 100 > 97 * option.items[i] && 100 * part <= 103 * option.items[i]
  {
    AcceptedQuoteIsPositive(option, amount);
    var total, quoted, q := Value(amount), option.amount, option.items[i];
    EarlierPartsAreFloors(total, option.items, i);
    DivisionBounds(total * q, quoted);
    Tolerated(total, quoted, q, Share(total, q, quoted));
  }

  lemma Tolerated(total: nat, quoted: nat, q: nat, part: nat)
    requires quoted > 0 && 97 * quoted <= 100 * total <= 103 * quoted
    requires quoted * part <= total * q < quoted * part + quoted
    ensures 100 * part + 100 > 97 * q && 100 * part <= 103 * q
  {
    Times(q, 97 * quoted, 100 * total);
    Times(q, 100 * total, 103 * quoted);
    Scaled(q, 97, quoted);
    Scaled(q, 100, total);
    Scaled(q, 103, quoted);
    Scaled(quoted, 100, part);
    Scaled(quoted, 97, q);
    Scaled(quoted, 103, q);
    Spread(quoted, 100 * part, 100);
    Cancel(quoted, 100 * part, 103 * q);
    if 100 * part + 100 <= 97 * q {
      Times(quoted, 100 * part + 100, 97 * q);
    }
  }

  lemma Scaled(k: int, c: int, x: int)
    ensures k * (c * x) == c * (k * x)
  {
  }

  // ---------------------------------------------------------------------- fees

  function Fees(parts: seq<nat>): nat {
    if parts == [] then 0 else Fees(parts[..|parts| - 1]) + FeeOn(parts[|parts| - 1])
  }

  lemma {:induction false} FeesAgainstTotal(parts: seq<nat>)
    ensures 10 * Fees(parts) <= Sum(parts) <= 10 * Fees(parts) + 9 * |parts|
  {
    if parts != [] {
      FeesAgainstTotal(parts[..|parts| - 1]);
      SplitFavoursDesigner(parts[|parts| - 1]);
    }
  }

  /** The per-licence fees never exceed the fee on the whole payment, and fall
      short of it by less than one unit per licence. */
  lemma FeesOfParts(total: nat, quotes: seq<nat>)
    requires |quotes| > 0 && Sum(quotes) > 0
    ensures var fees := Fees(Parts(total, quotes));
      fees <= FeeOn(total) <= fees + |quotes| - 1
  {
    PartsSumToTotal(total, quotes);
    FeesAgainstTotal(Parts(total, quotes));
    SplitFavoursDesigner(total);
  }

  // ------------------------------------------------------------- option building

  predicate Offers(quotes: seq<Quote>, asset: string) {
    exists i :: 0 <= i < |quotes| && quotes[i].terms.asset == asset
  }

  predicate SharedByAll(all: seq<seq<Quote>>, asset: string) {
    forall j :: 0 <= j < |all| ==> Offers(all[j], asset)
  }

  /** The first quote in the asset. */
  function Find(quotes: seq<Quote>, asset: string): (q: Quote)
    requires Offers(quotes, asset)
    ensures q in quotes && q.terms.asset == asset
  {
    if quotes[0].terms.asset == asset then quotes[0]
    else
      assert Offers(quotes[1..], asset) by {
        var i :| 0 <= i < |quotes| && quotes[i].terms.asset == asset;
        assert quotes[1..][i - 1].terms.asset == asset;
      }
      Find(quotes[1..], asset)
  }

  /** Array#& of all asset lists: the first list's order, without repeats. */
  function Shared(first: seq<Quote>, all: seq<seq<Quote>>): (assets: seq<string>)
    ensures forall a :: a in assets <==> Offers(first, a) && SharedByAll(all, a)
    ensures forall i, j :: 0 <= i < j < |assets| ==> assets[i] != assets[j]
  {
    if first == [] then []
    else
      var rest := Shared(first[..|first| - 1], all);
      var a := first[|first| - 1].terms.asset;
      SharedSnoc(first);
      if a !in rest && SharedByAll(all, a) then rest + [a] else rest
  }

  lemma SharedSnoc(first: seq<Quote>)
    requires first != []
    ensures forall a :: Offers(first, a) <==> Offers(first[..|first| - 1], a) || a == first[|first| - 1].terms.asset
  {
    var front := first[..|first| - 1];
    forall a
      ensures Offers(first, a) <==> Offers(front, a) || a == first[|first| - 1].terms.asset
    {
      if Offers(first, a) {
        var i :| 0 <= i < |first| && first[i].terms.asset == a;
        assert i < |front| ==> front[i].terms.asset == a;
      }
      if Offers(front, a) {
        var i :| 0 <= i < |front| && front[i].terms.asset == a;
        assert first[i].terms.asset == a;
      }
    }
  }

  function PartsIn(all: seq<seq<Quote>>, asset: string): (parts: seq<Quote>)
    requires SharedByAll(all, asset)
    ensures |parts| == |all| && forall j :: 0 <= j < |all| ==> parts[j] == Find(all[j], asset)
  {
    seq(|all|, j requires 0 <= j < |all| => Find(all[j], asset))
  }

  function Amounts(parts: seq<Quote>): (amounts: seq<nat>)
    ensures |amounts| == |parts| && forall j :: 0 <= j < |parts| ==> amounts[j] == parts[j].amount
  {
    seq(|parts|, j requires 0 <= j < |parts| => parts[j].amount)
  }

  predicate SameTerms(parts: seq<Quote>) {
    forall j :: 0 <= j < |parts| ==> parts[j].terms == parts[0].terms
  }

  function OptionIn(all: seq<seq<Quote>>, asset: string): Result<BatchOption, PricingError>
    requires |all| > 0 && SharedByAll(all, asset)
  {
    var parts := PartsIn(all, asset);
    if !SameTerms(parts) then Err(IncompatiblePayees)
    else Ok(BatchOption(parts[0].terms, Sum(Amounts(parts)), Amounts(parts)))
  }

  /** One option per shared asset, in order; the first bad one stops everything. */
  function OptionsIn(all: seq<seq<Quote>>, assets: seq<string>): Result<seq<BatchOption>, PricingError>
    requires |all| > 0 && forall a :: a in assets ==> SharedByAll(all, a)
  {
    if assets == [] then Ok([])
    else
      assert assets[|assets| - 1] in assets;
      assert forall a :: a in assets[..|assets| - 1] ==> a in assets;
      match OptionsIn(all, assets[..|assets| - 1])
      case Err(e) => Err(e)
      case Ok(options) =>
        match OptionIn(all, assets[|assets| - 1])
        case Err(e) => Err(e)
        case Ok(o) => Ok(options + [o])
  }

  function WithAsset(options: seq<BatchOption>, asset: string, wanted: bool): (r: seq<BatchOption>)
    ensures forall o :: o in r <==> o in options && (o.terms.asset == asset) == wanted
  {
    if options == [] then []
    else
      var rest := WithAsset(options[..|options| - 1], asset, wanted);
      var last := options[|options| - 1];
      assert options == options[..|options| - 1] + [last];
      if (last.terms.asset == asset) == wanted then rest + [last] else rest
  }

  /** BatchRequirements#build_accepts. */
  function BuildAccepts(all: seq<seq<Quote>>): Result<seq<BatchOption>, PricingError>
    requires |all| > 0 && |all[0]| > 0
  {
    match OptionsIn(all, Shared(all[0], all))
    case Err(e) => Err(e)
    case Ok(options) =>
      if options == [] then Err(IncompatiblePayees)
      else
        var lead := all[0][0].terms.asset;
        Ok(WithAsset(options, lead, true) + WithAsset(options, lead, false))
  }

  /** An option as it should be: one quote from every offer, all under the same
      terms, and the price their sum. */
  ghost predicate Built(all: seq<seq<Quote>>, o: BatchOption) {
    && |o.items| == |all| && o.amount == Sum(o.items)
    && forall j :: 0 <= j < |all| ==>
         Offers(all[j], o.terms.asset) && Find(all[j], o.terms.asset) == Quote(o.terms, o.items[j])
  }

  /** All offers ask to be paid alike in the asset. */
  ghost predicate Compatible(all: seq<seq<Quote>>, asset: string)
    requires |all| > 0 && SharedByAll(all, asset)
  {
    forall j :: 0 <= j < |all| ==> Find(all[j], asset).terms == Find(all[0], asset).terms
  }

  lemma OptionIsBuilt(all: seq<seq<Quote>>, asset: string)
    requires |all| > 0 && SharedByAll(all, asset)
    ensures OptionIn(all, asset).Ok? <==> Compatible(all, asset)
    ensures OptionIn(all, asset).Ok? ==> Built(all, OptionIn(all, asset).value) && OptionIn(all, asset).value.terms.asset == asset
  {
    var parts := PartsIn(all, asset);
    if SameTerms(parts) {
      forall j | 0 <= j < |all|
        ensures Find(all[j], asset).terms == Find(all[0], asset).terms
      {
        assert parts[j].terms == parts[0].terms;
      }
    } else {
      var j :| 0 <= j < |parts| && parts[j].terms != parts[0].terms;
      assert Find(all[j], asset).terms != Find(all[0], asset).terms;
    }
  }

  lemma {:induction false} OptionsAreBuilt(all: seq<seq<Quote>>, assets: seq<string>)
    requires |all| > 0 && forall a :: a in assets ==> SharedByAll(all, a)
    ensures OptionsIn(all, assets).Ok? <==> forall a :: a in assets ==> Compatible(all, a)
    ensures OptionsIn(all, assets).Ok? ==>
      var options := OptionsIn(all, assets).value;
      |options| == |assets| && forall i :: 0 <= i < |assets| ==> Built(all, options[i]) && options[i].terms.asset == assets[i]
  {
    if assets != [] {
      var front, last := assets[..|assets| - 1], assets[|assets| - 1];
      assert assets == front + [last];
      OptionsAreBuilt(all, front);
      OptionIsBuilt(all, last);
    }
  }

  /** The options a batch is offered: there are some exactly when the offers share
      an asset and never disagree on how a shared asset is paid; each is built of
      one quote per offer; and the lead currency of the first offer comes first. */
  lemma BuildAcceptsExactly(all: seq<seq<Quote>>)
    requires |all| > 0 && |all[0]| > 0
    ensures BuildAccepts(all).Ok? <==>
      (exists a :: SharedByAll(all, a)) && (forall a :: SharedByAll(all, a) ==> Compatible(all, a))
    ensures BuildAccepts(all).Ok? ==>
      var options := BuildAccepts(all).value;
      && |options| > 0
      && (forall o :: o in options ==> Built(all, o))
      && (forall a :: SharedByAll(all, a) ==> exists o :: o in options && o.terms.asset == a)
      && (SharedByAll(all, all[0][0].terms.asset) ==> options[0].terms.asset == all[0][0].terms.asset)
  {
    var assets := Shared(all[0], all);
    forall a
      ensures a in assets <==> SharedByAll(all, a)
    {
      assert SharedByAll(all, a) ==> Offers(all[0], a);
    }
    OptionsAreBuilt(all, assets);
    if OptionsIn(all, assets).Ok? {
      var options := OptionsIn(all, assets).value;
      forall a | a in assets
        ensures exists o :: o in options && o.terms.asset == a
      {
        var i :| 0 <= i < |assets| && assets[i] == a;
        assert options[i] in options;
      }
      if options != [] {
        assert assets[0] in assets;
        LeadFirst(options, all[0][0].terms.asset);
      } else {
        assert forall a :: a !in assets;
      }
    }
  }

  lemma LeadFirst(options: seq<BatchOption>, lead: string)
    ensures var r := WithAsset(options, lead, true) + WithAsset(options, lead, false);
      && (forall o :: o in r <==> o in options)
      && ((exists o :: o in options && o.terms.asset == lead) ==> |r| > 0 && r[0].terms.asset == lead)
      && (options != [] ==> |r| > 0)
  {
    var first, others := WithAsset(options, lead, true), WithAsset(options, lead, false);
    if o :| o in options && o.terms.asset == lead {
      assert o in first;
      assert first[0] in first;
    }
    if options != [] {
      assert options[0] in first + others;
    }
  }

  // ------------------------------------------------------------------- matching

  /** The option is what was accepted, with the sandbox mark where it is due, for an
      amount it takes: exactly its own, or for HBAR anything from 97 to 103 percent. */
  ghost predicate Accepts(o: BatchOption, sandbox: bool, accepted: Terms, marked: bool, amount: string) {
    && o.terms.scheme == accepted.scheme && o.terms.network == accepted.network && o.terms.asset == accepted.asset
    && o.terms.payTo == accepted.payTo && o.terms.feePayer == accepted.feePayer
    && (sandbox ==> marked) && TakesAmount(o, amount)
  }

  /** A decimal number without a leading zero, in the option's range. */
  ghost predicate TakesAmount(o: BatchOption, amount: string) {
    && amount != "" && (forall i :: 0 <= i < |amount| ==> '0' <= amount[i] <= '9') && amount[0] != '0'
    && (o.terms.asset != "0.0.0" ==> Value(amount) == o.amount)
    && (o.terms.asset == "0.0.0" ==> 97 * o.amount <= 100 * Value(amount) <= 103 * o.amount)
  }

  lemma AcceptableExactly(o: BatchOption, amount: string)
    ensures AmountAcceptable(o, amount) <==> TakesAmount(o, amount)
  {
    if amount != "" && forall i :: 0 <= i < |amount| ==> '0' <= amount[i] <= '9' {
      assert AllDigits(amount);
    }
  }

  class BatchRequirements {
    const options: seq<BatchOption>
    const sandbox: bool

    constructor (options: seq<BatchOption>, sandbox: bool)
      ensures this.options == options && this.sandbox == sandbox
    {
      this.options, this.sandbox := options, sandbox;
    }

    /** Every sandbox option is marked as one, and asks for the mark back. */
    predicate Fits(o: BatchOption, accepted: Terms, marked: bool, amount: string) {
      o.terms == accepted && (sandbox ==> marked) && AmountAcceptable(o, amount)
    }

    /** BatchRequirements#match: the first fitting option, at the signed amount;
        `marked` is whether what was accepted carries the sandbox mark. */
    method MatchPayment(accepted: Terms, marked: bool, amount: string) returns (r: Option<Match>)
      requires forall o :: o in options ==> |o.items| > 0 && o.amount == Sum(o.items)
      ensures r.Some? <==> exists o :: o in options && Fits(o, accepted, marked, amount)
      ensures r.Some? <==> exists o :: o in options && Accepts(o, sandbox, accepted, marked, amount)
      ensures r.Some? ==>
        && r.value.terms == accepted && r.value.amount == amount
        && exists o :: o in options && Fits(o, accepted, marked, amount)
             && |r.value.items| == |o.items| && Sum(r.value.items) == Value(amount)
             && Sum(o.items) > 0 && r.value.items == Parts(Value(amount), o.items)
             && forall j :: 0 <= j < |o.items| - 1 ==> r.value.items[j] == Value(amount) * o.items[j] / Sum(o.items)
    {
      forall o | o in options
        ensures Fits(o, accepted, marked, amount) <==> Accepts(o, sandbox, accepted, marked, amount)
      {
        AcceptableExactly(o, amount);
      }
      var i := 0;
      while i < |options|
        invariant i <= |options|
        invariant forall j :: 0 <= j < i ==> !Fits(options[j], accepted, marked, amount)
      {
        var o := options[i];
        if Fits(o, accepted, marked, amount) {
          assert o in options;
          AcceptedQuoteIsPositive(o, amount);
          TextOfValue(amount);
          PartsSumToTotal(Value(amount), o.items);
          forall j | 0 <= j < |o.items| - 1
            ensures Parts(Value(amount), o.items)[j] == Value(amount) * o.items[j] / Sum(o.items)
          {
            EarlierPartsAreFloors(Value(amount), o.items, j);
          }
          var parts := Distribute(Value(amount), o.items);
          return Some(Match(o.terms, Text(Value(amount)), parts));
        }
        i := i + 1;
      }
      r := None;
    }
  }
}
