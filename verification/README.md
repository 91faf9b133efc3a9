# Printwright, verified

A Dafny model of the parts of Printwright that decide who is paid, what was
sold and what was proved, with proofs of the properties those parts exist for.
`dfyconfig.toml` includes every `.dfy` file here, so `dafny verify dfyconfig.toml`
verifies the whole project.

## What is modelled

- **Payouts** (`Payouts`, `PayoutBooks`, `PayoutHazards`, `PayoutSelection`,
  `PayoutRunner`): owed designer shares, payout attempts, the advisory lock and a
  sidecar that may move money and lose the reply. The chain of executed transfers is a
  ghost; the runner is a class whose loops are proved equal to the protocol's steps and
  against what a run may select, pay and mark, told by the rows themselves.
- **Checkout** (`Market`, `MarketSafety`, `MarketRuns`, `MarketHistory`, `RailHazards`,
  `Replay`, `LedgerCustody`, `CheckoutSteps`, `CheckoutOutcomes`, `Checkout`):
  reservations of one licence or a batch, verification,
  settlement, the revenue split, licences with serials, delivery and replays. A
  payment's own rows move in atomic steps; the steps of different payments, listings
  and offers interleave freely. `Checkout.Shop` is the two controllers, row by row;
  `CheckoutOutcomes` says what each request must leave in the rows.
- **Locks** (`SaleLocks`, `SaleLockSafety`, `SaleLockHazards`, `SaleGate`, `ListingDesk`): the same
  reservations against pause, retire, restore, revisions and account closure, with
  every lock, read, check, insert and commit a step of its own.
- **Batch pricing** (`Decimal`, `BatchPricing`), **mesh geometry** (`RayTriangle`,
  `GridMesh`, `MeshEdges`, `GeometryForm`, `GeometryLayout`, `StlCanonical`, `StlLayout`),
  **canonical JSON and the commitment** (`Json`, `Serialisers`, `JsonText`, `Commitment`).
- **Smaller machines**: `PayoutDestination` with `DestinationHistory`, `ChatSpend` with
  `ChatSafety`, `OfferRevisions`, `FileOrder` with `FileMoves`. `Wrappers`, `Sums`,
  `Bags`, `Sorting` and `Texts` are
  shared helpers; `Ledger` holds identities several models use.

## Hypotheses

- A purchase is named by its replay key, the signed payment and the position in its
  batch; different payments have different keys (SHA-256 is taken as injective).
- `transition_to!` checks the status it loaded without a row lock
  (app/models/purchase.rb:25-31), so a payment's own step is atomic here.
- An explicit facilitator refusal means the transfer did not execute; a mirror match is
  an executed transfer. A lost reply may hide an executed one.
- A sidecar reply is success, Unavailable or Rejected (not applied), Ambiguous (either),
  or an error of another kind. Process death between reply and write is excluded, as the
  runner's own comment does. The marking writes of one rescue branch go through together
  or not at all.
- Challenge nonces and proposal nonces are fresh; an intent token cannot be forged; row
  locks, unique indexes, foreign keys and the advisory lock behave as PostgreSQL
  documents: a new offer row waits for a locked listing row.

## Where the code does less than it says

- "Double payout structurally impossible" (app/models/ledger_entry.rb:9-11) speaks of
  rows. Money can move twice in three ways, all shown by runs: an error outside the three
  rescued classes after the transfer executed; an outage that fails the recording and
  then the marking write of the rescue (app/services/ledger/payout_runner.rb:90-98); and
  `reconcile_ref!` while the designer's verification has lapsed. Without these three, no
  share is moved twice.
- The comment that taking the offers' locks serialises a listing change with
  reservations (app/services/models/availability.rb:15-17) holds for the offers that
  exist when they are read. An offer created before the listing row is locked escapes,
  for a pause and for an account closure alike.
- The partial unique indexes on `payment_tx_id` cover one rail each, so the mirror can
  match one transfer to a single purchase and to a batch.
- The mirror compares payee, amount and asset, not the payer or the signed transaction.
  It can settle a waiting payment on another payment's transfer of the same price, and
  the payer then finds that transaction id taken. "An executed transfer" below is in
  general some executed transfer; `MarketHistory.OwnTransfersExactly` says when it is
  the payment's own.
- The canonicalisers are said to be byte-identical. Array-index-like keys part the
  client from the others, and a `toJSON` member parts the verifier and the widget.
- A revision of a reserved offer is built from the submitted attributes, so a unit cap
  that is not submitted again becomes unlimited.
- "Move up" and "move down" exchange slots. Next to a file in the same slot (0 is the
  column's default) a move changes nothing, and where other files are tied on one of the
  two slots it can carry the file past them, so that moving back does not undo it.

## Model

| member | source | states |
|---|---|---|
| `Payouts.PayoutAtMostOnce` | app/services/ledger/payout_runner.rb:20-101 | after any run of sweeps, scoped jobs, retries, settlements, verification changes and sidecar outcomes: no share is moved twice, every payout row has its share's amount and was moved by one transfer, and a moved share is recorded or quarantined |
| `Payouts.StepKeepsSafeExactly` | app/services/ledger/payout_runner.rb:30-101 | one step keeps the payout invariant exactly when it is admissible: no unclassified error after the money moved, no outage that fails both the recording and the marking of a moved group, no reconciliation of a moved share while verification has lapsed |
| `Payouts.FailureHolds` | app/services/ledger/payout_runner.rb:65-98 | each failure branch keeps shares in quarantine that were there, and quarantines the group when the outcome is unknown or its recording failed |
| `Payouts.ReconcileHolds` | app/models/payout_attempt.rb:68-80 | reconciling a ref leaves every moved, unrecorded share quarantined exactly when none of them belongs to a lapsed designer under that ref |
| `Payouts.ReconcileKeepsSafe` | app/models/payout_attempt.rb:68-80 | reconciling at the end of a run keeps the books safe under that same condition, and only then |
| `Payouts.RunEndKeepsSafe` | app/services/ledger/payout_runner.rb:100-111 | giving up the advisory lock is safe as long as every moved share is recorded or quarantined |
| `PayoutBooks.LegsTotal` | app/services/ledger/payout_runner.rb:40-43 | the per-designer legs of a transfer add up to the shares it covers |
| `PayoutBooks.RecordedRowsEqualTransfer` | app/services/ledger/payout_runner.rb:39-63 | a recorded group's payout rows sum to exactly the transfer that paid it |
| `PayoutBooks.TreasuryBalances` | app/models/ledger_entry.rb:9-15 | per asset, treasury-held shares are what is owed plus what was paid out |
| `PayoutBooks.ChainBalances` | app/services/ledger/payout_runner.rb:39-63 | per asset, all money that left equals the recorded payouts plus shares held for review or in the submitted group |
| `PayoutHazards.UntracedSweepsPayAgain` | app/services/ledger/payout_runner.rb:90-98 | from any state in which a share may be paid, n sweeps whose transfer executed without a row or a mark (an error outside the named classes, or an outage that fails recording and marking) pay that share n more times and leave it payable |
| `PayoutHazards.LapseReleases` | app/models/payout_attempt.rb:68-80 | losing the verification, reconciling the attempt's ref in a run with nothing to pay and verifying again makes a quarantined, unrecorded share payable; for a moved share that reconciliation is inadmissible |
| `PayoutHazards.LapsedVerificationPaysTwice` | app/models/payout_attempt.rb:76-78 | from any state in which a share may be paid: two sweeps with lost but classified replies around such a lapse pay it twice, and of the ten steps only that reconciliation is inadmissible |
| `PayoutHazards.OneShareIsReachable` | app/services/ledger/payout_runner.rb:30-37 | one settled sale reaches the state both histories start from |
| `PayoutRunner.PayGroupsKeepsSafe` | app/services/ledger/payout_runner.rb:39-100 | the whole loop over asset groups keeps the payout invariant when every executed transfer has a named reply and is recorded or marked, and no share under the ref belongs to a lapsed designer |
| `PayoutRunner.PayoutLedger.StartAttempts` | app/models/payout_attempt.rb:24-36 | one attempt row per entry, new or reused, processing, its count one higher |
| `PayoutRunner.PayoutLedger.Reconcile` | app/models/payout_attempt.rb:68-80 | every unresolved attempt under the ref: succeeded when a payout row exists, failed when verification lapsed, else unchanged |
| `PayoutRunner.PayoutLedger.BuildTransfers` | app/services/ledger/payout_runner.rb:40-43 | one leg per designer, the sum of that designer's shares of the group |
| `PayoutRunner.PayoutLedger.RecordPayouts` | app/services/ledger/payout_runner.rb:53-63 | exactly the group's shares gain a payout row with their own designer, asset and amount |
| `PayoutRunner.PayoutLedger.PayGroup` | app/services/ledger/payout_runner.rb:46-99 | transfer, then record or mark the attempts, as the group step of the protocol says for each reply |
| `PayoutRunner.PayoutLedger.PayPosition` | app/services/ledger/payout_runner.rb:39-99 | one pass of the loop advances the protocol by one group, or ends the run at the first failure |
| `PayoutRunner.PayoutLedger.PayGroupsInOrder` | app/services/ledger/payout_runner.rb:39-100 | the loop over groups is the protocol's whole run, and its result lists exactly the new rows |
| `PayoutRunner.PayoutLedger.PayOut` | app/services/ledger/payout_runner.rb:30-101 | a run under the lock: a share gains a row or is covered by a new transfer only if it was treasury-held, unpaid, in the scope, not awaiting reconciliation and of a verified designer; when nothing is raised every such share gains its row, after a failure no later asset group is touched; the returned list names exactly the new rows' assets and transactions |
| `PayoutRunner.PayoutLedger.WriteOutcome` | app/services/ledger/payout_runner.rb:53-98 | the rows of a recorded group, or its attempts marked as the reply and the outage say: succeeded, retrying or failed, needing reconciliation or not |
| `PayoutRunner.PayoutLedger.Exhaust` | app/models/payout_attempt.rb:61-66 | exactly the retrying attempts of the ref fail, and no other attempt changes |
| `PayoutSelection.BeginSelectsExactly` | app/services/ledger/payout_runner.rb:30-37 | a run starts with exactly the treasury-held, unpaid shares in its scope whose designer is verified and which await no reconciliation |
| `PayoutSelection.TransfersWereSelected` | app/services/ledger/payout_runner.rb:30-50 | in every history each executed transfer carries only shares that the run that sent it found owed, in its scope, not awaiting reconciliation and of a designer verified at that moment |
| `LedgerCustody.SharesKeepCustody` | app/models/ledger_entry.rb:36-59 | in every history a recorded share and its fee are as booked at their settling: treasury-held exactly when the payee is the treasury or not the account of the listing's designer, for that designer |
| `LedgerCustody.PayoutsStartFromTreasury` | app/services/ledger/payout_runner.rb:30-37 | over the shares of any checkout history, a payout run starts from those the treasury holds for the listing's designer |
| `PayoutRunner.PayoutLedger.RetryFailed` | app/controllers/designer/payout_attempts_controller.rb:10-37 | a retry re-queues exactly the still-owed shares of the failed group, or resolves the ref when none is owed |
| `Ledger.SplitFavoursDesigner` | app/models/ledger_entry.rb:40-55 | the fee is the floor of a tenth, so the designer gets at least nine tenths and nothing is lost |
| `CheckoutOutcomes.VerdictIsRight` | app/controllers/api/v1/batches_controller.rb:182-195 | each refusal if and only if: an offer not active, then a listing not published, then units that would exceed a cap, then a payment that already has rows |
| `CheckoutOutcomes.ReserveReserves` | app/controllers/api/v1/batches_controller.rb:197-209 | an accepted reservation adds one pending row per position with its offer, amount, asset, payee and rail, and nothing else; a refused one adds nothing |
| `CheckoutOutcomes.SettleSettles` | app/controllers/api/v1/batches_controller.rb:247-255 | a settling payment has every row settled under the transaction id and each real row booked, or stays verified when the id is taken on its rail |
| `CheckoutOutcomes.VerifyPaymentOutcome` | app/controllers/api/v1/downloads_controller.rb:166-187 | an invalid payment leaves every row failed_verification with the rejection noted; a lost reply leaves all pending with the facilitator noted; a valid one goes on to settle |
| `CheckoutOutcomes.SettlePaymentOutcome` | app/controllers/api/v1/downloads_controller.rb:181-201 | a refused settlement leaves every row failed_settlement with the reason noted; a lost reply leaves all verified; a success settles and delivers |
| `CheckoutOutcomes.ReconcilePaymentOutcome` | app/controllers/api/v1/downloads_controller.rb:154-164 | a mirror match of a real payment settles it, else the facilitator is asked |
| `CheckoutOutcomes.ReplayPaymentOutcome` | app/controllers/api/v1/downloads_controller.rb:123-151 | what one replay makes of each status a payment can be in |
| `CheckoutOutcomes.FailureFreesCapacity` | app/models/license_offer.rb:76-78 | a failed payment no longer counts towards the capacity of its offers, and no other payment's holding changes |
| `CheckoutOutcomes.LostVerifyIsPickedUp` | app/controllers/api/v1/downloads_controller.rb:123-201 | after a lost verify reply one replay with all services answering delivers |
| `SaleGate.VerdictIsTheGate` | app/controllers/api/v1/downloads_controller.rb:97-118 | at the same point of the lock protocol the reservation's verdict is the protocol's: offers changed exactly when the active check is not passed, listing unavailable exactly when a listing check is not |
| `SaleGate.AcceptedPassesTheGate` | app/controllers/api/v1/downloads_controller.rb:97-118 | an accepted reservation passes both checks |
| `MarketSafety.TallyCounts` | app/controllers/api/v1/batches_controller.rb:171-176 | the tally of a batch is the number of its positions that ask for the offer |
| `MarketSafety.BackstopNeverHit` | app/models/license.rb:26 | whoever holds a reservation without a licence is below the cap, so the SoldOut backstop cannot fire |
| `MarketSafety.NewSerialExtends` | app/models/license.rb:23-25 | adding the next serial to 1..k makes exactly 1..k+1 |
| `MarketSafety.AllocateKeepsSound` | app/models/license.rb:20-42 | minting keeps every invariant, changes only licences, and never refuses a settled purchase |
| `MarketSafety.ReserveKeepsSound` | app/controllers/api/v1/batches_controller.rb:182-209 | a reservation, single or batch, keeps capacity, serials, books and claims |
| `MarketRuns.RunKeepsSound` | app/controllers/api/v1/downloads_controller.rb:97-223 | every interleaving of reservations, verifications, settlements, failures, deliveries and catalogue changes keeps the invariant |
| `MarketRuns.CapacityAndSerials` | app/models/license_offer.rb:72-82 | after every run: real non-failed purchases fit the units, real serials are exactly 1..k without gap or repeat, the backstop is unreachable |
| `MarketRuns.BooksBalance` | app/models/ledger_entry.rb:36-59 | after every run, per asset: fees plus designer shares equal the gross of real purchases whose money moved |
| `MarketHistory.RunIsLater` | app/models/purchase.rb:7-14 | over any run rows, licences and ledger rows only grow; failed stays failed, settled never goes back, a named transfer stays named |
| `MarketHistory.OnePurchasePerPayment` | app/controllers/api/v1/downloads_controller.rb:123-151 | once a payment has rows, every later state has exactly those rows, on the same rail, with the licences and fee rows they had |
| `MarketHistory.MoneyTakenIsHonoured` | app/controllers/api/v1/batches_controller.rb:234-245 | after every run no executed payment has failed, every settled real row names an executed transfer, and on one rail no transfer is named twice |
| `MarketHistory.SettleKeepsRailsDisjointExactly` | app/controllers/api/v1/batches_controller.rb:308-317 | settling keeps the two rails from naming one transfer exactly when the other rail does not name it yet |
| `MarketHistory.OwnTransfersExactly` | app/controllers/api/v1/downloads_controller.rb:154-164 | every settled row names its own payment's transfer exactly when the mirror, which compares payee, amount and asset, never gave a waiting payment another payment's |
| `RailHazards.RailsCanShareATransfer` | app/controllers/api/v1/downloads_controller.rb:154-164 | a single purchase and a batch that wait for the payee, asset and amount one unclaimed executed transfer paid can both be matched to it |
| `RailHazards.SharedTransferIsReachable` | app/controllers/api/v1/batches_controller.rb:308-317 | a run from the empty shop ends with one executed transfer named on both rails |
| `Replay.ReplayIsSafe` | app/controllers/api/v1/batches_controller.rb:272-317 | however facilitator, mirror and file store answer, one replay keeps every invariant, loses no executed payment and takes nothing back |
| `Replay.SettledReplayDelivers` | app/controllers/api/v1/downloads_controller.rb:134-139 | one replay of a settled payment with deliverable files delivers and licenses every unit |
| `Replay.InterruptedReplayDelivers` | app/controllers/api/v1/downloads_controller.rb:140-164 | a payment stopped while verifying, while settling or before delivery is delivered whole by one replay with all services answering exactly when it had settled or its transaction id is free |
| `Replay.OwnTransferIsDelivered` | app/controllers/api/v1/downloads_controller.rb:123-164 | after every run in which the mirror gave nobody another payment's transfer, one such replay delivers |
| `Checkout.Shop.CountHolders` | app/models/license_offer.rb:76-78 | counts the real purchases of the offer that have not failed |
| `Checkout.Shop.OfferSoldOut` | app/models/license_offer.rb:72-82 | sold out if and only if the offer has a cap and the holders have reached it |
| `Checkout.Shop.CreatePurchase` | app/controllers/api/v1/downloads_controller.rb:97-118 | the first failing check of active, published, sold out and already paid, each told by the catalogue's and the rows' own fields, and one pending row when none fails |
| `Checkout.Shop.BatchSoldOut` | app/controllers/api/v1/batches_controller.rb:171-176 | sold out if and only if some requested offer would exceed its cap, repeats added up |
| `Checkout.Shop.InsertUnits` | app/controllers/api/v1/batches_controller.rb:197-206 | exactly one pending row per position, with that position's offer and amount and the batch's asset, payee and rail; nothing else changes |
| `Checkout.Shop.ReserveBatch` | app/controllers/api/v1/batches_controller.rb:182-212 | the first failing check over all its units, each an if-and-only-if on the catalogue's own fields, and all rows of the batch or none |
| `Checkout.Shop.RecordSettle` | app/models/ledger_entry.rb:36-59 | both ledger rows of a real purchase without rows: treasury-held exactly when the payee is the treasury or not the account of the listing's designer, whose share it is; otherwise none |
| `Checkout.Shop.TransitionTo` | app/models/purchase.rb:25-36 | the status moves if and only if the table lists it; the settling update and only it writes the ledger rows |
| `Checkout.Shop.AllocateLicense` | app/models/license.rb:20-42 | the licence gets the highest serial of its offer and rail plus one, unless the backstop fires |
| `Checkout.Shop.MoveUnits` | app/controllers/api/v1/batches_controller.rb:224-227 | every position moves to the new status, in order, and no ledger row changes |
| `Checkout.Shop.AdvancePayment` | app/controllers/api/v1/batches_controller.rb:257-265 | every unit and the batch row move together |
| `Checkout.Shop.SettleUnits` | app/controllers/api/v1/batches_controller.rb:250-253 | the first i units after i passes are settled with the transaction id and their ledger rows |
| `Checkout.Shop.SettlePaid` | app/controllers/api/v1/batches_controller.rb:247-255 | the whole payment settles with its ledger rows, or nothing changes because the transaction id is taken on the rail |
| `Checkout.Shop.DeliverUnit` | app/controllers/api/v1/batches_controller.rb:326-336 | one unit of the delivery: its licence if it has none, then its status |
| `Checkout.Shop.MintAndDeliver` | app/controllers/api/v1/batches_controller.rb:324-338 | the row-by-row delivery is the one atomic step that licenses and delivers the batch |
| `Checkout.Shop.NoteReason` | app/controllers/api/v1/downloads_controller.rb:198-201 | the error reason is noted on the batch row or the single purchase, and nothing else changes |
| `Checkout.Shop.DeliverWholeBatch` | app/controllers/api/v1/batches_controller.rb:319-338 | files first: either the whole batch is delivered or only the reason is noted |
| `Checkout.Shop.DeliverSingle` | app/controllers/api/v1/downloads_controller.rb:203-214 | licence first, then files: delivered, or the licence kept and the reason noted |
| `Checkout.Shop.SettleAndDeliver` | app/controllers/api/v1/batches_controller.rb:311-313 | a settling answer is followed by the delivery exactly when the claim was free |
| `Checkout.Shop.Refuse` | app/controllers/api/v1/downloads_controller.rb:183-187 | an explicit refusal fails every row of the payment and the batch row, with the rejection noted |
| `Checkout.Shop.AwaitFacilitator` | app/controllers/api/v1/downloads_controller.rb:198-201 | a lost reply fails nothing: the payment waits where it is |
| `Checkout.Shop.SettleCall` | app/controllers/api/v1/downloads_controller.rb:181-194 | success settles and delivers, refusal leaves every row failed_settlement with the reason noted, a lost reply leaves all verified |
| `Checkout.Shop.ReconcileCall` | app/controllers/api/v1/downloads_controller.rb:154-164 | the mirror is asked first, for real payments only; the facilitator when it knows nothing |
| `Checkout.Shop.VerifyCall` | app/controllers/api/v1/downloads_controller.rb:166-179 | invalid leaves every row failed_verification with the rejection noted, a lost reply leaves all pending, valid goes on to the settlement |
| `Checkout.Shop.ReplayCall` | app/controllers/api/v1/downloads_controller.rb:123-151 | one replayed request moves the payment on from wherever it stopped: verify, settle, reconcile, deliver or nothing |
| `SaleLockSafety.NoSaleWhileOffSale` | app/controllers/api/v1/downloads_controller.rb:97-118 | in every interleaving of lock-level steps, a reservation is inserted and committed while its offers are active and its listings published |
| `SaleLockSafety.StepKeepsInvExactly` | app/services/models/availability.rb:14-26 | the locks protect the checks exactly when no offer is created under a change or closure that is still collecting its locks |
| `SaleLockSafety.HeldRowMissesBuyers` | app/services/models/availability.rb:15-18 | once a listing change holds its row, no open reservation has seen that listing |
| `SaleLockSafety.SaleMoveUnderClosing` | app/services/designers/account_closure.rb:28-33 | between the closure's two checks a newly owed share still blocks it: its delivery needs an offer lock the closure holds |
| `SaleLockSafety.ClosingKeepsClosed` | app/services/designers/account_closure.rb:35-42 | a committing closure leaves its designer with retired listings, no purchase in flight and no share owed |
| `SaleLockSafety.ClosureIsFinal` | app/services/designers/account_closure.rb:18-49 | from the commit on, in every later state of every run in which the designer does nothing, no real purchase is in flight and no share is owed |
| `SaleLockHazards.PausedListingSells` | app/services/models/availability.rb:14-26 | a run from the empty shop in which an offer added during a pause is sold after the pause has committed |
| `SaleLockHazards.ClosureCanMissASale` | app/services/designers/account_closure.rb:24-33 | a run from the empty shop in which an offer added during a closure leaves a real purchase in flight after the closure |
| `ListingDesk.Desk.ChangeListing` | app/services/models/availability.rb:12-28 | under its locks it goes through exactly when the lock-level commit step may be taken, leaves that step's listings, and no open reservation has seen the listing on sale |
| `ListingDesk.Desk.ModelsWithHistory` | app/services/designers/account_closure.rb:35-37 | exactly the listings with any purchase row, failed and sandbox ones included |
| `ListingDesk.Desk.PrepareClosure` | app/services/designers/account_closure.rb:28-42 | refuses with the first failing check and changes nothing, or retires the sold listings and removes the others with their offers |
| `ListingDesk.VerdictIsTheChecks` | app/services/designers/account_closure.rb:28-33 | with the locks held the closure commits exactly when both checks pass one after the other |
| `BatchPricing.LastPartExcess` | app/services/x402/batch_requirements.rb:94 | the last part is its exact share or more, by less than one unit for each of the others |
| `BatchPricing.FeesOfParts` | app/models/ledger_entry.rb:40-55 | the per-licence fees never exceed the fee on the total and are short of it by at most n-1 units |
| `BatchPricing.PartsWithinTolerance` | app/services/x402/batch_requirements.rb:74-96 | no part but the last leaves 97..103 percent of its quote, less one unit for the floor |
| `BatchPricing.Distribute` | app/services/x402/batch_requirements.rb:91-96 | the loop computes the apportionment the lemmas below are about |
| `BatchPricing.PartsSumToTotal` | app/services/x402/batch_requirements.rb:91-96 | one part per licence, and the parts sum to the signed total |
| `BatchPricing.PartsAtQuotedTotal` | app/services/x402/batch_requirements.rb:91-96 | signed at the quoted total, every licence costs its own quote |
| `BatchPricing.EarlierPartsAreFloors` | app/services/x402/batch_requirements.rb:93 | every part but the last is the floor of the proportional share |
| `BatchPricing.AcceptableExactly` | app/services/x402/batch_requirements.rb:74-83 | a USDC option accepts exactly its own amount, an HBAR one exactly 97..103 percent of it |
| `BatchPricing.AcceptedQuoteIsPositive` | app/services/x402/batch_requirements.rb:74-83 | every accepted amount has a positive quoted total, so the division is safe |
| `BatchPricing.BuildAcceptsExactly` | app/services/x402/batch_requirements.rb:54-72 | there are options exactly when the offers share an asset and never disagree on how a shared one is paid; each is built of one quote per offer, lead currency first |
| `BatchPricing.BatchRequirements.MatchPayment` | app/services/x402/batch_requirements.rb:33-50 | matched if and only if an option has these terms, carries the sandbox mark where it must, and the amount is its own or, in HBAR, 97..103 percent of it; the items are floors of the proportional shares but the last and sum to the signed amount |
| `Decimal.TextOfValue` | app/services/x402/batch_requirements.rb:76 | a signed amount string is positive and is the text of its own value |
| `Decimal.HighestDigitFirst` | app/services/x402/batch_requirements.rb:76 | amount strings are decimal, the highest digit first |
| `RayTriangle.RayDistanceIsSound` | app/services/mesh_analysis/analyzer.rb:207-225 | a returned distance is beyond epsilon and ends on a barycentric point of the triangle |
| `RayTriangle.RayDistanceIsComplete` | app/services/mesh_analysis/analyzer.rb:207-225 | unless the ray is nearly parallel, every hit beyond epsilon is returned at its own distance |
| `RayTriangle.RayDistanceExactly` | app/services/mesh_analysis/analyzer.rb:207-225 | a distance is returned if and only if the ray, after that distance, is at a weighted mean of the corners, beyond 0.00001 and not nearly parallel to the triangle |
| `RayTriangle.NearestHitIsNearest` | app/services/mesh_analysis/analyzer.rb:194-197 | the minimum over all triangles is a hit, and no hit is nearer |
| `RayTriangle.CramerFirst` | app/services/mesh_analysis/analyzer.rb:239-249 | the identity behind the test: a vector in the basis of direction and edges by triple products |
| `MeshEdges.InspectTriangles` | app/services/mesh_analysis/analyzer.rb:138-169 | the loop over triangles and their edges computes the report |
| `MeshEdges.EdgesAreSides` | app/services/mesh_analysis/analyzer.rb:145 | the three edges of a triangle are its sides, without direction |
| `MeshEdges.ReportCounts` | app/services/mesh_analysis/analyzer.rb:138-152 | the report counts the degenerate triangles, the edges with exactly one owner and those with more than two |
| `MeshEdges.DegenerateExactly` | app/services/mesh_analysis/analyzer.rb:141-144 | a triangle is set aside exactly when its rounded corners lie on one line |
| `MeshEdges.ClosedExactly` | app/services/mesh_analysis/analyzer.rb:148-152 | all three counts are zero exactly when no triangle is degenerate and every edge has two owners |
| `MeshEdges.EdgeUsesAreOwners` | app/services/mesh_analysis/analyzer.rb:138-147 | the hash holds exactly the edges of proper triangles, each with the number of triangles it belongs to |
| `MeshEdges.ThreeEdgesEach` | app/services/mesh_analysis/analyzer.rb:140-147 | every proper triangle contributes three uses, a degenerate one none |
| `MeshEdges.ClosedMeansTwoEach` | app/services/mesh_analysis/analyzer.rb:148-152 | no degenerate triangle, boundary or crowded edge means every edge belongs to exactly two distinct triangles |
| `MeshEdges.EdgesAreCounted` | app/services/mesh_analysis/analyzer.rb:138-149 | in a closed mesh the counted edges are exactly the edges of its triangles |
| `MeshEdges.ClosedMeshCounts` | app/services/mesh_analysis/analyzer.rb:138-152 | in a closed mesh three times the triangles are twice the edges |
| `MeshEdges.InspectionIgnoresOrder` | app/services/mesh_analysis/analyzer.rb:138-149 | reordering triangles or the corners within them changes no count |
| `GridMesh.SortedTriExactly` | app/services/mesh_analysis/analyzer.rb:176-179 | sorting the corners forgets their order and nothing else |
| `GeometryForm.CanonicalExactly` | app/services/mesh_analysis/analyzer.rb:172-180 | two grid meshes have one canonical form exactly when one is the other up to translation, triangle order and corner order |
| `GeometryForm.MeshTextInjective` | app/services/mesh_analysis/analyzer.rb:181-183 | the joined text determines the triangle list |
| `GeometryForm.GeometryTextExactly` | app/services/mesh_analysis/analyzer.rb:172-184 | measured meshes share their text exactly when, shifted and rounded to the grid, they are the same triangles |
| `GeometryForm.GeometryTextIsCompleteInvariant` | app/services/mesh_analysis/analyzer.rb:172-184 | on the grid the hashed text is a complete invariant up to translation, triangle order and corner order |
| `GeometryLayout.GeometryTextSpelled` | app/services/mesh_analysis/analyzer.rb:172-183 | the text spells the mesh counted from its least corner in hundred-thousandths, each coordinate rounded to the nearest whole, halves away from zero; corners and triangles ascend by x, y and z; commas, semicolons and bars between |
| `StlCanonical.ReadWritten` | scripts/canonicalize_stl.rb:8-15 | what is written is read back: count, triangles and their order |
| `StlCanonical.LeastTurnExactly` | scripts/canonicalize_stl.rb:14 | the least rotation forgets the rotation and nothing else |
| `StlCanonical.WindingIsKept` | scripts/canonicalize_stl.rb:14 | a facet with different corners is not a rotation of its mirror image |
| `StlCanonical.Canonicalize` | scripts/canonicalize_stl.rb:6-33 | the reading, sorting and writing loops compute the canonical file, and refuse what is not a binary STL |
| `StlCanonical.OutputIsSameSurface` | scripts/canonicalize_stl.rb:6-33 | reading the output gives the same oriented triangles, NaN coordinates aside |
| `StlCanonical.CanonicalizingTwice` | scripts/canonicalize_stl.rb:6-33 | canonicalising twice equals once, NaN coordinates aside |
| `StlCanonical.SameBytesExactly` | scripts/canonicalize_stl.rb:6-33 | two files become the same bytes exactly when they hold the same triangles up to order and cyclic rotation, NaN coordinates aside |
| `StlLayout.BinaryStlExactly` | scripts/canonicalize_stl.rb:7-9 | a file is taken exactly when its header is followed by a positive little-endian count and 50 bytes for each record |
| `StlLayout.CoordinateAt` | scripts/canonicalize_stl.rb:12-13 | the k-th coordinate of the i-th facet is the little-endian word after the record's normal, minus zero read as zero |
| `StlLayout.OrderIsValueOrder` | scripts/canonicalize_stl.rb:14-16 | bit patterns are ordered as the binary32 numbers they stand for, NaN aside |
| `StlLayout.OutputIsOrdered` | scripts/canonicalize_stl.rb:14-33 | in the output every facet starts at its least rotation and the facets ascend by their coordinates' values; header, normals and attribute bytes are in their places |
| `Json.RoundTrip` | verifier/index.js:44-55 | a parser recovers every value from its text whatever follows, numbers not being followed by a digit |
| `Json.StringRoundTrip` | verifier/index.js:46 | string text with its escapes, surrogate pairs and lone surrogates is read back |
| `Json.StringifyInjective` | verifier/index.js:46 | different values have different texts |
| `JsonText.WordsSpelled` | verifier/index.js:46 | the words null, true and false, and the empty string, list and object |
| `JsonText.UnitSpelled` | verifier/index.js:46 | which code units are escaped and how: the short escapes, lower-case hex for other control characters and lone surrogates, all else as it is |
| `JsonText.StringSpelled` | verifier/index.js:46 | a string's units in order between quotes, surrogate pairs kept |
| `JsonText.NumberSpelled` | verifier/index.js:46 | an integer's sign and digits, the last digit last |
| `JsonText.ArraySpelled` | verifier/index.js:47-49 | items in order, commas between them, brackets round them |
| `JsonText.ObjectSpelled` | verifier/index.js:50-54 | members in order, a colon after each key, commas between them, braces round them |
| `JsonText.IndexExactly` | client/index.js:467 | an array-index key is the text of a whole number below 2^32 - 1 |
| `Serialisers.SortedAscends` | verifier/index.js:51 | section 3.2.3 of RFC 8785: keys ascend by UTF-16 code units in every object |
| `Serialisers.CanonicalTextIsStringify` | verifier/index.js:44-55 | the hand-written recursion writes the plain text of the reordered value |
| `Serialisers.CanonicalRoundTrip` | wallet/payment.js:92-98 | the canonical text is read back as the sorted value, whatever follows |
| `Serialisers.SortAllExactly` | wallet/payment.js:94-96 | sorting every object forgets member order and nothing else |
| `Serialisers.CanonicalTextExactly` | wallet/payment.js:92-98 | two values have one canonical text exactly when they are the same value up to member order |
| `Serialisers.OwnOrderExactly` | client/index.js:467 | rebuilding an object keeps its sorted members exactly when array-index keys lead and ascend |
| `Serialisers.SerialisersAgreeExactly` | client/index.js:464-469 | verifier and widget agree with the wallet exactly when toJSON members hide no disorder; the client exactly when array-index keys lead in every object |
| `Serialisers.SerialisersAgree` | public/printwright-verify-widget.js:40-49 | without array-index keys and toJSON members all four programs write the same text |
| `Serialisers.ToJsonDisagrees` | verifier/index.js:45-46 | an object with a toJSON member gets two different canonical texts |
| `Serialisers.IndexKeyDisagrees` | client/index.js:464-469 | every two-member object with an array-index key behind a plain key in key order gets two different canonical texts |
| `Serialisers.OneAndBangDisagree` | client/index.js:464-469 | such an object exists: its keys are 1 and ! |
| `Serialisers.OrderedSortsAlike` | verifier/index.js:44-55 | whichever order a canonicaliser writes, it is the same value up to member order |
| `Commitment.Utf8Injective` | verifier/index.js:64 | UTF-8 loses nothing of a well-formed text |
| `Commitment.Utf8Spelled` | verifier/index.js:64 | each code point in the shortest form of section 3 of RFC 3629, a surrogate pair as one, a lone surrogate as U+FFFD |
| `Commitment.TextIsWellFormed` | verifier/index.js:44-55 | no canonical text holds half a surrogate pair, whatever its strings hold |
| `Commitment.NoObjectEndsInAnother` | verifier/index.js:61-65 | the text of an object is never the tail of a longer object text |
| `Commitment.FillPreimage` | public/printwright-verify-widget.js:55-62 | the byte array filled in place is domain, nonce and text in turn |
| `Commitment.PreimageDetermines` | verifier/index.js:57-67 | a preimage determines its domain, its nonce and its certificate, for nonces of any length |
| `Commitment.AnchoringMeansThisCertificate` | verifier/index.js:128-165 | with an injective hash, a passing anchoring check means that very certificate, up to member order, and that nonce were anchored on the expected topic |
| `Commitment.HonestBundlePasses` | verifier/index.js:128-165 | the certificate that was anchored, with its nonce and commitment, passes integrity and anchoring |
| `Commitment.IntegrityExactly` | verifier/index.js:128-131 | with an injective hash, integrity is verified exactly when the bundle holds the committed certificate, up to member order, and its nonce |
| `Commitment.AnchoringExactly` | verifier/index.js:132-165 | anchoring is pending exactly while minting or without a topic, and otherwise verified exactly when the topic is the expected one and holds an envelope of this kind and commitment |
| `Commitment.NonceIsHex` | verifier/index.js:57-60 | a nonce is read exactly when it is pairs of hex digits, the high digit first |
| `Commitment.DomainIsNamed` | verifier/index.js:61-65 | the domain separator, byte for byte |
| `PayoutDestination.DestinationIsSafe` | app/services/designers/payout_destination.rb:21-179 | in every run, the active account changes only to the account named by a challenge that account signed, and at least 24 hours after the proof if a different verified account was active then |
| `DestinationHistory.ChangeHasItsHistory` | app/services/designers/payout_destination.rb:21-179 | an account becomes the active one only after an event that accepted its signature; when it takes the place of another verified one, its verify finished at least 24 hours earlier and nothing was requested, cancelled or activated since |
| `DestinationHistory.ClosedStaysBare` | app/services/designers/payout_destination.rb:30-61 | a closed account has no destination and no pending change in any later state, whatever was in flight |
| `PayoutDestination.SecondSectionExactly` | app/services/designers/payout_destination.rb:71-87 | the second section succeeds exactly when the very challenge the first one saw is still live |
| `PayoutDestination.Service.RequestChange` | app/services/designers/payout_destination.rb:21-38 | refused exactly for the account already active and for a closed one; else the challenge lives 15 minutes, no proof waits, no verify in flight can finish, and the active account stays |
| `PayoutDestination.Service.ValidateChallenge` | app/services/designers/payout_destination.rb:138-147 | the errors of a challenge in their order, and none exactly when it is the live one |
| `PayoutDestination.Service.VerifyFirst` | app/services/designers/payout_destination.rb:55-61 | succeeds exactly with a live challenge on an open account; the account whose signature is checked next is the one the message names |
| `PayoutDestination.Service.VerifySecond` | app/services/designers/payout_destination.rb:71-87 | goes through exactly while its own challenge is live; then the account that signed is active and verified, or waits a day when it replaces another verified one |
| `PayoutDestination.Service.ActivateLocked` | app/services/designers/payout_destination.rb:150-165 | the account becomes active and verified now, and nothing stays pending |
| `PayoutDestination.Service.ActivateChange` | app/services/designers/payout_destination.rb:105-115 | succeeds exactly when a signed challenge has waited 24 hours on an open account, and makes the account active that signed it |
| `PayoutDestination.Service.CancelChange` | app/services/designers/payout_destination.rb:122-130 | refused exactly for a closed account and when nothing is pending; else nothing of the change is left, no verify in flight can finish, and the active account stays |
| `ChatSafety.CapsHold` | app/services/chat/purchase_approval.rb:107-138 | in every state of every run: a conversation never exceeds its cap, today's approvals of existing conversations never exceed the daily cap, and a nonce is authorised for one transaction at most |
| `ChatSafety.CounterCoversToday` | app/services/chat/purchase_approval.rb:146-148 | the counter never under-estimates what existing conversations approved today |
| `ChatSafety.ChargesStay` | app/services/chat/purchase_approval.rb:113-131 | a nonce once charged stays charged as it was |
| `ChatSafety.AuthorisedWasCharged` | app/services/chat/purchase_intent.rb:40-58 | a transaction is authorised only for a charged nonce, in its conversation, for exactly the charged price |
| `ChatSafety.ChatDesk.ApprovedTodayCents` | app/services/chat/purchase_approval.rb:146-148 | the sum of the totals of the conversations touched today |
| `ChatSafety.ChatDesk.Reserve` | app/services/chat/purchase_approval.rb:107-138 | each refusal if and only if, in the code's order; a pending proposal is charged once, today, to its conversation, an approved one is not charged again; the token carries the charged terms; every cap holds |
| `ChatSafety.ChatDesk.Authorize` | app/services/chat/purchase_intent.rb:40-58 | each refusal if and only if, in the code's order; on success this transaction is the only one ever authorised for the nonce, at the charged price |
| `ChatSafety.ChatDesk.Complete` | app/services/chat/purchase_intent.rb:66-78 | completes only the submitted proposal with that nonce and digest, charges and authorises nothing, and no token of that nonce is accepted afterwards |
| `OfferRevisions.OffersStaySound` | app/services/license_offers/reviser.rb:3-57 | in every reachable state: at most one active offer per listing and kind, and each revision follows one closed offer, one number up, none followed twice |
| `OfferRevisions.AncestorsAreOlder` | app/services/license_offers/reviser.rb:30-41 | the n-th ancestor is n revisions older and inactive, so a supersedes chain never returns |
| `OfferRevisions.ReservedOfferIsImmutable` | app/models/license_offer.rb:121-127 | no call changes what a reserved offer says or takes it away; at most it closes it |
| `OfferRevisions.EditTakesEffectExactly` | app/services/license_offers/reviser.rb:20-41 | a successful edit leaves one active offer, and it says what the edit asked for exactly when the offer was not superseded, the cap was sent, or there was none; the old cap survives a revision exactly when it is sent again or was absent |
| `OfferRevisions.UnsentCapIsLost` | app/services/license_offers/reviser.rb:31-40 | a run from the empty shop: a capped offer, reserved and repriced without its cap, is followed by an uncapped one |
| `OfferRevisions.Reviser.Revise` | app/services/license_offers/reviser.rb:3-42 | each outcome if and only if, on the offers' own fields: not found, closed, removed or refused, unchanged, edited in place, or closed and superseded by a row built from what was sent; no other offer changes |
| `OfferRevisions.Reviser.CreateOffer` | app/services/license_offers/reviser.rb:44-46 | refused exactly without a kind, without a positive price or beside an active offer of the kind; else an active first revision with what was sent |
| `OfferRevisions.Reviser.DestroyOffer` | app/services/license_offers/reviser.rb:48-56 | a reserved offer is closed, one with any purchase or successor refused, any other removed |
| `FileOrder.MoveIsAdjacentSwap` | app/services/models/file_manager.rb:18-37 | a move keeps the group's slots and every file outside it; the listing shows an adjacent swap exactly when the two slots differ and the ids tied on either allow it, as distinct positions always do |
| `FileOrder.MoveStaysExactly` | app/services/models/file_manager.rb:25-34 | a move changes nothing exactly at the edge of the group or next to a file tied with this one |
| `FileOrder.OppositeMoveUndoes` | app/services/models/file_manager.rb:18-37 | the opposite move restores every file exactly when the first one showed as an adjacent swap, or changed nothing and the opposite changes nothing either; with distinct positions always |
| `FileOrder.FeatureIsMoveToFront` | app/services/models/file_manager.rb:39-52 | featuring keeps the slots and every other file, and shows as a stable move to the front exactly when that order breaks ties by id, as it does on distinct positions |
| `FileOrder.TiedMoveJumps` | app/services/models/file_manager.rb:18-37 | of three renders, two of them tied, the last moved up is listed first, and moving it down again changes nothing |
| `FileOrder.ResequenceNumbers` | app/services/models/file_manager.rb:66-68 | resequencing keeps the listing's order and numbers it from 0 |
| `FileOrder.RemovalKeepsOrder` | app/services/models/file_manager.rb:5-16 | removing a file leaves the others listed in their order, numbered from 0 |
| `FileMoves.FileManager.WriteSlots` | app/services/models/file_manager.rb:34 | writing the slots one by one gives the k-th file of the order the k-th slot |
| `FileMoves.FileManager.Move` | app/services/models/file_manager.rb:18-37 | refused exactly for a printable file of a frozen bundle; else the file and its neighbour in the group trade positions and nothing else changes, at the edge nothing |
| `FileMoves.FileManager.Feature` | app/services/models/file_manager.rb:39-52 | refused exactly for anything but a render; else it takes the first render's position, each render before it the next one's, and nothing else changes |
| `FileMoves.FileManager.Remove` | app/services/models/file_manager.rb:5-16 | refused exactly for a printable file of a frozen bundle; else the row is gone, the others keep their order and are numbered 0 to n-1 |

## Left out

- HTTP requests and responses, rendering, mail, notifications, jobs' transport, search, rate limits, login.
- The race of two requests on one purchase through the unlocked status check of `transition_to!`.
- The reaper, which reconciles the children of a batch by their own amounts.
- Deadlocks: delivery takes offer locks in line order while reservation sorts them.
- Equality of a purchase's amount with the offer's current price, which is matched before the offer is locked.
- The certificate schema check of the verifier: the builder writes version 2, the verifier asks for 1.
- The Ruby side's RFC 8785 library, taken to write the sorted text of integers, strings and plain values.
- JSON numbers that are not integers, and integers beyond what JavaScript holds exactly.
- IEEE rounding: intersections are in exact reals, grid coordinates are rounded exact reals, and STL coordinates are bit patterns compared by sign and magnitude.
- STL files with NaN coordinates, whose comparison raises or not depending on what it meets first; the normals are an arbitrary function of the facet.
- Non-finite vertices, the minimum of four triangles, wall thickness sampling beyond the nearest hit, and reading of ASCII STL and 3MF.
- Cryptography: signatures and hashes are uninterpreted; a proof is accepted when the outside says so.
- The validity check of a payout account id, and the expiry times of chat proposals and intent tokens.
- Changes of the spending caps between approvals, and an approval that begins on one day and commits on the next.
- Free-text licence terms and their hashes; offer prices that are not whole cents are one invalid value.
- An account closure's removal of imports, webhooks, attempts and notifications.
- Sorting algorithms: any sort of a total order gives the modelled result; ties between more than two payment options keep their order.
- BatchPricing.PartsWithinTolerance: the last licence is not within the tolerance of its quote in general; LastPartExcess bounds it instead.
- PayoutDestination.DestinationIsSafe: a replacement is not held when the old account's verification has lapsed before the proof, as in the code.
