# Sportsbook money protocol: Dafny model and proofs

The project models the parts of the sportsbook backend that decide who is paid what, and proves what
they keep over every run.

* **Money protocol** (`Wallet`, `Ledger`, `LedgerSafety`, `LedgerTheorems`, `BetTerms`, `SettlementQueue`,
  `QueueOrder`, `Services`, `CallEffects`).
  A bet is created pending together with one debit outbox row; the row is posted to a wallet that
  deduplicates on the transaction code; the bet is accepted or rejected, and later settled or voided with
  one closing row that is delivered singly or in per-tenant batches with retry and backoff. `Ledger` is
  the state machine over bets, outbox rows, postings, catalogue and clock. Every wallet call may be applied
  and acknowledged, applied (in part, for a batch) with its answer lost, not applied, or refused; every
  write after it may succeed, fail or be cut off by a crash. `Services` holds the services as classes over
  one database and one wallet, each method proved to be the corresponding step or run of steps; `BetTerms`,
  `QueueOrder` and `CallEffects` say what those steps do in terms of bets, legs and rows alone.
* **Races and answers** (`DebitRace`, `ClosingRace`, `MerchantDebits`). Debit attempts split into read, call and
  write that interleave; settlement, staff void and late acceptances of one bet that interleave; and debits
  against a merchant that may apply a debit or not, whatever it then answers.
* **Decimal arithmetic** (`BetMath`, `BetValidation`). 20 significant digits, half-up, on integer
  coefficients; combined odds to three places, payout floored to cents, and the slip validation around them.
* **Grading** (`Text`, `Grading`, `LegGrades`, `OddsLabels`, `SpreadLabels`). The per-market rules, from the
  catalogue's rows to the result of a leg, frozen leg snapshots, aggregation, and what grading with the
  market's one line means for the label the bettor saw.
* **Provider feed** (`OddsMapper`, `ProviderSnapshot`, `FeedProvenance`, `FeedRows`, `Ingestion`, `IngestionTheorems`,
  `IngestedRows`, `CataloguePurge`). The mapper's nested loops, where each row of a snapshot comes from, the upsert
  loops with odds history, and the purge of stale fixtures.
* **Small stateful classes** (`CircuitBreaker`, `WalletReply`, `RateLimiter`, `Rollups`).

Money is in cents, odds in thousandths, lines in hundredths, times in milliseconds. Catalogue rows are keyed
by their unique reference, bets by their number in creation order, outbox rows by (bet, type). Transaction
codes are injective tags. Randomness (new codes and batch ids), the clock, the wallet's behaviour on the
wire, slug and number parsing are parameters. Every service call is stated for all values of them.

A service call on one bet does not overlap another call on the same bet in `Ledger`; `DebitRace` and
`ClosingRace` prove exactly when that matters.

## What does not hold

Some properties one might expect are false of the code. Each has a concrete input for which it fails, and the
lemma named states the exact condition under which it holds.

* The stub wallet's balance can go below zero. It does not if and only if the configured opening balance is
  non-negative and has no fraction of a cent that rounds up (`LedgerTheorems.BalancesNonNegativeExactly`,
  `Wallet.BalancesNeverNegative`).
* A bet can be rejected although its stake was taken, when debit attempts overlap
  (`DebitRace.OverlapRejectsADebitedBet`). For a given debit it cannot if and only if nothing that may be posted
  meanwhile makes a refused stake affordable (`DebitRace.RejectionIsSafeExactly`); for all bets of a user, if and
  only if nothing credits that user (`DebitRace.OnlyCreditsEndanger`).
* The same happens when a merchant applies a debit and answers it unrecognisably
  (`MerchantDebits.FirstAttemptMisread`). It does not if and only if every answer to an applied debit is a
  success, a duplicate hint, or a bare status other than 400, 402 and 409
  (`MerchantDebits.RejectionIsSafeExactly`).
* A bet can be paid by a settlement and refunded by a staff void, when the two overlap or a late acceptance
  reopens the settled bet (`ClosingRace.GapClosesTwice`); the exact condition is in
  `ClosingRace.ClosesOnceExactly`.
* A leg without a snapshot is graded by the names of today (`Grading.UnfrozenLegsFollowRenames`). Results ignore
  catalogue edits if and only if the leg has a snapshot (`Grading.SnapshotsDecideIndependence`).
* Spread legs can be graded against their label (`SpreadLabels.AwayFirstContradictsLabel`). They agree with it if
  and only if the market line is the one the label means, and the away label does not contain the home name
  (`SpreadLabels.SpreadMatchesLabel`).
* The payout is not always the exact floor of stake times odds. For all quotes it is if and only if the payout
  cap is at most 10^15 (`BetMath.CapGuardsExactness`).
* A fixture of a mapped feed can name another match's team (`FeedProvenance.SharedSlugRenames`). It names its own
  two if and only if the last match to use either team key uses it for the same name
  (`FeedProvenance.MatchNamesItsTeams`).
* The source's comment calls repeated ingests idempotent
  (src/modules/ingestion/ingestion.service.ts:115-119). The received price is compared before it is rounded to
  the column's three decimals, so a rounded price adds a history entry on every ingest
  (`IngestionTheorems.RoundedPriceGrowsHistory`). A second ingest is a no-op if and only if every price that is
  not skipped has at most three decimals (`IngestionTheorems.ReingestIsNoOp`,
  `IngestionTheorems.FullReingestIsNoOp`).
* Insufficient-funds answers count as wallet failures, so a few of them close the wallet to everyone for the
  cooldown (`WalletReply.RefusalsTripTheBreaker`); a call is refused if and only if the trailing failures reach
  the threshold and the last is recent (`CircuitBreaker.BreakerIsItsHistory`).

## Model

| member | source | states |
|---|---|---|
| `LedgerTheorems.LedgerConservation` | src/modules/wallet/wallet-stub.client.ts:38-63 | In every reachable state each user's balance is the opening balance plus, over that user's bets, the net of the bet's postings, which for a bet with no pending row is potential payout − stake if won, −stake if lost or accepted, 0 if void or rejected |
| `LedgerTheorems.NetByStatus` | src/modules/wallet/wallet-outbox.service.ts:138-202 | The net posted for one bet with no pending row, by its status; every bet of an invariant state |
| `LedgerTheorems.BalanceByBet` | src/modules/wallet/wallet-stub.client.ts:38-81 | A balance is the opening balance plus the per-bet nets of that user's bets, whatever the order of postings |
| `LedgerTheorems.BetsAndRowsInStep` | src/modules/settlement/settlement.service.ts:252-279 | In every reachable state the debit row follows the bet's status, a closing row exists exactly for closed bets, is the only one and pays the recorded payout; a won bet has all legs won and its potential payout, a void one a void leg and its stake, a lost one no void leg, a lost one and nothing |
| `LedgerTheorems.RunLater` | src/modules/backoffice/bets/staff-bets.service.ts:182-228 | Over every run a bet's identity, terms and legs stay, outcomes and payout wait for the closing, rejected and closed bets never change, accepted bets only close, postings are never withdrawn, and a row's code, payload and, once set, batch id are stable |
| `LedgerTheorems.NoCreditBeforeDebit` | src/modules/wallet/wallet-transaction.builder.ts:105-170 | Every settlement or void posting comes after the debit of the same bet and is non-negative; no posting belongs to a rejected bet |
| `LedgerTheorems.BalancesStayNonNegative` | src/modules/wallet/wallet-stub.client.ts:45-56 | No reachable balance is negative when the opening balance is non-negative and does not round up in cents |
| `LedgerTheorems.BalancesNonNegativeExactly` | src/modules/wallet/wallet-stub.client.ts:45-56 | Balances are non-negative in every state reachable under every configuration of limits and catalogue if and only if the opening balance is non-negative and does not round up in cents; otherwise one placed and debited bet overdraws it |
| `LedgerTheorems.PlacementIsIdempotent` | prisma/schema.prisma:290 | However often a (group, user, key) is placed, mixed with any other steps, at most one bet carries it, and every bet has at most one debit posting |
| `LedgerTheorems.RepeatedPlacementIsNoOp` | src/modules/bets/bets.service.ts:42-61 | Placing an identity that already has a bet creates nothing |
| `LedgerTheorems.PlacedBetIsAccepted` | src/modules/bets/bets.service.ts:69-116 | The balance check of placement is enough: a bet just placed is accepted by the next answered attempt and costs exactly the stake asked for |
| `LedgerTheorems.RejectedForWantOfFunds` | src/modules/wallet/wallet-outbox.service.ts:192-198 | A pending bet is rejected only when the stake exceeds the shown balance, and then nothing is posted |
| `LedgerTheorems.LostDebitIsRecovered` | src/modules/wallet/wallet-stub.client.ts:41-43 | A debit applied while its answer was lost is accepted by the next answered attempt without a second posting, whatever the balance now is |
| `BetTerms.BetsAreAsAsked` | src/modules/bets/bets.service.ts:81-114 | Every bet of every reachable state was created by one placement of the run: its identity and stake are those asked for, its legs the selections asked for as the catalogue had them then, its odds those of the legs' prices and, under a cap of at most 10^15, its potential payout the exact floor of stake times odds |
| `BetTerms.PlacesExactly` | src/modules/bets/bets.service.ts:42-114 | A placement creates a bet if and only if the identity is new, the slip is quoted, currency and balance suffice and the code is unused; then exactly one pending bet as asked with a debit row due at once, and otherwise nothing |
| `BetTerms.BetsArePaidAs` | src/modules/settlement/settlement.service.ts:288-310 | In every reachable state: won means every leg is won and the payout is the potential payout; void, some leg is void and the stake; lost, some leg is lost, none void, and zero; until then no payout and no outcomes |
| `BetTerms.PostingsMatchBets` | src/modules/wallet/wallet-transaction.builder.ts:105-170 | Every posting of every run is its bet's debit of the stake, or the closing of a bet closed as its code says: the potential payout for a won bet, the stake for a void one, nothing for a lost one, flagged accordingly |
| `LedgerSafety.StepKeepsInv` | src/modules/wallet/wallet-outbox.service.ts:138-319 | Every step, with every wallet outcome, failed write or crash, keeps bets, rows and wallet histories in step |
| `LedgerSafety.RunKeepsInv` | prisma/schema.prisma:327-346 | The invariant holds after every run from a state that satisfies it |
| `LedgerSafety.DebitKeepsInv` | src/modules/wallet/wallet-outbox.service.ts:138-202 | A debit attempt, whatever its outcome, keeps the invariant |
| `LedgerSafety.FlushKeepsInv` | src/modules/wallet/wallet-outbox.service.ts:204-279 | A batch flush, whatever its outcome, keeps the invariant |
| `LedgerSafety.CloseKeepsInv` | src/modules/settlement/settlement.service.ts:220-286 | Closing an accepted bet, by settlement or staff void, keeps the invariant |
| `LedgerSafety.PlaceKeepsInv` | src/modules/bets/bets.service.ts:63-114 | Creating a bet with its debit row keeps the invariant |
| `Wallet.WalletStubClient.GetBalance` | src/modules/wallet/wallet-stub.client.ts:27-36 | Shows the opening balance plus all postings, rounded to cents, halves away from zero |
| `Wallet.WalletStubClient.PostTransaction` | src/modules/wallet/wallet-stub.client.ts:38-63 | Balances and posted codes stay the ones the postings imply; a known code changes nothing; a debit above the shown balance is refused |
| `Wallet.WalletStubClient.PostTransactionBatch` | src/modules/wallet/wallet-stub.client.ts:65-72 | Posts the items in order up to the first refusal |
| `Wallet.RetryIsFree` | src/modules/wallet/wallet-stub.client.ts:41-43 | Posting an accepted transaction again changes nothing and is accepted |
| `Wallet.CreditBatchNeverStops` | src/modules/wallet/wallet-stub.client.ts:65-72 | A batch of non-negative amounts is accepted and every item is posted, so batches never stop midway |
| `Wallet.BalancesNeverNegative` | src/modules/wallet/wallet-stub.client.ts:48-53 | Over all request sequences balances stay non-negative if and only if the configured opening balance is non-negative and does not round up to the cent: the stub compares the stake with the rounded balance |
| `SettlementQueue.FlushDisposes` | src/modules/wallet/wallet-outbox.service.ts:204-279 | A recorded flush completes the due rows that share the batch of the one created first, or counts the attempt and holds all of them back a minute per attempt up to fifteen, and touches no other row; it sends exactly when the wallet answers and the write succeeds |
| `SettlementQueue.FlushAdvances` | src/modules/wallet/wallet-outbox.service.ts:208-233 | The due queue after a recorded flush is the old one without its oldest batch, and strictly shorter |
| `SettlementQueue.FlushesDrain` | src/modules/wallet/wallet-outbox.service.ts:204-279 | At a fixed time as many recorded flushes as there are due batches leave none due, whichever of them fail: a failing batch cannot block the rest |
| `SettlementQueue.RetryDelayBounds` | src/modules/wallet/wallet-outbox.service.ts:302-319 | The backoff starts at one minute and grows by a minute per attempt up to fifteen |
| `SettlementQueue.RescheduledComesBack` | src/modules/wallet/wallet-outbox.service.ts:302-319 | A rescheduled row is skipped by every poll of the next minute and due to every poll from fifteen minutes on, one attempt older and otherwise unchanged |
| `SettlementQueue.LoopDelivers` | src/modules/wallet/wallet-outbox.service.ts:37-51 | Whatever happens to the calls, their writes and the process, the tenant flush loop sends one batch per leading success in queue order and completes exactly the rows of the batches sent |
| `SettlementQueue.ClearBackoffMakesDue` | src/modules/backoffice/settlement/staff-settlement.service.ts:189-196 | Clearing the backoff makes every pending settlement row of the tenant due, in the same order, and changes nothing else of any row |
| `SettlementQueue.StaffRetryDelivers` | src/modules/backoffice/settlement/staff-settlement.service.ts:168-228 | A staff retry sends as many batches as there are leading successes, at most as many as there are distinct batch ids, completes exactly their rows, and leaves rows outside the tenant's pending settlements untouched |
| `SettlementQueue.StaffRetryDrains` | src/modules/backoffice/settlement/staff-settlement.service.ts:198-209 | Against a wallet that accepts, a staff retry sends min(100, number of distinct batch ids) batches and leaves none pending when that number is at most 100 |
| `QueueOrder.StaffRetryInOrder` | src/modules/backoffice/settlement/staff-settlement.service.ts:198-209 | When a staff retry completes a pending row, it completes every pending row of each batch that has a row created before all rows of the former's batch |
| `QueueOrder.PollTakesOldest` | src/modules/wallet/wallet-outbox.service.ts:80-120 | A poll takes at most 20 rows, all due, in the order of creation, and leaves out a due row only when 20 due rows created before it are taken |
| `QueueOrder.DueTenantsOnce` | src/modules/wallet/wallet-outbox.service.ts:54-66 | The worker's flush visits exactly the tenants that have a due settlement row, each once |
| `Services.WalletOutboxService.ProcessSingleDebit` | src/modules/wallet/wallet-outbox.service.ts:138-202 | Has exactly the effect of the ledger machine's debit step, whatever happens to the call and the write |
| `Services.WalletOutboxService.ProcessPendingDebits` | src/modules/wallet/wallet-outbox.service.ts:80-107 | Is the run of debit steps for the rows that QueueOrder.PollTakesOldest describes; goes on after failures and ends early only when the process dies |
| `Services.WalletOutboxService.ProcessPendingStaffVoids` | src/modules/wallet/wallet-outbox.service.ts:109-136 | Is the run of staff-void steps for such rows, up to the first whose outcome cannot be recorded |
| `Services.WalletOutboxService.FlushSettlementBatchForGroup` | src/modules/wallet/wallet-outbox.service.ts:204-279 | Has exactly the effect of the flush step, which SettlementQueue.FlushDisposes describes row by row, and reports whether a batch was sent |
| `Services.WalletOutboxService.FlushSettlementBatches` | src/modules/wallet/wallet-outbox.service.ts:54-74 | Flushes one batch of every tenant with a due row, up to the first whose outcome cannot be recorded, and counts those sent |
| `Services.WalletOutboxService.FlushSettlementBatchesForCasinoGroup` | src/modules/wallet/wallet-outbox.service.ts:37-51 | Is the flush loop, with its limit of 100 batches |
| `Services.FlushGroupsIsRun` | src/modules/wallet/wallet-outbox.service.ts:66-73 | The tenant loop is a run of flush steps, so the theorems about runs cover it |
| `CallEffects.DebitOutcomes` | src/modules/wallet/wallet-outbox.service.ts:138-202 | One debit attempt, outcome by outcome: the stake is posted unless it was, is not covered or the request does not arrive; the bet is accepted, rejected or left, and the row completed, failed, held back or left; nothing else changes |
| `CallEffects.StaffVoidOutcomes` | src/modules/wallet/wallet-outbox.service.ts:109-136 | One staff-void delivery, outcome by outcome, in the same terms; a row that is not due is not touched |
| `CallEffects.EveryTenantIsFlushed` | src/modules/wallet/wallet-outbox.service.ts:66-73 | When all outcomes can be recorded, the worker's flush completes or holds back the oldest due batch of every tenant |
| `Services.BetsService.PlaceBet` | src/modules/bets/bets.service.ts:36-119 | Retries the debit of a pending bet of this identity, returns a decided one, and otherwise places the bet and attempts its debit; answers with the bet only when it is decided, that the debit is pending when it is not, and a refused slip changes nothing. BetTerms.PlacesExactly and CallEffects.DebitOutcomes say what is stored |
| `Services.PlaceBetIsRun` | src/modules/bets/bets.service.ts:36-119 | A placement, new or repeated, is a run of ledger steps, so the invariant and the theorems about runs cover it |
| `CallEffects.PlacementIsDebited` | src/modules/bets/bets.service.ts:69-116 | A placement that creates a bet and whose debit is answered and written leaves it accepted, as asked, with exactly its stake taken |
| `CallEffects.PlacementAgain` | src/modules/bets/bets.service.ts:42-61 | The same request again gives a pending bet one more debit attempt and leaves a decided one as it is |
| `Services.SettlementService.GradeBet` | src/modules/settlement/settlement.service.ts:148-209 | The three loops return results exactly for an accepted bet all of whose legs have a grade, the grades that LegGrades reads off the catalogue |
| `Services.SettlementService.PersistGraded` | src/modules/settlement/settlement.service.ts:252-279 | Has the effect of the settle step, which CallEffects.SettlementCloses and BetTerms.BetsArePaidAs describe |
| `Services.SettlementService.PersistGradedSettlements` | src/modules/settlement/settlement.service.ts:220-286 | Settles the graded bets in order, with one new batch id per tenant |
| `Services.SettlementService.SettleBatch` | src/modules/settlement/settlement.service.ts:115-137 | Settles the gradable ones of the 50 oldest accepted bets and then flushes one batch per tenant |
| `Services.SettleBatchIsRun` | src/modules/settlement/settlement.service.ts:115-137 | A settlement batch with its flushes is a run of settle and flush steps |
| `Services.OldestAcceptedAreOldest` | src/modules/settlement/settlement.service.ts:116-121 | A settlement batch looks at at most 50 bets, and leaves out an accepted bet only when 50 older ones are taken |
| `Services.SettleAllSettles` | src/modules/settlement/settlement.service.ts:220-286 | After the loop each graded bet has its results, result, payout and one row under its tenant's batch id; every other bet is unchanged |
| `Services.SettleBatchCloses` | src/modules/settlement/settlement.service.ts:115-137 | A settlement batch decides exactly the gradable bets among the 50 oldest accepted ones, each by the aggregate of its leg results |
| `CallEffects.SettleBatchPays` | src/modules/settlement/settlement.service.ts:115-137 | A settlement batch closes a bet if and only if it is among the 50 oldest accepted ones and all its legs have a grade; each leg keeps its own grade, the bet is won, lost or void and paid as these say, and nothing else of it changes |
| `CallEffects.SettleBatchFlushes` | src/modules/settlement/settlement.service.ts:215-218 | Once it has settled a bet the batch flushes the oldest due batch of every tenant, new rows included |
| `CallEffects.SettlementCloses` | src/modules/settlement/settlement.service.ts:252-279 | Settling a gradable bet adds one row of the given batch, due at once, that pays what the bet's new status says, and changes no other bet or row |
| `Services.Database.CloseBet` | src/modules/backoffice/bets/staff-bets.service.ts:200-228 | The closing transaction: leg by leg outcomes, then status and payout, then the outbox row |
| `Services.StaffBetsService.VoidBet` | src/modules/backoffice/bets/staff-bets.service.ts:169-228 | Has exactly the effect of the staff-void step and reports whether it acted: on an accepted bet of the tenant, with a reason that is not a bare catch-all |
| `CallEffects.StaffVoidCloses` | src/modules/backoffice/bets/staff-bets.service.ts:169-228 | A staff void acts exactly on an accepted bet of the tenant with an accepted reason: every leg void, the stake to pay back by a row due at once; otherwise nothing happens |
| `Services.StaffSettlementService.RetryWalletSettlementTransmission` | src/modules/backoffice/settlement/staff-settlement.service.ts:168-228 | Counts pending rows before and after, clears the backoff and runs the flush loop; with nothing pending it does nothing |
| `Services.StaffRetryIsRun` | src/modules/backoffice/settlement/staff-settlement.service.ts:168-228 | A staff retry is one clearing of the backoff and a run of flush steps |
| `DebitRace.AtMostOneDebit` | src/modules/wallet/wallet-outbox.service.ts:138-190 | However debit attempts interleave between their read, wallet call and write, the debit is posted at most once, and exactly once if the bet is accepted |
| `DebitRace.RejectionIsSafeExactly` | src/modules/wallet/wallet-outbox.service.ts:146-198 | For one debit and any class of other postings: in every interleaving of attempts a rejected bet is undebited if and only if no sequence of those postings makes a refused stake affordable again |
| `DebitRace.OnlyCreditsEndanger` | src/modules/wallet/wallet-outbox.service.ts:146-198 | For every wallet and every bet of a user that holds if and only if none of the other postings credits the user |
| `DebitRace.OverlapRejectsADebitedBet` | src/modules/wallet/wallet-outbox.service.ts:192-198 | The failing interleaving in the concrete: refused, credited elsewhere, debited by the second attempt, then rejected by the first |
| `ClosingRace.ClosesOnceExactly` | src/modules/settlement/settlement.service.ts:252-279 | An accepted bet gets at most one of settlement and staff-void row, in every interleaving of any number of settlements, staff voids, late debit acceptances and catalogue edits, if and only if closing writes re-read the status or closings exclude each other, and no acceptance is late or acceptance writes re-read the status; the code does none of this |
| `ClosingRace.GapClosesTwice` | src/modules/backoffice/bets/staff-bets.service.ts:175-228 | Wherever that condition fails, once the bet can be graded, some interleaving leaves both rows, and delivering them credits the user with payout and stake |
| `MerchantDebits.RejectionIsSafeExactly` | src/modules/wallet/wallet.client.ts:204-234 | Over every play of any number of bets and debit attempts against a merchant that applies a debit or not, whatever it answers: rejected means undebited if and only if every answer to an applied debit, at the first attempt or a later one, is a success, a duplicate hint, or a bare status other than 400, 402 and 409 |
| `MerchantDebits.FirstAttemptMisread` | src/modules/wallet/wallet.client.ts:84-141 | Any other answer rejects a bet whose stake was taken, already at its first attempt |
| `WalletReply.AnswersMean` | src/modules/wallet/wallet.client.ts:84-234 | A transaction or batch is done if and only if the answer carries a success, or an error that mentions a duplicate in whatever case; a transaction is refused for funds if and only if a body rejects a negative amount or a bare 400, 402 or 409 comes; a batch never is; the breaker counts only an accepting 2xx answer |
| `WalletReply.RefusalsTripTheBreaker` | src/modules/wallet/wallet.client.ts:90-106 | A threshold of ordinary insufficient-funds answers in a row makes the breaker refuse every call within the cooldown |
| `WalletReply.WalletClient.PostTransaction` | src/modules/wallet/wallet.client.ts:84-141 | Reads the answer of an admitted call, counts it for the breaker, and is unavailable when the breaker refuses |
| `WalletReply.WalletClient.PostTransactionBatch` | src/modules/wallet/wallet.client.ts:143-202 | An empty batch is not sent; otherwise the answer is read as WalletReply.AnswersMean says and counted for the breaker, and never as a refusal for funds |
| `CircuitBreaker.OpenMeansFailures` | src/shared/resilience/circuit-breaker.ts:45-59 | In every interleaving of starts and ends of calls an open or half-open circuit has counted at least the threshold of failures |
| `CircuitBreaker.BreakerIsItsHistory` | src/shared/resilience/circuit-breaker.ts:27-59 | For calls one after another a call is refused exactly when the trailing failures of the calls that ran reach the threshold and the last failure is less than the cooldown ago |
| `CircuitBreaker.Breaker.Execute` | src/shared/resilience/circuit-breaker.ts:27-43 | One call on the mutable breaker is refused exactly as the history says |
| `Grading.GradingIgnoresCatalogueEdits` | src/modules/settlement/settlement.service.ts:316-389 | For legs with a snapshot two catalogues that agree on event status, scores and market status give the same leg results |
| `Grading.SnapshotMatchesLiveRules` | src/modules/bets/bet-leg-snapshot.ts:16-85 | While names, type and line are unchanged, a frozen leg and an unfrozen one load the same grading context |
| `Grading.UnfrozenLegsFollowRenames` | src/modules/settlement/settlement.service.ts:370-389 | A leg without a snapshot does follow a rename: a concrete win that becomes a loss |
| `Grading.SnapshotsDecideIndependence` | src/modules/settlement/settlement.service.ts:349-389 | A leg's result is the same under all catalogues that agree on event status, scores and market status if and only if the leg has a snapshot |
| `Grading.GradedOnlyWhenDecided` | src/modules/settlement/settlement.service.ts:172-198 | A leg gets a result only when its event is ended and its market settled or void; void markets void it, any other result has both scores |
| `Grading.AggregateMeaning` | src/modules/settlement/settlement.service.ts:288-296 | A slip is won exactly when every leg is, and void exactly when some leg is |
| `LegGrades.WinnerLeg` | src/modules/settlement/settlement.service.ts:336-389 | From the catalogue's rows: with its event ended h to a and its market settled, a match-result leg on the home name is won iff h > a, on the away name iff a > h, on the draw iff h = a, and any other name loses; by the frozen names, or the live ones without a snapshot |
| `LegGrades.SpreadLeg` | src/modules/settlement/leg-outcome.service.ts:80-104 | A home spread compares h plus the line with a, an away spread a less the line with h; level is void |
| `LegGrades.TotalLeg` | src/modules/settlement/leg-outcome.service.ts:61-78 | Over is won above the line, under below it, level is void |
| `LegGrades.OtherLeg` | src/modules/settlement/leg-outcome.service.ts:106-117 | Yes and no by whether both sides score; double chance is never graded |
| `LegGrades.QuotedLegIsFrozen` | src/modules/bets/bet-leg-snapshot.ts:16-85 | Under every later catalogue a quoted leg is graded by the type and line of its market and the home and away team rows of its fixture as they were at placement, and by nothing else |
| `LegGrades.SettlingStoresGrades` | src/modules/settlement/settlement.service.ts:252-263 | Settling closes a bet if and only if every leg has a grade, and stores each leg's own grade |
| `SpreadLabels.SpreadMatchesLabel` | src/modules/settlement/leg-outcome.service.ts:80-104 | A spread outcome is graded as its own label says, for all scores, if and only if it is the home side with the market line, or the away side with the opposite line and a label free of the home name (up to lines no margin tells apart) |
| `SpreadLabels.HomeFirstMatchesLabels` | src/modules/providers/odds-api/odds-api.mapper.ts:97-113 | A two-way spread market with the home outcome first, opposite points and an away label free of the home name grades both outcomes as labelled |
| `SpreadLabels.AwayFirstContradictsLabel` | src/modules/providers/odds-api/odds-api.mapper.ts:108-113 | With the away outcome first a losing home spread is graded as won: a concrete market and score |
| `SpreadLabels.TotalMatchesLabel` | src/modules/settlement/leg-outcome.service.ts:61-78 | A total is graded as labelled, for all scores, if and only if the market line is the outcome's own point up to a goal margin, or both are negative |
| `SpreadLabels.MatchResultNamesTheWinner` | src/modules/settlement/leg-outcome.service.ts:41-59 | Home, away and draw outcomes are won exactly on a home win, an away win and level scores |
| `SpreadLabels.BothTeamsScoreSides` | src/modules/settlement/leg-outcome.service.ts:106-117 | Yes is won exactly when both sides score and No exactly when not |
| `SpreadLabels.SidesAreOpposite` | src/modules/settlement/leg-outcome.service.ts:61-104 | Both sides of a spread or total get opposite results, both void, or both none, for every line, market status and score |
| `SpreadLabels.BothSidesNeverWin` | src/modules/settlement/settlement.service.ts:288-296 | A slip quoted with both sides of one market is never graded as won, under any later catalogue, whatever became of scores, statuses and names |
| `BetMath.CapGuardsExactness` | src/shared/decimal/bet-math.ts:12-18 | A payout cap makes every quote that passes it the exact floor of stake times odds if and only if it is at most 10^15, and the same for odds of at least 1 alone |
| `BetMath.CombinedOddsError` | src/shared/decimal/bet-math.ts:4-10 | Combined odds of n legs are within half a thousandth plus n−1 roundings of relative size 5·10^-20 of the exact product, above and below |
| `BetMath.CombinedOddsAtLeastEachLeg` | src/shared/decimal/bet-math.ts:4-10 | If every price is at least 1, combined odds are at least every leg's price, in spite of rounding |
| `BetMath.Round20Near` | src/shared/decimal/bet-math.ts:5-8 | One 20-digit rounding moves a value by at most one part in 2·10^19 and values below 10^20 not at all |
| `BetMath.RoundHalfUpNear` | src/shared/decimal/bet-math.ts:4-10 | The rounding used throughout gives the nearest multiple of the unit, ties upwards |
| `BetValidation.ValidatePlacement` | src/modules/bets/bet-validation.service.ts:44-181 | The leg loop with its early refusals computes the quote, or the first refusal in order |
| `BetValidation.QuotedExactly` | src/modules/bets/bet-validation.service.ts:48-173 | A slip is quoted if and only if its selections are distinct, offered and open, its stake is within bounds and its payout within the cap |
| `BetValidation.RefusedExactly` | src/modules/bets/bet-validation.service.ts:48-173 | Which refusal a slip gets: repeated selections first, then the stake, an unknown selection, the first selection that may not be bet on with its own reason, and last the payout |
| `BetValidation.QuoteIsSound` | src/modules/bets/bet-validation.service.ts:143-180 | Quoted legs carry the current price, market and event with frozen rules; under a cap of at most 10^15 the payout is the exact floor; odds are at least every price |
| `OddsLabels.LabelMeans` | src/modules/providers/odds-api/odds-api.mapper.ts:97-106 | A label is the outcome's name and its point, which can be read back from the text, with a plus sign exactly when it is positive and the outcome neither over nor under |
| `OddsLabels.LabelsTellPointsApart` | src/modules/providers/odds-api/odds-api.mapper.ts:97-106 | Outcomes of one name with different points have different labels |
| `OddsMapper.MapOddsApiToSnapshot` | src/modules/providers/odds-api/odds-api.mapper.ts:136-316 | The nested loops build the snapshot of the folds, which is closed, has unique references and agreeing statuses; FeedRows reads its rows off the provider's fields |
| `OddsMapper.MapMarkets` | src/modules/providers/odds-api/odds-api.mapper.ts:225-259 | The market and outcome loops of one bookmaker compute their fold |
| `OddsMapper.MapSport` | src/modules/providers/odds-api/odds-api.mapper.ts:156-305 | One sport's event loop and score loop compute their folds |
| `OddsMapper.MappedIsClosed` | src/modules/providers/odds-api/odds-api.mapper.ts:136-316 | Every parent of a mapped row is in the snapshot, references are unique, and a market is settled exactly when its event is ended, for every feed and every slug function |
| `OddsMapper.EveryMatchIsMapped` | src/modules/providers/odds-api/odds-api.mapper.ts:175-304 | Every match in a requested sport's odds or scores is an event of the snapshot; one with odds is ended exactly when the indexed scores report it completed |
| `FeedProvenance.SnapshotIsLastWrites` | src/modules/providers/odds-api/odds-api.mapper.ts:136-316 | For every feed a reference has a row in the snapshot exactly when some match, market or outcome of the feed wrote it, and the row is what the last of them wrote |
| `FeedProvenance.MatchIsMapped` | src/modules/providers/odds-api/odds-api.mapper.ts:175-218 | In the snapshot the fixture and event of the last match with an id have its league, kick-off, team keys on their own sides, for each side the score of the first entry under its name, and are ended or live as reported |
| `FeedProvenance.MatchNamesItsTeams` | src/modules/providers/odds-api/odds-api.mapper.ts:180-189 | In the snapshot that fixture names its own two teams if and only if the last match of the feed to use either team key uses it for the same name |
| `FeedProvenance.SharedSlugRenames` | src/modules/providers/odds-api/odds-api.mapper.ts:180-189 | A concrete feed of two matches whose home teams share a slug: the first fixture ends up naming the other match's team |
| `FeedProvenance.OddsAreMatches` | src/modules/providers/odds-api/odds-api.mapper.ts:175-198 | Every match with odds in a requested sport is among those matches, with its own teams and the indexed scores |
| `FeedProvenance.OutcomesAreListed` | src/modules/providers/odds-api/odds-api.mapper.ts:225-259 | Every outcome of a supported market of the picked bookmaker is in the snapshot under its market, with its own label and price, unless another outcome of the feed shares its reference with a different row |
| `FeedRows.OddsMatchRows` | src/modules/providers/odds-api/odds-api.mapper.ts:175-218 | A match whose id no other odds share is in the snapshot with its league, kick-off, home and away team, ended exactly when the last report on it says completed, otherwise live from kick-off, and with the score entry of each side's own name; without a report it has no scores |
| `FeedRows.ScoreMatchRows` | src/modules/providers/odds-api/odds-api.mapper.ts:263-304 | So is a match that only one report mentions |
| `FeedRows.MarketInSnapshot` | src/modules/providers/odds-api/odds-api.mapper.ts:220-243 | A supported market of a match's first bookmaker is there as h2h, spread or total, with the point of its first pointed outcome as line, settled exactly when the match is reported completed, unless a different row shares its reference |
| `FeedRows.OutcomeInSnapshot` | src/modules/providers/odds-api/odds-api.mapper.ts:244-258 | So is each of its outcomes, under it, with its own label and price |
| `FeedRows.LeagueInSnapshot` | src/modules/providers/odds-api/odds-api.config.ts:148-178 | Every requested sport is a league under its group, which is a configured group, the slug of the listed group or the first part of the key, with its listed title; the sport is named after the first requested sport of the group |
| `Ingestion.IngestionService.UpsertCatalogFromSnapshot` | src/modules/ingestion/ingestion.service.ts:324-378 | The three upsert loops compute their folds; rows with an unknown sport are skipped |
| `Ingestion.IngestionService.UpsertFixturesFromSnapshot` | src/modules/ingestion/ingestion.service.ts:380-419 | Upserts the fixtures whose league and teams are known and counts them |
| `Ingestion.IngestionService.IngestLiveData` | src/modules/ingestion/ingestion.service.ts:561-719 | The event, market and selection loops with market closing, odds history and the four counters |
| `Ingestion.RoundsHalfUp` | prisma/schema.prisma:247-261 | A stored price is the nearest multiple of a thousandth, ties upwards |
| `IngestedRows.FullIngestStores` | src/modules/ingestion/ingestion.service.ts:324-719 | A full ingest of a closed snapshot stores every row of it as received, prices to the nearest thousandth, and leaves every other row alone but for settling markets and selections of ended events |
| `IngestedRows.MappedFeedIsStored` | src/modules/ingestion/ingestion.service.ts:120-129 | So it is for whatever the mapper builds |
| `IngestionTheorems.ClosedSnapshotIsNotSkipped` | src/modules/ingestion/ingestion.service.ts:339-401 | The full ingest of a closed snapshot into any catalogue takes no skip branch: every count is the list's length |
| `IngestionTheorems.MappedFeedIsIngested` | src/modules/ingestion/ingestion.service.ts:120-129 | Whatever the feed, what the mapper builds is ingested without a skip and leaves no open market of a reported-ended event |
| `IngestionTheorems.EndedEventsAreSettled` | src/modules/ingestion/ingestion.service.ts:614-616 | After the ingest of a snapshot whose market and event statuses agree, every market of a reported-ended event is settled, also one the snapshot does not mention |
| `IngestionTheorems.IngestKeepsHistory` | src/modules/ingestion/ingestion.service.ts:659-711 | With unique references one ingest always keeps the last history entry equal to the price, and keeps neighbouring entries distinct if and only if no price merely rounds to the stored one |
| `IngestionTheorems.IngestsKeepHistory` | src/modules/ingestion/ingestion.service.ts:659-711 | Over any sequence of ingests with unique references and prices of at most three decimals the history agrees with the prices |
| `IngestionTheorems.FullIngestsKeepHistory` | src/modules/ingestion/ingestion.service.ts:120-129 | The same over any sequence of full ingests |
| `IngestionTheorems.ReingestIsStable` | src/modules/ingestion/ingestion.service.ts:115-119 | With unique references and markets that keep their event, a second ingest changes no event, market or selection; it adds one history entry for each selection whose price the column rounds, and reports exactly that number |
| `IngestionTheorems.ReingestIsNoOp` | src/modules/ingestion/ingestion.service.ts:676-678 | So it is a no-op if and only if every price that is not skipped has at most three decimals |
| `IngestionTheorems.RoundedPriceGrowsHistory` | src/modules/ingestion/ingestion.service.ts:676-711 | A snapshot with the one price 1.9095: the second ingest records 1.910 again |
| `IngestionTheorems.FullReingestIsNoOp` | src/modules/ingestion/ingestion.service.ts:120-129 | The same for the full ingest, catalogue and fixtures included |
| `IngestionTheorems.CatalogAgain` | src/modules/ingestion/ingestion.service.ts:324-415 | The catalogue and fixture loops run again over the tables they left change nothing |
| `CataloguePurge.CatalogueStore.DeleteFixturesAndBetHistory` | src/modules/ingestion/ingestion.service.ts:495-559 | All branches of the purge have the effect of one specification, and count what they remove |
| `CataloguePurge.PurgeIsSafe` | src/modules/ingestion/ingestion.service.ts:461-482 | A purge removes no pending or accepted bet, no row of a kept bet and no fixture an active bet touches, accumulators included; a bet goes exactly when some leg is on a purged fixture |
| `CataloguePurge.PurgeRemovesExactly` | src/modules/ingestion/ingestion.service.ts:495-559 | A purge removes exactly the wanted fixtures no active bet has a leg on, their events, markets, selections and history, the bets with a leg on them, and those bets' rows |
| `CataloguePurge.PurgeKeepsRows` | src/modules/ingestion/ingestion.service.ts:495-559 | What it keeps it keeps unchanged |
| `CataloguePurge.PurgeKeepsLinks` | src/modules/ingestion/ingestion.service.ts:517-558 | After a purge no leg, selection, market, event or row points at something missing |
| `CataloguePurge.SecondPurgeIsNoOp` | src/modules/ingestion/ingestion.service.ts:509-515 | A second run of the same purge changes nothing |
| `RateLimiter.GroupRateLimiter.TryConsume` | src/modules/realtime/group-rate-limiter.ts:16-28 | Grants or refuses by the key's current bucket and changes no other key's |
| `RateLimiter.WindowBound` | src/modules/realtime/group-rate-limiter.ts:16-28 | With a monotone clock a key gets at most the maximum per bucket and at most 2·max − 1 grants in any interval as long as the window |
| `RateLimiter.RefusedWhenFull` | src/modules/realtime/group-rate-limiter.ts:16-28 | A request is refused only when the key already has its maximum of grants within the last window |
| `RateLimiter.BoundIsReached` | src/modules/realtime/group-rate-limiter.ts:18-22 | The bound is attained by a concrete run |
| `RateLimiter.KeysAreIndependent` | src/modules/realtime/group-rate-limiter.ts:18-22 | Requests of other keys change neither a key's bucket nor its grants |
| `Rollups.DailyGgrBySport` | src/modules/backoffice/analytics/analytics.service.ts:66-150 | The map-accumulation loop computes the rows, and their sum is the direct total over the selected bets |
| `Rollups.DailyConserves` | src/modules/backoffice/analytics/analytics.service.ts:126-150 | The daily rows add up to the direct total |
| `Rollups.DailyRowMeans` | src/modules/backoffice/analytics/analytics.service.ts:66-150 | Each row is its own calendar day and sport of the first leg: the number of closed bets settled then, the stakes of the won and lost ones, and all their payouts |
| `Rollups.DailyMatchesSummary` | src/modules/backoffice/analytics/analytics.service.ts:35-43 | When the window covers all settled bets, the daily gross is the summary's gross less the payouts recorded on lost bets |
| `Rollups.ReportsAgree` | src/modules/backoffice/analytics/analytics.service.ts:35-43 | In every state of the money protocol that difference is zero |
| `Rollups.GetExposure` | src/modules/backoffice/trading/trading.service.ts:83-105 | The nested loops compute totals and per-event rows, whose sum is each open bet's stake and potential payout once per leg |
| `Rollups.ExposureByEvent` | src/modules/backoffice/trading/trading.service.ts:93-104 | Each event's row is its own legs' share of the open bets |
| `Rollups.ExposureConserves` | src/modules/backoffice/trading/trading.service.ts:90-105 | Per-event rows add up to stake and potential payout times number of legs |
| `Rollups.ExposureIsOpenLiability` | src/modules/backoffice/analytics/analytics.service.ts:48-53 | The exposure's totals are the number, stakes and potential payouts of the accepted bets, the stakes being the summary's open liability |

## Left out

- HTTP, authentication, staff roles, sessions, Redis, sockets, metrics, logging and audit writes: input and output.
- Cron and interval wiring, and the order in which the worker runs its three polls: each poll is modelled on its own.
- `settleBetsForEvent` and `trySettleBet` (src/modules/settlement/settlement.service.ts:91-146): a loop over the one-bet settlement modelled in `Services`.
- `finalizeEventResult`, tenant league synchronisation and the mock-provider purge wiring: they add no harder property.
- The clock stands still within one service call, and a slip has 1 to 12 selections, as the request validation demands.
- Services.BetsService.PlaceBet: a wallet call and the database write that follows it are one step with an outcome, and no other call on the same bet falls in between; `DebitRace` and `ClosingRace` cover overlaps, for one bet, apart from each other and from batch flushes.
- BetValidation.ValidatePlacement: selections are checked in the order of the slip; the database returns them in an order it does not promise, which can change which refusal comes first, the leg order and the last digit of rounded odds of long slips.
- BetValidation.ValidatePlacement: a selection whose market, event, fixture or teams are missing counts as not found; foreign keys rule the case out.
- Services.WalletOutboxService.ProcessSingleDebit: the branch that mints a code for a row without one is not modelled; rows are created with a code, in a column that is required and unique.
- Services.WalletOutboxService.ProcessPendingDebits: the returned count of processed rows, and those of the staff-void poll, are not modelled.
- Ledger amounts ignore the column widths (12 and 14 digits): a stake or payout too wide for its column would be a database error.
- Wallet.WalletStubClient.PostTransaction: the opening balance is a whole number of cents plus a fraction below, at or above half a cent, which no posting touches; an opening balance that is no number is not modelled.
- Transaction details, history ids, game codes and currencies other than the stub's: no bearing on the amounts.
- Letter case and trimming are those of ASCII; Unicode folding and normalisation are not modelled, and `slugify` is an arbitrary function.
- SpreadLabels.SpreadMatchesLabel: points have at most two decimals, as the line column does.
- Scores are integers; `Number(null)` for a missing line is modelled as a zero line, as the code has it.
- Grading.GradingIgnoresCatalogueEdits: claims nothing about legs written before the snapshot columns existed; `SnapshotsDecideIndependence` shows why.
- No claim is made that ended events stay ended, that staff suspensions survive an ingest or that void markets stay void: ingestion overwrites all three.
- No claim is made that every gradable bet is settled in the end: only the 50 oldest accepted bets are looked at.
- SettlementQueue.FlushesDrain: speaks of flushes whose outcome is recorded; a flush whose retry cannot be written leaves its batch due, and at the head of the queue.
- Services.SettlementService.PersistGradedSettlements: a process that dies between two bets has settled a prefix of them, which is again a run of settle steps.
- No claim is made that a batch id always carries the same rows: each row gets its own retry time.
- Ingestion.IngestionService.UpsertFixturesFromSnapshot: deleting stale mock fixtures after the loop is modelled on its own in `CataloguePurge`.
- OddsMapper.MapOddsApiToSnapshot: commence times and scores arrive parsed; an unparsable time is not modelled, and the clock does not move within one call.
- CataloguePurge.CatalogueStore.DeleteFixturesAndBetHistory: is kept apart from the ledger machine, since it deletes outbox rows of settled bets.
- MerchantDebits.RejectionIsSafeExactly: bets are created without the slip validation, since only their stakes matter there, and a merchant applies a code at most once.
- WalletReply.WalletClient.PostTransaction: one call at a time; a tenant without wallet configuration is not modelled.
- Rollups.DailyGgrBySport: the order of the rows and the sport's display name are not modelled; dates are day numbers.
