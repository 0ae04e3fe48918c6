# Back-end verification

A Dafny model of the money and messaging core of the lending back end, with proofs of what it keeps over
all inputs and all runs. Each database transaction is one atomic step on a modelled store with the
schema's unique keys; a throw inside a transaction leaves the store unchanged. The pieces:

- **Tenant ledger** (`LedgerModel`, `TenantLedger`, `LedgerProperties`, `LedgerReversals`, `LedgerJournals`,
  `LedgerEntries`, `LedgerRaces`, `LedgerGuard`): postings, reversals, journals and balances. Decimals are exact
  reals, minor units are ints, and the amount column keeps two decimals.
- **Reconciliation and loan balances** (`LedgerReconcile`, `ReconcileReports`, `LoanBalance`): the accounting equation over
  grouped lines, and the outstanding amounts of a loan.
- **Treasury** (`Treasury`, `TreasuryProperties`, `TreasuryPools`, `TreasuryExamples`): capital allocations that must
  agree with four accounts of the ledger.
- **Job queue** (`Backoff`, `JobQueue`, `JobQueueProperties`, `JobQueueRetries`): a queue shared by any number of workers.
- **HTTP idempotency** (`CanonicalJson`, `CanonicalJsonProperties`, `Idempotency`, `IdempotencyProtocol`,
  `IdempotencyReplay`, `IdempotencyOnce`, `IdempotencyRequests`): a canonical printer with a parser for it, the record
  table, and any number of clients interleaving.
- **Audit chain** (`AuditChain`, `AuditChainProperties`, `AuditDeletions`): hash chains per tenant and day.
- **Outbox** (`Outbox`, `OutboxProtocol`, `OutboxDispatch`, `OutboxAccounting`, `ReadModelOrder`,
  `OutboxOrder`): dispatchers, stream, consumer and read model.
- **Offers and risk** (`OfferCalculator`, `RiskScore`, `RiskScoreProperties`).
- `Sums`, `Reals`, `Rounding`, `Text` and `Wrappers` are shared.

Services that update rows are classes whose methods are proved equal to a function of the old state; the
run-level results are lemmas about those functions. `dafny verify dfyconfig.toml` checks everything.

## What the proofs found

- The amount column has two decimals (apps/api/prisma/schema.prisma:1690), so an entry posted in fractions
  of a kobo may be stored out of balance and then cannot be reversed. A reversal goes through exactly when
  the stored lines balance in kobo and none was rounded to zero; entries in whole kobo always can be
  (`ReversalSucceedsExactlyWhenReversible`, `FractionalKoboEntryCannotBeReversed`).
- An ordinary posting may use the key of a reversal; the reversal then cancels nothing
  (`OrdinaryEntryTakesReversalKey`).
- The guard on the immutable tables names four actions and looks at the model of the call only: upserts, writes to
  related rows, renamed accounts and raw statements pass it (`GuardKeepsLedgerExactly`, `GuardedRunsExtendExactly`,
  `UpsertChangesStoredLine`). Nothing in the repository changes entries or lines this way.
- A posting outside of a transaction that stops between its two writes is never completed
  (`InterruptedPostIsNeverCompleted`).
- `createJournal` does not hand its currency on, so lines are stored as NGN whatever the journal says
  (`JournalCurrencyIsKeptOnlyIfDefault`, `DollarJournalIsStoredAsNaira`).
- `resolveFundingPoolForLoan` loops over candidates, but a guard that rejects throws out of the loop: only
  the head candidate is ever tried (`OnlyHeadCandidateIsTried`, `AcceptablePoolIsNotTried`).
- Pool summaries clamp at zero, so an over-repaid pool hides a debt of the ledger
  (`PoolSummariesAddUpToLedger`, `OverRepaidPoolDoesNotAddUp`).
- Reusing a capital movement's idempotency key changes the allocation but not the ledger (`DeployMoves`,
  `RepayMoves`, `WriteOffMoves`, and an example of each in `TreasuryExamples`).
- Reversing a capital entry through the ledger leaves its allocation as it was (`LedgerCallMoves`,
  `ReversedDeploymentBreaksAgreement`).
- An allocation can be DEPLOYED with nothing outstanding, by fractions of a kobo only
  (`RepaymentLeavesEmptyDeployed`, `DeployMakesEmptyDeployed`, with examples).
- A worker's name is trimmed when it claims but not when it completes, so an untrimmed name cannot complete
  (`ClaimerCanCompleteIfTrimmed`, `UntrimmedWorkerCannotComplete`).
- A completion is fenced by the worker's name, not by the claim: after a second claim under the same name, and
  runners without WORKER_ID share one, a late completion of the first finishes the second
  (`CompletesOwnClaimOnlyExactly`, `NamesakeFinishesLaterClaim`).
- A handler does its work once, and once more for every completion that is lost, as its client then clears the
  record (`ReturnsOnceAndOncePerLoss`, `LostCompletionsRepeatWork`).
- A finished job stays finished exactly as long as no retry's write and no cancellation names it: of two
  overlapping retries the later one puts it back, and cancelling does not look at the status
  (`FinishedStaysFinishedExactly`, `StaleRetryRevivesFinishedJob`, `FinishedJobIsCancelled`).
- An audit event is lost exactly when its tenant's day goes back to a day that already has events
  (`RefusedExactlyWhenDayReopens`, `ReopenedDayLosesEvent`).
- Each day's audit chain starts anew and a tenant has one state row, so the ends of all other chains can be deleted
  unseen (`DeletionIsUnseenExactly`, `DeletedDayIsUnseen`).
- The attempt counter of an outbox row bounds neither the copies that are sent nor, exactly, itself
  (`SendsAreAccountedFor`, `CrashesSendWithoutBound`, `CountedTwicePassesLimit`).
- The read model shows the status that is committed last, which is the one that occurred last exactly if
  nothing that occurred later was committed before (`RowShowsLatestExactlyIfNotOvertaken`, `OlderEventWins`). It always is with one dispatcher,
  no failures, and inserts and commits in order; two dispatchers are enough to break it (`CalmRunsCommitInOrder`,
  `TwoDispatchersReorder`).
- The backoff can shrink only between attempt counts below one (`NeverShrinksExactlyFromFirstAttempt`).
- A weekly or monthly schedule with a tenor of zero or less still has one installment, due after one chunk
  (`ScheduleCoversTenor`).

## Model

| member | source | states |
|---|---|---|
| LedgerModel.ChartListsEveryCodeOnce | apps/api/src/common/ledger/ledger.accounts.ts:16-169 | the default chart holds every account code once, so a posting always finds its account |
| LedgerModel.ChartPairsTypeWithNormalBalance | apps/api/src/common/ledger/ledger.accounts.ts:16-169 | asset and expense accounts are debit-normal, all others credit-normal: what the accounting equation needs of the chart |
| TenantLedger.TenantLedgerService.AssertLines | apps/api/src/common/ledger/tenant-ledger.service.ts:202-240 | the one-pass check of a posting's lines: the first amount that is not positive is refused by name, and otherwise the exact decimal sides must be equal |
| TenantLedger.TenantLedgerService.PostEntry | apps/api/src/common/ledger/tenant-ledger.service.ts:181-298 | the whole new ledger and answer of one posting; what they mean is in the rows of `LedgerEntries` and `LedgerProperties` |
| TenantLedger.TenantLedgerService.ReverseEntry | apps/api/src/common/ledger/tenant-ledger.service.ts:336-400 | the whole new ledger and answer of one reversal, built from the stored lines |
| TenantLedger.TenantLedgerService.CreateJournal | apps/api/src/common/ledger/tenant-ledger.service.ts:140-179 | the whole new ledger and answer of one journal, with its own currency and balance checks before posting |
| TenantLedger.TenantLedgerService.ListAccountsWithBalances | apps/api/src/common/ledger/tenant-ledger.service.ts:402-458 | one row per account in the order of the codes, with the exact debit and credit totals up to a date and the balance on its normal side |
| TenantLedger.TenantLedgerService.AddUp | apps/api/src/common/ledger/tenant-ledger.service.ts:431-457 | the totals map built line by line holds, for every code, the sums of its debit and credit lines |
| LedgerEntries.RefusedExactlyIf | apps/api/src/common/ledger/tenant-ledger.service.ts:62-240 | every refusal of a posting, in the order they are given: blank key, no lines, a role that may not post the type, an amount that is not positive, exact sides that differ; who may post what is written out |
| LedgerEntries.EveryEntryHasItsCommand | apps/api/src/common/ledger/tenant-ledger.service.ts:257-292 | over every run each stored entry was added by a call that may: a posting whose fields and lines, in kobo and currency, it holds, the same without lines if interrupted, or the reversal of an earlier entry with its lines mirrored |
| LedgerEntries.ListedUpToDate | apps/api/src/common/ledger/tenant-ledger.service.ts:424-457 | the account list up to a date counts what the tenant's entries that had occurred by then put on each account, and everything without a date |
| LedgerJournals.JournalRefusedExactlyIf | apps/api/src/common/ledger/tenant-ledger.service.ts:140-158 | a journal is refused for its currencies if and only if it has no lines or two that differ once trimmed and in upper case, and then for a single line; a refusal changes nothing |
| LedgerJournals.JournalStores | apps/api/src/common/ledger/tenant-ledger.service.ts:160-178 | a journal that goes through is stored as an adjustment with its own fields, line by line, in naira, by a role that may post one |
| LedgerProperties.LedgerIsAppendOnly | apps/api/src/common/ledger/tenant-ledger.service.ts:181-400 | over every run of postings, interrupted ones included, and reversals the ledger only grows at its end |
| LedgerGuard.GuardKeepsLedgerExactly | apps/api/src/common/database/prisma.service.ts:6-17 | a call to the database client leaves every stored entry and line in place, whatever it writes, if and only if it is none that the guard misses: an upsert of entries or lines, a create of one that also writes stored rows, a call on an account that writes its stored lines or gives it another code or tenant, or a raw statement |
| LedgerGuard.GuardedRunsExtendExactly | apps/api/src/common/database/prisma.service.ts:6-17 | the same of runs: whatever is written, no stored entry or line is changed or gone at the end, if and only if the guard misses none of the calls |
| LedgerGuard.GuardedLedgerIsAppendOnly | apps/api/src/common/database/prisma.service.ts:6-17 | over every run without such calls, nothing stored at any moment is changed or gone later; direct creates may add entries and lines |
| LedgerGuard.MissedCallChangesEntry | apps/api/src/common/database/prisma.service.ts:8-11 | every call the guard misses has something it can do to a stored entry: move its date, or put a line on another account |
| LedgerGuard.UpsertChangesStoredLine | apps/api/src/common/database/prisma-tenant.middleware.ts:49-49 | an upsert of a line passes the guard and changes the stored line, where the same update is refused |
| LedgerGuard.AuditEventsAreGuarded | apps/api/src/common/database/prisma.service.ts:6-17 | an audit event is kept from updates and deletes by the same guard, and not from upserts |
| LedgerGuard.UndisturbedLedgerIsServices | apps/api/src/common/database/prisma.service.ts:6-17 | if every other call is refused or cannot add, the ledger is exactly what the service's own calls made it |
| LedgerRaces.RacingPostIsAtomic | apps/api/src/common/ledger/tenant-ledger.service.ts:242-276 | whatever is committed between its lookup and its insert, a posting leaves the ledger an atomic one at the insert would, with the same answer if and only if it did not lose its key meanwhile; then it fails on the unique key |
| LedgerRaces.RacingReversalIsAtomic | apps/api/src/common/ledger/tenant-ledger.service.ts:346-399 | the same of a reversal, whose reads of the entry, of its key and of the posting's key may all see different states |
| LedgerRaces.RacingPostExtendsRun | apps/api/src/common/ledger/tenant-ledger.service.ts:242-276 | so a posting that looked at any moment of any run extends the run by an atomic posting |
| LedgerRaces.RacingReversalExtendsRun | apps/api/src/common/ledger/tenant-ledger.service.ts:346-399 | and a reversal that read its entry, at any moments of any run, by an atomic reversal |
| LedgerProperties.PostingKeepsFirstValidPerKey | apps/api/src/common/ledger/tenant-ledger.service.ts:185-297 | after any sequence of postings the ledger is exactly the one built from the first valid posting of each (tenant, key) |
| LedgerProperties.ReplayReturnsFirstId | apps/api/src/common/ledger/tenant-ledger.service.ts:242-255 | a valid replay returns the id of the first valid posting of its key, whatever was posted in between, and changes nothing |
| LedgerProperties.RoundingErrorBound | apps/api/src/common/ledger/tenant-ledger.service.ts:95-97 | rounding each line by itself moves an entry's kobo balance from its exact balance by at most half a kobo a line |
| LedgerProperties.ReachableLedgerOk | apps/api/src/common/ledger/tenant-ledger.service.ts:181-298 | in every reachable ledger, interrupted postings included, ids and (tenant, key) pairs are unique and every entry is within half a kobo a line of balance |
| LedgerReversals.ReversalSucceedsExactlyWhenReversible | apps/api/src/common/ledger/tenant-ledger.service.ts:336-400 | a permitted reversal of a stored entry goes through if and only if no entry holds its key, there are stored lines, they balance in kobo with none rounded to zero, and the id is free; a holder of the key is the answer whatever it is; otherwise it is refused; the ledger changes only if it goes through |
| LedgerReversals.OrdinaryEntryTakesReversalKey | apps/api/src/common/ledger/tenant-ledger.service.ts:360-367 | any ordinary posting under a reversal's key makes the reversal answer with that posting and cancel nothing |
| LedgerReversals.WholeKoboEntriesAreRepostable | apps/api/src/common/ledger/tenant-ledger.service.ts:336-400 | every entry posted in whole kobo can be reversed |
| LedgerReversals.FractionalKoboEntryCannotBeReversed | apps/api/prisma/schema.prisma:1690 | a concrete valid posting (0.005 and 0.005 against 0.01) whose reversal is refused, because the amount column keeps two decimals |
| LedgerReversals.SwappedSides | apps/api/src/common/ledger/tenant-ledger.service.ts:358-399 | with exact decimals swapping the directions keeps all posting checks, so the refusal comes from the column's rounding alone |
| LedgerReversals.ReversalUndoesEntry | apps/api/src/common/ledger/tenant-ledger.service.ts:336-400 | a permitted reversal takes the entry's effect, rounding included, off every account if and only if it goes through or there is no effect; then reversing again changes nothing and returns the same id |
| LedgerReversals.ReversingTheReversalRestores | apps/api/src/common/ledger/tenant-ledger.service.ts:336-400 | the second reversal goes through if and only if its key and id are free, and then every balance is back where it was before both |
| LedgerJournals.JournalAcceptsWhatPostAccepts | apps/api/src/common/ledger/tenant-ledger.service.ts:140-179 | with one currency throughout, a journal is accepted exactly when the posting it becomes is, with the same ledger after it |
| LedgerJournals.JournalCurrencyIsKeptOnlyIfDefault | apps/api/src/common/ledger/tenant-ledger.service.ts:140-179 | a journal's stored lines keep its trimmed and upper-cased currency if and only if that currency is NGN: the code does not hand it on |
| LedgerJournals.DollarJournalIsStoredAsNaira | apps/api/src/common/ledger/tenant-ledger.service.ts:140-179 | every balanced two-line journal in dollars is accepted and stored as naira |
| LedgerReversals.InterruptedPostIsNeverCompleted | apps/api/src/common/ledger/tenant-ledger.service.ts:267-292 | a posting outside of a transaction that stops between its two writes leaves an entry without lines that replays never complete and that cannot be reversed |
| LedgerReconcile.ComputeTotals | apps/api/src/common/finance/ledger-reconcile.job.ts:89-138 | the loop over group rows yields, per account type, the sum of the rows signed by direction against normal balance |
| LedgerReconcile.RunOnce | apps/api/src/common/finance/ledger-reconcile.job.ts:53-87 | the whole list of reports of one night; which they are is `ReconcileReports.ReportsAreTheMismatches` |
| ReconcileReports.ReportsAreTheMismatches | apps/api/src/common/finance/ledger-reconcile.job.ts:53-87 | the reports are those of the tenants whose query succeeds and whose lines are out of balance, all of them, once for each place in the list, in its order, each with its debits minus credits; a failing tenant does not stop the run |
| ReconcileReports.ReportedExactlyIfOutOfBalance | apps/api/src/common/finance/ledger-reconcile.job.ts:57-72 | a tenant is reported with a delta if and only if it is listed, its query succeeds, and the delta is total debits minus total credits of its lines and is not zero |
| ReconcileReports.CreditsBeyondDebitsAreReported | apps/api/src/common/finance/ledger-reconcile.job.ts:58-59 | 1.00 against 0.505 and 0.495 is stored as 100 against 101 kobo and reported with -1 |
| ReconcileReports.AccountListMakesTotals | apps/api/src/common/finance/ledger-reconcile.job.ts:107-135 | the job's total of each account type is the sum of the account list's balances of that type, each on its normal side |
| LedgerReconcile.DeltaIsDebitsMinusCredits | apps/api/src/common/finance/ledger-reconcile.job.ts:57-58 | for any order of the grouped rows the delta of the accounting equation is total debits minus total credits of the lines |
| LedgerReconcile.TrialBalanceAddsUp | apps/api/src/common/ledger/tenant-ledger.service.ts:402-458 | the debit balances of the account list add up to the delta the job tests |
| LedgerReconcile.ReconcileDeltaBound | apps/api/src/common/finance/ledger-reconcile.job.ts:53-138 | for every reachable ledger the delta is at most half the number of the tenant's lines either way, and zero when amounts are whole kobo |
| LedgerReconcile.WholeKoboRunReportsNothing | apps/api/src/common/finance/ledger-reconcile.job.ts:53-87 | after any run in whole kobo the nightly job reports no tenant |
| LoanBalance.GetBalances | apps/api/src/common/ledger/loan-balance.service.ts:16-77 | for any order of the selected rows the balances are what the tenant's entries that refer to the loan put on principal, interest and fees receivable, each not below zero, and their total |
| LoanBalance.SelectedLinesAre | apps/api/src/common/ledger/loan-balance.service.ts:22-44 | the selected lines have, on each of the three accounts written out, the summed effect of the tenant's LoanApplication entries for the loan, and are on no other account |
| LoanBalance.PostingMovesLoan | apps/api/src/common/ledger/loan-balance.service.ts:22-54 | a posting for the loan that goes through moves each of these sums by what its lines, rounded to kobo, put on the account |
| LoanBalance.OverpaidOwesNothing | apps/api/src/common/ledger/loan-balance.service.ts:62-74 | nothing is ever owed below zero, and otherwise what is owed is the sum |
| LoanBalance.AccrualIsOwed | apps/api/src/common/ledger/loan-balance.service.ts:62-65 | interest accrued on a loan that is not overpaid is owed in full |
| LoanBalance.OtherCallsAddNoLoanLines | apps/api/src/common/ledger/loan-balance.service.ts:22-44 | a reversal, an interrupted posting, or a posting for something else or without a receivable line selects no new line for the loan |
| LoanBalance.LoanBalancesAreFramed | apps/api/src/common/ledger/loan-balance.service.ts:22-44 | the same over any run of such calls after any other run |
| Treasury.TreasuryService.DeployToLoan | apps/api/src/treasury/treasury.service.ts:177-262 | the whole new books and answer of one deployment: existing allocation, pool choice, unique keys, and rollback if the posting is refused; pool and rows are told by the rows of `TreasuryPools` |
| Treasury.TreasuryService.ApplyPrincipalRepayment | apps/api/src/treasury/treasury.service.ts:264-326 | the whole new books and answer of one principal repayment, with the status decided on the exact difference |
| Treasury.TreasuryService.ApplyWriteOff | apps/api/src/treasury/treasury.service.ts:328-396 | the whole new books and answer of one write-off, capped at what is outstanding |
| Treasury.TreasuryService.ResolveFundingPoolForLoan | apps/api/src/treasury/treasury.service.ts:126-175 | the loop over the sorted candidates with a throwing guard comes to the head's fate: funded, or the guard's error, or no active pool |
| TreasuryPools.FundedFromBestOwnPool | apps/api/src/treasury/treasury.service.ts:133-169 | a loan is funded from an active pool of its own tenant with the most left, the oldest of those, and only if the guard lets it; a guard that throws throws on that pool; there is no active pool exactly if no pool has the tenant's id and is active |
| TreasuryPools.AvailableIsWhatIsLeft | apps/api/src/treasury/treasury.service.ts:398-444 | what a pool has left is its capital less what its tenant's allocations in it have in use and lost, and nothing without capital |
| TreasuryPools.EveryAllocationHasItsPool | apps/api/src/treasury/treasury.service.ts:177-241 | over every run each allocation was made by a deployment of the run, for its tenant and loan, from the pool that was then the best active one of that tenant, and stays with it |
| TreasuryPools.AllocationsAreInOwnPools | apps/api/src/treasury/treasury.service.ts:133-136 | if all deployments read one table of pools, every allocation is in an active pool of its own tenant |
| TreasuryPools.DeploymentLeaves | apps/api/src/treasury/treasury.service.ts:202-241 | the row and the ledger entry a deployment leaves, field by field |
| TreasuryPools.RepaymentLeaves | apps/api/src/treasury/treasury.service.ts:289-325 | the only row that changes with a repayment, its new amount and status, and the entry |
| TreasuryPools.WriteOffLeaves | apps/api/src/treasury/treasury.service.ts:352-395 | the only row that changes with a write-off: the amount or what is outstanding, WRITTEN_OFF, and the entry |
| TreasuryPools.MovementsThatDoNothing | apps/api/src/treasury/treasury.service.ts:264-367 | a movement that does not go through changes neither table, and exactly which repayments and write-offs are skipped |
| TreasuryPools.DeploymentIsNotRepeated | apps/api/src/treasury/treasury.service.ts:186-199 | deploying again to a loan that has an allocation is answered with that one, and changes nothing |
| TreasuryPools.CapitalKeysDiffer | apps/api/src/treasury/treasury.service.ts:215-395 | movements of different kinds never meet under one ledger key |
| TreasuryPools.RepaidAndLossesAddUpToLedger | apps/api/src/treasury/treasury.service.ts:398-444 | over every disciplined run the repaid and lost figures of a tenant's pool summaries add up to the ledger's two accounts |
| TreasuryProperties.SortedHead | apps/api/src/treasury/treasury.service.ts:152-157 | the stable sort puts first the pool that precedes all read before it and that none read after it precedes |
| TreasuryProperties.DeployMoves | apps/api/src/treasury/treasury.service.ts:215-241 | a deployment keeps ledger and allocations in agreement if and only if its ledger key is unused or it moves no kobo |
| TreasuryProperties.RepayMoves | apps/api/src/treasury/treasury.service.ts:289-325 | the same for a principal repayment |
| TreasuryProperties.WriteOffMoves | apps/api/src/treasury/treasury.service.ts:352-395 | the same for a write-off |
| TreasuryProperties.LedgerCallMoves | apps/api/src/common/ledger/tenant-ledger.service.ts:181-400 | any other posting or reversal keeps the agreement if and only if what it adds, if anything, has no effect on any of the four capital accounts |
| TreasuryProperties.LedgerAgreesWithAllocations | apps/api/src/treasury/treasury.service.ts:177-396 | over every run of such steps: DEPLOYED = deployed - released - written off, REPAID = released, LOSSES = written off, AVAILABLE = -deployed, per tenant and in kobo, so the four sum to zero |
| TreasuryProperties.AgreesThroughoutExactlyIfDisciplined | apps/api/src/treasury/treasury.service.ts:177-396 | the agreement holds for every tenant all through a run if and only if every movement that is not refused has an unused key or moves no kobo, and every other ledger call has no effect on the capital accounts |
| TreasuryProperties.PoolSummariesAddUpToLedger | apps/api/src/treasury/treasury.service.ts:398-444 | the deployed figures of all of a tenant's pool summaries add up to the ledger's deployed account if and only if no pool was repaid more than it had deployed |
| TreasuryExamples.OverRepaidPoolDoesNotAddUp | apps/api/src/treasury/treasury.service.ts:416-421 | a repayment of more than is outstanding: the summary shows nothing deployed where the ledger shows a debt |
| TreasuryExamples.ReusedDeployKeyBreaksAgreement | apps/api/src/treasury/treasury.service.ts:202-241 | two deployments under one key: two allocations, one ledger entry |
| TreasuryExamples.ReusedRepaymentKeyBreaksAgreement | apps/api/src/treasury/treasury.service.ts:289-325 | the same repayment twice: twice off the allocation, once in the ledger |
| TreasuryExamples.ReusedWriteOffKeyBreaksAgreement | apps/api/src/treasury/treasury.service.ts:352-395 | the same write-off twice: twice off the allocation, once in the ledger |
| TreasuryExamples.ReversedDeploymentBreaksAgreement | apps/api/src/common/ledger/tenant-ledger.service.ts:336-400 | reversing the ledger entry of a deployment: the allocation stays deployed, the ledger's accounts go back |
| TreasuryExamples.SecondIsNew | apps/api/src/treasury/treasury.service.ts:177-262 | the books after one deployment satisfy what those examples start from |
| TreasuryProperties.PoolSummaryConserves | apps/api/src/treasury/treasury.service.ts:398-444 | available, deployed and lost capital make up the initial capital if and only if the pool is not overdrawn, and then nothing is available |
| TreasuryProperties.OnlyHeadCandidateIsTried | apps/api/src/treasury/treasury.service.ts:152-169 | whatever the guard, the first candidate in order of availability and age decides alone: the loan gets that pool or the guard's error |
| TreasuryProperties.AcceptableIsFundedExactlyAtHead | apps/api/src/treasury/treasury.service.ts:160-169 | a loan gets a pool whenever some candidate is acceptable if and only if the guard accepts the head or no candidate at all |
| TreasuryProperties.AcceptableIsFundedExactlyWithoutChoice | apps/api/src/treasury/treasury.service.ts:160-169 | that holds for every guard if and only if the tenant has no two candidates to choose from |
| TreasuryExamples.AcceptablePoolIsNotTried | apps/api/src/treasury/treasury.service.ts:160-169 | two pools: the guard accepts the poorer one and throws on the richer one, which is tried first |
| TreasuryProperties.AllocationsOnlyGoForward | apps/api/src/treasury/treasury.service.ts:186-213 | over every run: one allocation per loan, released and written-off amounts never decrease, what is written off never passes what was deployed, RELEASED is final |
| TreasuryProperties.WriteOffWithinOutstanding | apps/api/src/treasury/treasury.service.ts:352-367 | a write-off never pushes released plus written off past deployed |
| TreasuryProperties.RepaymentForward | apps/api/src/treasury/treasury.service.ts:289-297 | a repayment releases the allocation if and only if it covers, exactly, what is outstanding |
| TreasuryProperties.RepaymentLeavesEmptyDeployed | apps/api/src/treasury/treasury.service.ts:289-297 | a repayment leaves a DEPLOYED row with nothing outstanding if and only if it is short by a fraction of a kobo that the column rounds away |
| TreasuryExamples.FractionalRepaymentLeavesEmptyDeployed | apps/api/src/treasury/treasury.service.ts:289-297 | 0.996 repaid on 1.00 leaves a DEPLOYED row with nothing outstanding |
| TreasuryProperties.DeployMakesEmptyDeployed | apps/api/src/treasury/treasury.service.ts:215-241 | a deployment makes such a row if and only if the amount is below half a kobo |
| TreasuryExamples.FractionalDeploymentIsEmptyDeployed | apps/api/src/treasury/treasury.service.ts:202-213 | deploying 0.004 makes one |
| TreasuryProperties.DeployedMeansOutstandingInWholeKobo | apps/api/src/treasury/treasury.service.ts:177-396 | with whole-kobo amounts DEPLOYED always means that something is outstanding, over every run |
| TreasuryProperties.CapitalCallsKeepLoanLines | apps/api/src/treasury/treasury.service.ts:223-237 | no capital movement selects a line for any loan's balances, not even its own loan's |
| Backoff.BackoffWithinBounds | apps/api/src/common/jobs/job-queue.service.ts:31-45 | every delay lies between the whole milliseconds of the base and the cap |
| Backoff.BackoffNeverShrinks | apps/api/src/common/jobs/job-queue.service.ts:31-45 | from the first attempt on the delay after the next failure is no shorter, for all settings and independent draws |
| Backoff.NeverShrinksExactlyFromFirstAttempt | apps/api/src/common/jobs/job-queue.service.ts:41 | the delay never shrinks, for all settings and draws, if and only if the attempt count is at least one |
| Backoff.SettingsInRange | apps/api/src/common/jobs/job-queue.service.ts:38-40 | the three settings brought into range, and their defaults |
| JobQueue.JobQueueService.EnqueueJob | apps/api/src/common/jobs/job-queue.service.ts:59-98 | the whole new queue and answer of enqueueing: tenant check, dedupe lookup, insert under the unique key |
| JobQueue.JobQueueService.ClaimNextJob | apps/api/src/common/jobs/job-queue.service.ts:100-150 | a blank worker name is an error; otherwise a job is claimed if and only if an eligible unlocked one exists; it is a first one in (runAt, createdAt) order, and only it changes |
| JobQueue.JobQueueService.Succeed | apps/api/src/common/jobs/job-queue.service.ts:152-173 | the whole new queue of a success, fenced by status and holder |
| JobQueue.JobQueueService.Fail | apps/api/src/common/jobs/job-queue.service.ts:175-270 | the whole new queue of a failure: retry with backoff or DEAD_LETTER with its row, fenced by status and holder |
| JobQueue.JobQueueService.Release | apps/api/src/common/jobs/jobs.service.ts:51-60 | the whole new queue of giving a claim back |
| JobQueue.JobQueueService.Retry | apps/api/src/common/jobs/jobs.service.ts:140-159 | the whole new queue of retrying a failed or dead job |
| JobQueue.JobQueueService.Cancel | apps/api/src/common/jobs/jobs.service.ts:165-191 | the whole new queue of cancelling a job |
| JobQueueProperties.EveryReachableQueueIsOk | apps/api/src/common/jobs/job-queue.service.ts:59-270 | in every interleaving of enqueue, claim, succeed, fail, release, retry and cancel: lock fields are set exactly while PROCESSING, live jobs have attempts left, one job per dedupe key, and no job or key is lost |
| JobQueueProperties.QueueFromScratchIsOk | apps/api/src/common/jobs/job-queue.service.ts:59-270 | the same for every run from the empty queue |
| JobQueueProperties.EnqueueIsAtomic | apps/api/src/common/jobs/job-queue.service.ts:65-97 | lookup, insert and second lookup, with anything committed in between, amount to one atomic get-or-create |
| JobQueueProperties.OnlyHolderCompletes | apps/api/src/common/jobs/job-queue.service.ts:152-223 | a success or failure changes the queue if and only if the job is PROCESSING under the worker's name |
| JobQueueProperties.CompletesOwnClaimOnlyExactly | apps/api/src/common/jobs/job-queue.service.ts:152-223 | over every run after a claim, a completion issued for that claim takes effect only while the claim lasts if and only if the job is not claimed again under the same name |
| JobQueueProperties.NamesakeFinishesLaterClaim | apps/api/src/common/jobs/jobs-runner.service.ts:8-8 | a claim, a release and a claim under the same name, after which the first worker's late success finishes the second claim |
| JobQueueProperties.HeldUntilHandedBack | apps/api/src/common/jobs/job-queue.service.ts:129-148 | a held job stays exactly as it is until its holder completes it or an administrator takes it away |
| JobQueueProperties.ClaimerCanCompleteIfTrimmed | apps/api/src/common/jobs/job-queue.service.ts:100-140 | a claimer can complete its job if and only if its name needs no trimming, as only claiming trims it |
| JobQueueProperties.UntrimmedWorkerCannotComplete | apps/api/src/common/jobs/job-queue.service.ts:100-173 | a worker named with a leading space claims the job and its success changes nothing |
| JobQueueProperties.FinishedStaysFinishedExactly | apps/api/src/common/jobs/jobs.service.ts:140-191 | over every run a SUCCEEDED job keeps its row all along if and only if no retry's write and no cancellation names it |
| JobQueueProperties.OnlyCancelChangesFinished | apps/api/src/common/jobs/jobs.service.ts:140-191 | if every retry writes while the status it read stands, the row is kept if and only if no cancellation names it |
| JobQueueProperties.FinishedJobIsCancelled | apps/api/src/common/jobs/jobs.service.ts:165-191 | a run in which a job is enqueued, claimed and finished, and a cancellation turns it into DEAD_LETTER |
| JobQueueProperties.StaleRetryRevivesFinishedJob | apps/api/src/common/jobs/jobs.service.ts:140-159 | for every dead job: of two overlapping retries the later write puts the job back after it has succeeded |
| JobQueueProperties.WorkUsesPotential | apps/api/src/common/jobs/job-queue.service.ts:129-267 | 2 * (attempts left) minus 1 while PROCESSING, summed over live jobs, strictly decreases on every claim, success and failure |
| JobQueueProperties.WorkTerminates | apps/api/src/common/jobs/job-queue.service.ts:100-270 | workers alone, in any interleaving, take at most as many effective steps as the queue has potential |
| JobQueueProperties.ClaimedAtMostLimitTimes | apps/api/src/common/jobs/job-queue.service.ts:192-267 | without release, retry or cancel a job is claimed at most maxAttempts times, and is DEAD_LETTER if and only if its attempts are used up |
| JobQueueRetries.ClaimTakes | apps/api/src/common/jobs/job-queue.service.ts:100-148 | a claim takes a waiting job that is due, of a wanted type and not locked, before which no other such job should go by (runAt, createdAt), and nothing else of the queue changes |
| JobQueueRetries.FailureGivesBack | apps/api/src/common/jobs/job-queue.service.ts:254-267 | a failure with attempts left leaves the job waiting for at least 100 ms and its backoff, at most ten minutes or its backoff, namely its base doubled for every failure before and up to a fifth more, and changes nothing else |
| JobQueueRetries.LastFailureKills | apps/api/src/common/jobs/job-queue.service.ts:204-228 | a failure that uses up the last attempt leaves DEAD_LETTER and, if they are kept, a dead letter |
| JobQueueRetries.FailedJobWaits | apps/api/src/common/jobs/job-queue.service.ts:254-267 | whatever else happens but a retry or a cancellation, no claim made before its backoff is over takes a job that failed |
| JobQueueRetries.LaterFailureWaitsLonger | apps/api/src/common/jobs/job-queue.service.ts:192-202 | over any run without a retry of the job: of two failures that leave it waiting the later wait is no shorter, in its row |
| JobQueueRetries.DeadJobsHaveLetters | apps/api/src/common/jobs/job-queue.service.ts:204-228 | where dead letters are kept, over every run each job in DEAD_LETTER has one with its attempts and its error, cancelled ones included |
| JobQueueRetries.EnqueueAnswers | apps/api/src/common/jobs/job-queue.service.ts:59-98 | only an unknown tenant or a dedupe key in use stand in the way of a new job, and what is answered then |
| JobQueueRetries.EnqueuedIsWanted | apps/api/src/common/jobs/job-queue.service.ts:72-90 | a new job is the last row with all its attempts, wanted exactly from its time on, or from now on |
| JobQueueRetries.SuccessLeaves | apps/api/src/common/jobs/job-queue.service.ts:152-173 | the row of a finished job, field by field |
| JobQueueRetries.GivenBackIsWanted | apps/api/src/common/jobs/jobs.service.ts:51-159 | a released job and a retried one are wanted again at once, the latter with all its attempts; on any other status neither call does anything |
| CanonicalJsonProperties.StringRoundTrip | apps/api/src/common/idempotency/idempotency.service.ts:159-177 | string quoting can be read back unit by unit, surrogate pairs and lone surrogates included (section 7 of RFC 8259) |
| CanonicalJsonProperties.PunctuationReads | apps/api/src/common/idempotency/idempotency.service.ts:159-177 | the punctuation and the three names of JSON, character by character |
| CanonicalJsonProperties.EscapesRead | apps/api/src/common/idempotency/idempotency.service.ts:167-176 | which units are escaped and how, letter by letter; every other unit stands for itself |
| CanonicalJsonProperties.CodeUnitOrderIs | apps/api/src/common/idempotency/idempotency.service.ts:172-172 | keys are ordered by their first difference, and a beginning comes before what it begins |
| CanonicalJsonProperties.ParsePrint | apps/api/src/common/idempotency/idempotency.service.ts:159-177 | a parser undoes the printer on every nested value, up to the order of object keys |
| CanonicalJsonProperties.SameValuePrintsAlike | apps/api/src/common/idempotency/idempotency.service.ts:166-174 | the text does not depend on the order in which objects list their keys |
| CanonicalJsonProperties.PrintIsCanonical | apps/api/src/common/idempotency/idempotency.service.ts:159-177 | two values print alike if and only if they are the same but for key order |
| CanonicalJsonProperties.SortedListingIsUnique | apps/api/src/common/idempotency/idempotency.service.ts:166-174 | sorting distinct keys by a total order leaves one possible listing |
| Idempotency.SameHashMeansSameBody | apps/api/src/common/idempotency/idempotency.service.ts:35-38 | for one method and path two bodies have the same hash if and only if they are the same but for key order, given an injective digest |
| Idempotency.ClearRemovesOnlyOwnPending | apps/api/src/common/idempotency/idempotency.service.ts:112-119 | clearing removes a record if and only if it has that id and is still pending, and leaves the others as they are |
| Idempotency.IdempotencyService.CreatePending | apps/api/src/common/idempotency/idempotency.service.ts:133-157 | a record is created if and only if the slot is free and the insert does not fail; otherwise nothing changes, and the record that is there, if any, is returned |
| Idempotency.IdempotencyService.EvaluateRequest | apps/api/src/common/idempotency/idempotency.service.ts:40-94 | the whole new table and decision of one undisturbed request, from the upper-cased method, the path and the hash of the body; an insert that fails and leaves no record is a failure to lock |
| Idempotency.IdempotencyService.Complete | apps/api/src/common/idempotency/idempotency.service.ts:96-110 | exactly the record with the id is completed with the answer |
| Idempotency.IdempotencyService.Intercept | apps/api/src/common/idempotency/idempotency.interceptor.ts:22-73 | the whole new table and response of one undisturbed request through the interceptor; what they mean is in the rows of `IdempotencyRequests` |
| IdempotencyRequests.UndisturbedRequestIsARun | apps/api/src/common/idempotency/idempotency.interceptor.ts:22-73 | one undisturbed request extends any run of the protocol by its own steps, with the same table and outcome |
| IdempotencyRequests.AnsweredIsReplayedForGood | apps/api/src/common/idempotency/idempotency.interceptor.ts:52-64 | once a request is answered, whatever requests come in between, every request with its slot and hash gets its status and body as a replay, one with another hash is refused, and neither changes anything |
| IdempotencyRequests.ThrownCanBeSentAgain | apps/api/src/common/idempotency/idempotency.interceptor.ts:65-69 | a request whose handler threw leaves no record, and the next one with its key executes |
| IdempotencyRequests.PendingIsRefused | apps/api/src/common/idempotency/idempotency.service.ts:44-68 | while a request is being handled another with its slot is refused and changes nothing |
| IdempotencyRequests.MissingStatusIsOk | apps/api/src/common/idempotency/idempotency.service.ts:57-61 | a completed record without a status is replayed as 200 |
| IdempotencyRequests.Utf16Separates | apps/api/src/common/idempotency/idempotency.service.ts:35-38 | different texts are different UTF-16 units, surrogate pairs included |
| IdempotencyRequests.RefusedAtTheDoor | apps/api/src/common/idempotency/idempotency.interceptor.ts:27-45 | a blank key, and one outside of the route's scope, are refused and change nothing |
| IdempotencyRequests.WhoSharesARecord | apps/api/src/common/idempotency/idempotency.interceptor.ts:36-50 | white space around the key and the case of the method make no difference to the record; another method, path or scope does |
| IdempotencyRequests.PayloadReads | apps/api/src/common/idempotency/idempotency.service.ts:35-38 | what is hashed is the method and the path, each with a colon behind it, and the canonical text of the body |
| IdempotencyProtocol.InvHolds | apps/api/src/common/idempotency/idempotency.service.ts:40-157 | the invariant of every interleaving of any number of clients with lost and unreported writes and crashes |
| IdempotencyProtocol.AtMostOneExecutes | apps/api/src/common/idempotency/idempotency.service.ts:40-94 | at most one client at a time executes for a (key, method, path), and once a client was told that its completion is stored nobody executes for it or is told so again |
| IdempotencyOnce.ReturnsOnceAndOncePerLoss | apps/api/src/common/idempotency/idempotency.interceptor.ts:59-71 | over every run the handler returns for a slot are as many as the completions lost on it or one more, one more if an answer is stored; so at most one if no completion is lost |
| IdempotencyOnce.LostCompletionsRepeatWork | apps/api/src/common/idempotency/idempotency.interceptor.ts:59-71 | for every k a run with k lost completions in which a handler returns k + 1 times for the same request |
| IdempotencyProtocol.CompletedIsFinal | apps/api/src/common/idempotency/idempotency.service.ts:96-119 | a completed record never changes in any continuation, and nobody executes under it |
| IdempotencyProtocol.LateRequestsReplayOrConflict | apps/api/src/common/idempotency/idempotency.service.ts:40-94 | a request that looks after completion gets exactly the stored status and body if its hash is the stored one, and a conflict otherwise |
| IdempotencyProtocol.ClearNeverRemovesAnothersRecord | apps/api/src/common/idempotency/idempotency.service.ts:112-119 | a late clear removes at most the client's own pending record, which no other client owns |
| IdempotencyReplay.EveryReplayIsAHandlersAnswer | apps/api/src/common/idempotency/idempotency.interceptor.ts:52-71 | every replayed answer is one that a handler returned to a client executing for the same slot and hash, whatever became of that client, and for the same body up to key order |
| IdempotencyProtocol.ReplayIsTheExecutedAnswer | apps/api/src/common/idempotency/idempotency.interceptor.ts:52-71 | where the executing client was told of its success, the replayed answer is the one it gave |
| AuditChain.AuditService.LogEvent | apps/api/src/common/audit/audit.service.ts:108-234 | the whole new log of one append: chain state, rotation by day, sequence, prevHash, hash, and undo when the unique key is broken, which is an error only for CRITICAL events |
| AuditChainProperties.AuditHashSeparates | apps/api/src/common/audit/audit-hash.util.ts:4-14 | given an injective digest and a total key order, equal audit hashes mean equal prevHash, sequence and content |
| AuditChainProperties.LinksRead | apps/api/src/common/audit/audit.service.ts:165-167 | the chain's members of the hashed payload by name, and the signature version 1 |
| AuditChainProperties.LastHashFixesChain | apps/api/src/common/audit/audit.service.ts:146-195 | tamper evidence: two verifying chains, of any length, that end in the same hash hold the same contents in the same order |
| AuditChainProperties.TamperingChangesLastHash | apps/api/src/common/audit/audit.service.ts:146-195 | a verifying chain with another content anywhere, or another length, ends in another hash |
| AuditDeletions.DeletionIsUnseenExactly | apps/api/src/common/audit/audit.service.ts:132-205 | a whole log left with only some of its events, in any order, and the same state rows is still whole if and only if it has a beginning of every chain, and all of each chain that a state row names |
| AuditDeletions.DeletedDayIsUnseen | apps/api/src/common/audit/audit.service.ts:146-160 | deleting all events of any day but the tenant's current one leaves the log whole |
| AuditChainProperties.EveryRunIsOk | apps/api/src/common/audit/audit.service.ts:132-205 | after any run, whatever the clock does: each daily chain has sequences 1..n, its first event no prevHash, each later one its predecessor's hash, and the state row names the last event of the chain it points to |
| AuditChainProperties.EveryChainVerifies | apps/api/src/common/audit/audit.service.ts:132-205 | so every chain of every run verifies, for plain JSON contents |
| AuditChainProperties.RefusedExactlyWhenDayReopens | apps/api/prisma/schema.prisma:104 | an append is refused, and the event lost, if and only if the tenant's day changes to one that already has events |
| AuditChainProperties.ReopenedDayLosesEvent | apps/api/src/common/audit/audit.service.ts:132-195 | for any days d, e, d the third event is lost |
| AuditChainProperties.NothingIsLostIfDaysNeverGoBack | apps/api/src/common/audit/audit.service.ts:146-205 | if no tenant's days go back, every event is written, in order, and the state rows name the newest chains |
| Outbox.OutboxDispatcher.ClaimRows | apps/api/src/common/events/outbox-dispatcher.worker.ts:68-87 | the claim: the oldest publishable unlocked rows, oldest first, up to the batch size and no fewer than there are |
| Outbox.OutboxDispatcher.DispatchOnce | apps/api/src/common/events/outbox-dispatcher.worker.ts:65-141 | claim a batch, then the new outbox rows and stream for any outcomes of its sends and updates, updates that take effect and report failure included |
| OutboxDispatch.DispatchCoversBatch | apps/api/src/common/events/outbox-dispatcher.worker.ts:89-140 | a dispatch sends its batch in claim order, touches no other row, counts an attempt for every row, publishes exactly those sent and marked, and keeps the first 1000 characters of an error |
| OutboxDispatch.DispatchIsARun | apps/api/src/common/events/outbox-dispatcher.worker.ts:65-141 | a whole dispatch is a run of the interleaved protocol, so what holds of all runs holds of it |
| OutboxAccounting.SendsAreAccountedFor | apps/api/src/common/events/outbox-dispatcher.worker.ts:89-140 | conservation over every run: copies on the stream + failed sends + attempts counted twice = attempts counted + crashes after a send + dispatchers that have sent and not yet marked |
| OutboxAccounting.CounterIsBounded | apps/api/src/common/events/outbox-dispatcher.worker.ts:73-79 | with n dispatchers a row's counter stays at most maxAttempts + n - 1 plus the attempts counted twice, and at most maxAttempts + 2n - 1 |
| OutboxAccounting.CrashesSendWithoutBound | apps/api/src/common/events/outbox-dispatcher.worker.ts:92-124 | the counter bounds no sends: for every k a run of one dispatcher with k copies on the stream and a counter of zero |
| OutboxAccounting.CountedTwicePassesLimit | apps/api/src/common/events/outbox-dispatcher.worker.ts:119-137 | a row allowed one attempt ends at a counter of two when the marking update takes effect and is reported as failed |
| OutboxDispatch.SentMessageComesBack | apps/api/src/common/events/stream-consumer.ts:138-143 | the consumer reads from the stream's field list the message the dispatcher sent |
| OutboxDispatch.PairsRead | apps/api/src/common/events/outbox-dispatcher.worker.ts:92-116 | the names and values of the fields on the stream, in their order |
| OutboxDispatch.LastPairWins | apps/api/src/common/events/stream-consumer.ts:138-141 | the last field with its value replaces an earlier value of it |
| OutboxDispatch.LoneFieldIsEmpty | apps/api/src/common/events/stream-consumer.ts:138-141 | a last field without a value is empty |
| Outbox.ReadPairs | apps/api/src/common/events/stream-consumer.ts:138-141 | the loop over field and value pairs: the last pair of a field gives its value |
| OutboxProtocol.PublishedIsOnStream | apps/api/src/common/events/outbox-dispatcher.worker.ts:92-124 | for any interleaving of dispatchers, failures and crashes a row marked published is on the stream |
| OutboxProtocol.RunsGoForward | apps/api/src/common/events/outbox-dispatcher.worker.ts:92-140 | as a run goes on no mark is taken back, no row's content changes, attempts only count up and nothing leaves the stream |
| OutboxProtocol.CopiesAreIdentical | apps/api/src/common/events/outbox-dispatcher.worker.ts:92-116 | all copies of an event on the stream are the same message |
| OutboxProtocol.ReadModelIsSingleDelivery | apps/api/src/common/events/loan-application-readmodel.consumer.ts:59-123 | duplicated delivery refines single delivery: the read model is the fold of a list of outbox events without repeats, and the processed marks are exactly its events |
| ReadModelOrder.ReadRowFollowsEvents | apps/api/src/common/events/loan-application-readmodel.consumer.ts:74-113 | an application's row exists if and only if a status event was committed for it; it has the last committed status, the tenant, creation time and details of the first, and the time of the last event about it |
| ReadModelOrder.RowShowsLatestExactlyIfNotOvertaken | apps/api/src/common/events/loan-application-readmodel.consumer.ts:74-113 | the row shows the status event that occurred last if and only if none that occurred later was committed before the last one |
| ReadModelOrder.StoredRowShowsLatestExactlyIfNotOvertaken | apps/api/src/common/events/loan-application-readmodel.consumer.ts:59-123 | the same of the stored row after any run, where an overtaken row still shows the right status only if both events give the same one |
| ReadModelOrder.AlwaysShowsLatestExactlyInOrder | apps/api/src/common/events/loan-application-readmodel.consumer.ts:74-113 | it does so at every moment if and only if status events are committed in order of occurrence |
| OutboxOrder.CalmRunsCommitInOrder | apps/api/src/common/events/outbox-dispatcher.worker.ts:65-141 | with one dispatcher, no failed or unmarked send, no crash, rows inserted in order of createdAt and commits in the order of the stream, status events are committed in order of occurrence and every row has always shown the latest |
| OutboxOrder.TwoDispatchersReorder | apps/api/src/common/events/outbox-dispatcher.worker.ts:68-87 | a run of two dispatchers without any failure that leaves the newer event before the older one on the stream |
| ReadModelOrder.OlderEventWins | apps/api/src/common/events/outbox-dispatcher.worker.ts:92-137 | a run in which the older event's send fails once, the newer one is delivered first and the row ends with the older status |
| Outbox.ReadModelConsumer.HandleMessage | apps/api/src/common/events/loan-application-readmodel.consumer.ts:48-123 | the new marks and read model of one message: unusable or known messages change nothing |
| OutboxDispatch.HandlingIsARun | apps/api/src/common/events/loan-application-readmodel.consumer.ts:48-123 | handling a message of the stream is a delivery and a commit of the protocol, so what holds of all runs holds of it |
| Outbox.ReadModelConsumer.ProcessMessage | apps/api/src/common/events/stream-consumer.ts:148-181 | a handler that fails leaves no acknowledgement, and the checkpoint follows only an acknowledgement and its own write that succeed |
| OfferCalculator.GetPolicy | apps/api/src/common/offer-calculator/offer-calculator.service.ts:89-115 | each number is the lender's setting if that is a whole number in range and the default otherwise |
| OfferCalculator.OverrideWins | apps/api/src/common/offer-calculator/offer-calculator.service.ts:51-58 | what the caller overrides counts, and the lender's policy for the rest |
| OfferCalculator.InterestIsNearest | apps/api/src/common/offer-calculator/offer-calculator.service.ts:60-62 | interest is the kobo nearest to principal * rate * days / 300000, with half a kobo going up |
| OfferCalculator.FeeIsNearest | apps/api/src/common/offer-calculator/offer-calculator.service.ts:63-64 | the percentage fee is the kobo nearest to its share of the principal, with half a kobo going up |
| OfferCalculator.InterestIsMonotone | apps/api/src/common/offer-calculator/offer-calculator.service.ts:60-62 | interest never falls as principal, rate or tenor grow |
| OfferCalculator.SpreadInstallments | apps/api/src/common/offer-calculator/offer-calculator.service.ts:137-146 | the installment loop: equal amounts with the remainder on the last, one chunk apart, summing to base times count plus remainder |
| OfferCalculator.BuildSchedule | apps/api/src/common/offer-calculator/offer-calculator.service.ts:117-146 | installments sum exactly to the total; all but the last are equal and the last exceeds them by at most count - 1; due dates are 7 or 30 days apart, and there are the fewest installments that cover the tenor |
| OfferCalculator.DueDatesIncrease | apps/api/src/common/offer-calculator/offer-calculator.service.ts:137-144 | due dates strictly increase |
| OfferCalculator.LastIsDueOnLastDay | apps/api/src/common/offer-calculator/offer-calculator.service.ts:123-144 | the last installment is due on the last due day |
| OfferCalculator.ScheduleCoversTenor | apps/api/src/common/offer-calculator/offer-calculator.service.ts:132-133 | the last due day is never before the tenor's end, and within one chunk of it if and only if the tenor is positive |
| OfferCalculator.Calculate | apps/api/src/common/offer-calculator/offer-calculator.service.ts:50-87 | the installments pay back exactly principal, interest and fees, under the overridden policy |
| RiskScore.ComputeRisk | apps/api/src/risk/risk.service.ts:120-223 | the score is 500 plus the recorded contributions, clamped to 0..1000; a matching hard rule declines and caps it at 400 |
| RiskScore.ScoreSoftFlags | apps/api/src/risk/risk.service.ts:181-195 | the loop over soft rules records a flag for each matching rule and a contribution for each matching rule with a delta, and adds up the contributions |
| RiskScore.CheckHardDeclines | apps/api/src/risk/risk.service.ts:174-179 | the loop over hard rules records exactly the matching ones, in order |
| RiskScoreProperties.OppositeOperators | apps/api/src/risk/risk.service.ts:95-118 | of eq/ne and in/nin exactly one matches; of gt/lte and lt/gte exactly one matches if and only if both sides are numbers |
| RiskScoreProperties.OrdersCompareNumbers | apps/api/src/risk/risk.service.ts:105-112 | the four orders compare numbers as written; null counts as zero, booleans as zero and one, a missing value as none |
| RiskScoreProperties.EqualityAndMembership | apps/api/src/risk/risk.service.ts:97-104 | equality and membership of plain values; without a list nothing is in it |
| RiskScoreProperties.ReferencesAndNaN | apps/api/src/risk/risk.service.ts:97-104 | lists and objects equal nothing and are in no list; NaN is found in a list, but equals nothing |
| RiskScoreProperties.ExistenceIs | apps/api/src/risk/risk.service.ts:113-114 | `exists` asks for a value that is neither missing nor null, or for the opposite |
| RiskScoreProperties.RulesSee | apps/api/src/risk/risk.service.ts:50-74 | the ten fields of the snapshot a rule can ask for, by path |
| RiskScoreProperties.FactorsAdd | apps/api/src/risk/risk.service.ts:132-172 | what each factor adds, in whole points of its weight, for every band, level and rate |
| RiskScoreProperties.RecordedRuleByRule | apps/api/src/risk/risk.service.ts:174-195 | what is recorded of a list of rules is what is recorded of each, one after the other: the code of a rule that matches, and its delta, if any, under `soft:` and its code |
| RiskScoreProperties.AssessmentIs | apps/api/src/risk/risk.service.ts:196-205 | score and decision as a function of the factors, the sum of matching deltas and whether any hard rule matches |
| RiskScoreProperties.RuleOrderIsIrrelevant | apps/api/src/risk/risk.service.ts:174-195 | permuting soft or hard rules changes neither score nor decision |
| RiskScoreProperties.HigherScoreIsNoWorse | apps/api/src/risk/risk.service.ts:197-204 | without a matching hard rule a higher score never gives a worse decision, whatever the thresholds |
| RiskScoreProperties.DefaulterIsDeclined | apps/api/src/risk/risk.service.ts:174-205 | under the default hard rule a borrower in default is declined at 400 or less, whatever else is known |

## Left out

- Amounts outside NUMERIC(18,2) and bigint: the columns are unbounded here.
- The precision limit of decimal.js and floating-point error in interest, backoff and scores: numbers are exact.
- Ids: the environment supplies them; an id in use breaks the primary key and undoes the transaction. Job,
  record and outbox ids are positions or counters.
- Upper-casing of letters outside ASCII in currency codes, memos, creators, metadata, correlation ids and job payload fields.
- `createEntryWithBalancedLines`, `listEntries` and pagination: wrappers and views of what is modelled.
- The legacy `LedgerService`, `TenantIdempotencyService`, `enforceRiskGate`, `computeDiff` and KYC status.
- The exposure guard is an arbitrary predicate on pool and amount.
- The pool summary's utilization percentage, snapshots and performance reports.
- PostEntry: the method is the undisturbed call; a race for its key is `LedgerRaces.RacingPostIsAtomic`. Its two writes
  are one step, or stop in between: a reader between them is not modelled.
- ReverseEntry: the method is the undisturbed call; races are `LedgerRaces.RacingReversalIsAtomic`.
- GuardKeepsLedgerExactly: what a call can reach is read off the schema, as is that no other model has a relation to
  entries or lines; that the tenant middleware refuses calls for another tenant is not modelled.
- DeployToLoan: the audit event and the outbox event of the same transaction are not modelled.
- Fail: the audit log row written on dead-lettering is not modelled.
- Retry: is the undisturbed call; the write on a stale reading is the step RetryStep.
- LogEvent: redaction, the fallback for a missing tenant and a caller's outer transaction are not modelled.
- SHA-256 is an injective digest given as a hypothesis; `localeCompare` in the audit hash is a total order given as one.
- Number tokens are printed and read back as they stand; how a double becomes a token is not part of this model.
- `undefined` members in audit payloads, which hash as null but are not stored.
- The redaction of audit contents and how the tenant of an event is found. The chain's day is not hashed, as in the program.
- The idempotency table's second unique key (tenantId, scope, key): the service leaves those columns null.
- Consumer liveness: the consumer reads only new messages, so a failed delivery is not repeated; deliveries here
  happen in any number and order.
- JSON payloads of outbox events: the fields the consumer uses are taken as decoded, and decoding is assumed to
  undo encoding where a message is read back.
- Unsupported-stream errors, start and stop of consumers, timers, metrics and logging.
- Rule paths are split at the dots already, and inherited JavaScript properties are not found by them; what
  `Number` makes of strings, lists and objects is a parameter.
- Offer overrides, amounts and tenors are whole numbers; dates are milliseconds without an end.
- Audit rows of pool changes, and queue depth records.
