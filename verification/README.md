# The admission and settlement ledger of 9Gateway, in Dafny

9Gateway admits a request by holding an estimate in several places at once: a concurrency slot, a set
of epoch-aligned token windows, and lifetime, UTC-day and UTC-month budgets. The request is settled
once, by its known usage, by its estimate, by a release before it went upstream, or by its estimate
plus a one-shot ticket that may replace the charge later. Committed budget spend goes through a
write-behind accumulator to durable rows and comes back through a restart. This project models that
core, and the small algorithms around it, and proves what they promise over every run.

Four kinds of files belong together for each limiter:

- a *book*: what each operation does, over values (`BudgetBook`, `TokenBook`, parts of `RequestLimiter`);
- *runs*: any interleaving of the atomic steps, with a history in which every reservation is an entry
  named by its position, so that "the sum over the live reservations" is a sum over that history
  (`BudgetRuns`, `TokenRuns`), the theorems about them (`BudgetTheorems`, `BudgetEdges`,
  `BudgetPersistence`, `BudgetDebts`, `BudgetLifetimes`, `TokenTheorems`, `TokenLoading`), and runs from an
  empty limiter into the states their conditions single out (`BudgetWitnesses`, `StorageWitnesses`,
  `TokenWitnesses`);
- *laws*: what each operation answers and records, if and only if, with the counters and the arithmetic
  written out (`BudgetLaws`, `TokenLaws`, `LeaseLaws`), so that neither the book nor the objects can drift;
- *objects*: classes with the source's fields and loops, each method proved to do what the book says
  (`BudgetLimiter`, `BudgetStore`, `TokenLimiter`, `Concurrency`, `LeaseAdmission`, `PolicyUpdate`), and
  reservations and tickets each of whose methods is one step of a run (`BudgetReservations`,
  `TokenReservations`).

`LeaseFinish`, `Completion`, `UsageWorker` and `Coordinator` are protocols of concurrent callers: a
step is one region under a lock, one channel operation or one compare-and-swap, and the theorems hold
for every sequence of steps. `LeaseRuns` puts the three limiters, the stages of composite admission and
the terminal callers of `LeaseFinish` into one machine, and `LeaseReports` says what those callers are told;
`Observation` puts the worker and the completion records together. `Glob`, `GlobKey`, `GlobCompile`,
`GlobPrint`, `Pricing`, `MoneyText` and `Cost` are the matching, pricing and money algorithms. A mutex-held region is one step; clock readings, the answers
of the database and the results of parsing are inputs of the steps; the 32 shards of the budget
limiter are one map, because no step crosses keys.

## Hypotheses and what happens without them

The ledger theorems are about runs that keep the guards below. Each guard is the condition of a branch
of the code, and a lemma shows what happens when it is not met.

- *A ticket is adjusted while its captured accounts are retained* (`Harmless`, `Truthful`). `Reserve`
  forgets past days and months with nothing active, and a ticket can outlive them
  (`LateTicketIsReachable`). Adjusted to its own estimate it then writes unknown counters, after which
  the key admits nothing (`LateEstimatePoisons`; exactly when: `AdjustSoundIff`); adjusted to anything
  less it publishes a refund that no counter shows (`LateRefundIsUntrue`; exactly when:
  `AdjustPublishesTruthIff`).
- *Totals stay in the int64 range.* `SettleInRangeIff` says exactly when a budget settlement takes them
  out of it: the actual cost fits what is spent but not beside what others hold. The key then refuses
  every admission, and requests in flight end with their holds in place (`OverspentAdmitsNothing`,
  `OverspentKeepsHolds`, `OverspendingIsReachable`). A token settlement publishes its delta even when the
  counter refused it (exactly when: `SettlePublishesTruthIff`; a run: `UnrecordedChargeIsReachable`).
- *Sink calls come before the accumulator's Shutdown begins, and the sums of pending deltas stay in the
  int64 range*, both when a delta arrives and when a failed batch is given back. `NotifyConservesIff` and
  `RollbackConservesIff` say that these conditions are exact; `LateNotifyIsLost`,
  `PendingOverflowIsReachable` and `LostBatchIsReachable` are runs that end where one of them fails.
- *A refund reaches the sink after the charge it gives back* (`ChargedFirst`). `CommitDeferred` stores the
  ticket before it notifies, so a second caller of it can adjust first; a lease has one finisher, which
  keeps the order. Without it a batch may ask for more than its row holds, and the row guard refuses it
  (`RefundFirstIsRefused`); `UnderflowIff` says exactly when the calls still to be made can be ordered so.
  Requests are made for stored keys; a batch that names any other key is refused (`BatchAcceptedIff`).
- *No process starts on an earlier date than stored spend is dated.* Rows of a later day or month are
  neither deleted nor loaded at start-up; `BootConservedIff` says that the books start out exact exactly
  when there are none, `LaterRowIsLost` shows one, and `EveryLifetimeConserves` carries the books through
  any chain of processes whose dates do not move back.
- *The caller names the windows in force when it replaces token windows.* `ReplacePolicy` takes the old
  windows from its caller, not from what it published; a published window the caller does not name is
  dropped with its tokens (`ReplacementClearsIff`, `UnnamedWindowIsDropped`). And a token request with no
  windows is unlimited: it returns before the published policy is looked at.

Where the code does not do what its documentation says, the model follows the code:

- `fixedWindowStartChecked` computes the lower bound of its range check in 64 bits, where it wraps. It
  finds a window only for whole seconds, and in the last second of the range (`WindowStartIff`), so token
  admission refuses every clock reading with a fractional second (`FractionalReadingsAreRefused`), and
  a token request is admitted at its reported reset exactly when the windows can be located there
  (`TokenTheorems.AdmittedAtReset`).
- `TokenLimiter.LoadCommitted` is described as rejecting expired and over-limit rows. It skips expired
  rows and accepts over-limit ones (exactly what it accepts: `LoadSucceedsIff`; when that is what is
  described: `LoadAsDocumentedIff`; a row: `OverLimitRowIsLoaded`), and it keeps the rows before a rejected
  one (exactly when it changes anything: `FailedLoadUnchangedIff`; a load: `FailedLoadKeepsRows`).
- `UsageObservationWorker.Drain` is meant to start no adjustment after it has timed out. Its two
  compare-and-swaps are separate steps: an adjustment that ends between them leaves the phase idle
  (`DrainRace`). While a Drain waits, some run times it out and begins an adjustment later exactly when
  the phase is not terminal and at least two jobs are left (`AdjustmentAfterDrainIff`). A timed-out
  `Shutdown` does keep the promise (`NoAdjustmentAfterShutdown`).

## Model

| member | source | states |
|---|---|---|
| BudgetRuns.LedgerInvariant | internal/limiter/budget.go:538-1201 | in every world reached by any interleaving, per key and retained scope: active is the sum of the unsettled reservations that captured it, spent is what was loaded plus all charges, and every unsettled reservation's book and generation are the published ones |
| BudgetRuns.SettlePreserves | internal/limiter/budget.go:884-1027 | a settlement keeps the ledger invariant, whatever its kind and actual cost |
| BudgetRuns.AdjustPreserves | internal/limiter/budget.go:1048-1201 | an adjustment whose accounts are retained keeps the ledger invariant |
| BudgetRuns.ReservePreserves | internal/limiter/budget.go:538-761 | an admission attempt, with its pruning and clock clamping, keeps the ledger invariant |
| BudgetRuns.SettleApplies | internal/limiter/budget.go:916-1000 | a live reservation is never settled against a stale state and never finds less active than it holds |
| BudgetTheorems.HistoryDecidesBalances | internal/limiter/budget.go:538-1201 | two worlds with the same history have the same counters in every retained scope |
| BudgetTheorems.DeferredRefinesDirect | internal/limiter/budget.go:797-882 | deferring and adjusting at any later world charges the actual cost if and only if the key's record is still the one reserved in and every captured account is there and stays in range, upwards and downwards; then each account changes exactly as committing that cost would change it, otherwise the estimate stays |
| BudgetTheorems.EntriesMoveForward | internal/limiter/budget.go:858-882 | along every run a reservation's status only moves forward: each terminal call takes effect at most once |
| BudgetTheorems.ReleasedLeavesNoTrace | internal/limiter/budget.go:884-1027 | from its release on, and whatever is interleaved, every counter is that of the other reservations |
| BudgetTheorems.TicketsCovered | internal/limiter/budget.go:829-1027 | the spend of a retained account covers all its outstanding tickets at once |
| BudgetTheorems.AdmittedUnderPublishedPolicy | internal/limiter/budget.go:545-551 | until a key's policy changes again, every reservation admitted for it captured exactly the scopes the published policy limits |
| BudgetTheorems.RunWithinLimit | internal/limiter/budget.go:613-761 | while the policy of a key is not changed, spent plus active of each of its limited scopes never exceeds the limit by more than the sum of what single requests cost beyond their estimates |
| BudgetTheorems.PlannedRunsStayWithinLimits | internal/limiter/budget.go:613-761 | if every request reserves the price of its plan and every known cost it is settled or adjusted at is the price of usage within that plan, no limit is ever exceeded |
| BudgetLaws.ReserveAnswers | internal/limiter/budget.go:538-761 | the answer of every attempt, in order: malformed, not the published policy, corrupt record, a dropped limit, nothing limited, some limit below spent plus active plus candidate, nothing asked for, held in exactly the limited scopes |
| BudgetLaws.ResetIff | internal/limiter/budget.go:613-684 | a capacity refusal reports no reset if and only if the lifetime limit is exceeded, the next month exactly when only that is not and the monthly one is, and the next day in every other case |
| BudgetLaws.ReserveRecords | internal/limiter/budget.go:575-761 | an attempt forgets exactly the past periods with nothing active, and an admission adds the candidate to the active amount of exactly the captured scopes |
| BudgetLaws.SettlesAt | internal/limiter/budget.go:916-1000 | which charge each settlement ends at, with its error: the known cost if and only if every captured account can take it |
| BudgetLaws.SettlesIn | internal/limiter/budget.go:986-1027 | the hold is released and the charge added and published in exactly the captured scopes |
| BudgetLaws.AdjustsIff | internal/limiter/budget.go:1090-1199 | an increase or a refund takes effect in the entry, in every captured account and in what is published if and only if every captured account is there and stays in range; otherwise no counter moves, and the only error is the lifetime counter leaving its range |
| BudgetLaws.ReplacedIff | internal/limiter/budget.go:480-511 | when a policy is replaced, and that from then on a request under any other policy is refused as a conflict |
| BudgetEdges.AdjustSoundIff | internal/limiter/budget.go:1152-1183 | an adjustment leaves a usable record exactly when the charge changes, or all captured accounts are retained |
| BudgetEdges.LateTicketPoisonsKey | internal/limiter/budget.go:583-603 | a ticket that outlives its pruned day and is adjusted to its own estimate makes the key refuse every later admission |
| BudgetWitnesses.LateTicketIsReachable | internal/limiter/budget.go:583-603 | a run from an empty limiter to an outstanding ticket whose day account is gone, for any estimate and any two days |
| BudgetWitnesses.LateEstimatePoisons | internal/limiter/budget.go:1152-1183 | adjusted there to its estimate it leaves a record that refuses every admission |
| BudgetWitnesses.LateRefundIsUntrue | internal/limiter/budget.go:1166-1199 | adjusted there to less it publishes a refund of the lifetime budget while the counter keeps the estimate |
| BudgetEdges.AdjustPublishesTruthIff | internal/limiter/budget.go:1166-1199 | the published deltas are the changes of the counters exactly under the stated condition on the captured accounts |
| BudgetEdges.RefundsAlwaysApply | internal/limiter/budget.go:1100-1183 | under the ledger invariant a refund of retained accounts never underflows |
| BudgetEdges.SettleInRangeIff | internal/limiter/budget.go:916-1000 | a settlement takes a record out of the range validateBudgetState accepts exactly when a known cost fits the spend of every captured scope but, in one of them, not beside what others hold |
| BudgetEdges.OverspentAdmitsNothing | internal/limiter/budget.go:553-559 | such a record refuses every admission as corrupt and is not changed by it |
| BudgetEdges.OverspentKeepsHolds | internal/limiter/budget.go:903-915 | a reservation of such a record is finalized with an error and its hold stays |
| BudgetWitnesses.OverspendingIsReachable | internal/limiter/budget.go:930-985 | a run from an empty limiter into such a record, for every estimate, other hold and cost that allow it |
| BudgetEdges.RejectedBeforeReset | internal/limiter/budget.go:538-684 | a day or month rejection by Reserve stands at every clock reading before the reported reset, earlier readings included |
| BudgetEdges.AdmittedAtReset | internal/limiter/budget.go:538-684 | absent other operations Reserve admits the same request at every reading from the reported reset on, when it fits each full limit and no later period was loaded |
| BudgetPersistence.ConservationInvariant | internal/limiter/budget.go:884-1201 | in every interleaving of limiter, notifications and storage, with charges and revisions delivered separately and in any order: loaded spend plus charges equals durable row plus batch in flight plus pending plus undelivered deltas, per key and scope |
| BudgetPersistence.RetainedSpendIsPublished | internal/storage/budget_accumulator.go:52-231 | hence the in-memory spend of a retained scope is exactly what was published for it |
| BudgetPersistence.NotifyConservesIff | internal/storage/budget_accumulator.go:52-86 | a sink call, for a charge or for its revision, is conserved exactly when Shutdown has not begun and the pending sum stays in the int64 range |
| BudgetPersistence.RollbackConservesIff | internal/storage/budget_accumulator.go:159-179 | giving a failed batch back is conserved exactly when every sum stays in the int64 range |
| StorageWitnesses.LateNotifyIsLost | internal/storage/budget_accumulator.go:52-86 | a run in which a sink call after Shutdown has begun loses a charge |
| StorageWitnesses.PendingOverflowIsReachable | internal/storage/budget_accumulator.go:66-72 | a run in which the sink sees a later charge before an earlier refund and the pending sum overflows |
| StorageWitnesses.LostBatchIsReachable | internal/storage/budget_accumulator.go:159-179 | a run in which a failed batch is forgotten, because the sum with a later charge overflows |
| BudgetPersistence.BatchesNeverUnderflow | internal/storage/budget_accumulator.go:145-196 | when every refund is delivered after its charge, row plus batch and row plus batch plus pending stay non-negative through any failed flushes, restores and retries |
| BudgetDebts.UnderflowIff | internal/limiter/budget.go:876-880 | some order of the sink calls still to be made ends in a batch refused for an underflow of a row exactly when what was loaded and charged there is less than the increases still undelivered |
| StorageWitnesses.RefundFirstIsRefused | internal/limiter/budget.go:876-880 | a run in which the refund is delivered before its charge and the row guard refuses the batch, with exact books |
| BudgetPersistence.LoadReads | internal/limiter/budget.go:408-443 | loading into an empty limiter gives every account exactly its row and nothing active |
| BudgetPersistence.LoadEstablishesInv | internal/limiter/budget.go:312-445 | a freshly loaded limiter satisfies the ledger invariant |
| BudgetLifetimes.BootConservedIff | cmd/gateway/main.go:152-207 | a process starts with exact books if and only if no stored spend is dated after its clock |
| BudgetLifetimes.BootSolvent | cmd/gateway/main.go:152-207 | then every batch it will submit is covered from the start |
| BudgetLifetimes.LaterRowIsLost | cmd/gateway/main.go:156-170 | a stored row of a later day with which they do not |
| BudgetLifetimes.StartedSystemsConserve | cmd/gateway/main.go:152-207 | conservation in every run of a started process |
| BudgetLifetimes.RestartRestoresSpend | cmd/gateway/main.go:152-201 | once everything is delivered and written, a restart restores exactly the spend of every scope it loads and the old process still kept |
| BudgetLifetimes.NextLifeStarts | cmd/gateway/main.go:152-207 | a process that ended with everything written leaves rows from which the next one, on no earlier date, starts with exact books |
| BudgetLifetimes.EveryLifetimeConserves | cmd/gateway/main.go:152-207 | through any chain of such processes the books stay exact and every batch stays covered |
| BudgetRows.ApplyAllAdds | internal/storage/budget_buckets.go:144-179 | an accepted batch adds to each row the sum of its deltas |
| BudgetRows.BatchAcceptedIff | internal/storage/budget_buckets.go:144-179 | a batch with one delta per identity is accepted exactly when every key is known and every row stays between zero and the largest amount; the order does not matter |
| BudgetStore.BudgetBucketRepository.ApplyDeltas | internal/storage/budget_buckets.go:77-188 | all deltas are applied, or an error is returned and no row changes; without a failure of the database, applied exactly when each delta is well formed and fits its row |
| BudgetStore.BudgetAccumulator.Sink | internal/storage/budget_accumulator.go:52-86 | a delta is added to its identity, dropped when zero or when not accepting, and refused with an error when the sum leaves the int64 range |
| BudgetStore.BudgetAccumulator.TakeAll | internal/storage/budget_accumulator.go:145-157 | the batch lists exactly the pending deltas, once each, and nothing stays pending |
| BudgetStore.BudgetAccumulator.Restore | internal/storage/budget_accumulator.go:159-179 | a batch is merged back under whatever arrived since |
| BudgetStore.BudgetAccumulator.Flush | internal/storage/budget_accumulator.go:181-196 | every pending delta reaches its row, or rows and pending deltas are as before; without a failure, exactly when each fits |
| BudgetStore.BudgetAccumulator.Shutdown | internal/storage/budget_accumulator.go:202-231 | a nil error means that nothing is left to write and every delta reached its row; without a failure it is nil exactly when each delta fits |
| BudgetLimiter.BudgetLimiter.LoadSpent | internal/limiter/budget.go:312-445 | strict and atomic: the rows are loaded exactly as the book says, or an error is returned and nothing changes |
| BudgetLimiter.BudgetLimiter.Reserve | internal/limiter/budget.go:538-761 | the fields stand for the ledger before and after, and ledger and answer are those of the book's admission, which `ReserveAnswers` and `ReserveRecords` spell out |
| BudgetLimiter.BudgetLimiter.Admit | internal/limiter/budget.go:575-761 | prune, check all limits, then hold in all limited scopes or in none, with the reset of `ResetIff` |
| BudgetLimiter.PruneBuckets | internal/limiter/budget.go:583-603 | exactly the past periods with nothing active are forgotten |
| BudgetLimiter.CheckLimits | internal/limiter/budget.go:613-684 | reports, for each of the three limits, whether it refuses |
| BudgetLimiter.BudgetLimiter.Settle | internal/limiter/budget.go:884-1027 | the three counters of the record move as the book's settlement says, with the same error, charge and applied flag |
| BudgetLimiter.ChooseCharge | internal/limiter/budget.go:930-985 | the actual cost when every captured counter can take it, the estimate otherwise, with the error the source reports |
| BudgetLimiter.BudgetLimiter.AdjustCharge | internal/limiter/budget.go:1072-1199 | counters, published deltas and error are those of the book's adjustment, which `BudgetLaws.AdjustsIff` spells out |
| BudgetLimiter.AdjustState | internal/limiter/budget.go:1090-1199 | one record's adjustment, both signs, including the branch that stores unknown counters |
| BudgetLimiter.BudgetLimiter.ReplacePolicy | internal/limiter/budget.go:480-511 | published policy and enforcement fields change together exactly when the expected policy is the published one and the commit succeeds |
| BudgetLimiter.BudgetLimiter.RegisterPolicy | internal/limiter/budget.go:464-474 | only the published policy changes |
| BudgetLimiter.ValidStateIff | internal/limiter/budget.go:1280-1313 | validateBudgetState accepts a record exactly when its book is well formed and in range |
| BudgetReservations.Reserve | internal/limiter/budget.go:538-761 | a reservation object is created exactly for an admission, and it stands for the new entry of the run |
| BudgetReservations.BudgetReservation.Finalize | internal/limiter/budget.go:858-882 | the first terminal call is the run's settlement step; every later call changes nothing and repeats its result |
| BudgetReservations.BudgetAdjustmentTicket.Adjust | internal/limiter/budget.go:1048-1201 | the first call is the run's adjustment step; every later call changes nothing and repeats its error |
| BudgetReservations.BudgetAdjustmentTicket.Invalidate | internal/limiter/budget.go:1210-1219 | the ticket is consumed and the ledger is untouched |
| Calendar.MonthIsUnique | internal/limiter/budget.go:300-307 | every day lies in exactly one month of the Gregorian calendar |
| Calendar.Gregorian | internal/limiter/budget.go:296-308 | the day numbers of the months are those of the closed form of the Gregorian calendar |
| Calendar.StartsFaithful | internal/limiter/budget.go:300-308 | naming a month by its number or by its start is the same |
| Calendar.DatesMonotone | internal/limiter/budget.go:277-300 | dates never move back when the clamped time does not |
| Cost.CostIsExact | internal/accounting/cost.go:92-130 | the cost is the ceiling of the exact price, and an error exactly when that ceiling is outside the int64 range |
| Cost.CostFailsOnNegatives | internal/accounting/cost.go:92-130 | negative counts or rates, and only those, are reported as such |
| Cost.CostMonotone | internal/accounting/cost.go:92-130 | usage componentwise within a plan costs no more than the plan |
| MoneyText.PrintThenParse | internal/accounting/money.go:165-229 | parsing the printed form of any known amount gives exactly that amount |
| MoneyText.NumeralsParse | internal/accounting/money.go:194-229 | every decimal numeral with at most six fraction digits that stands for a representable amount is parsed to exactly that amount |
| MoneyText.ParsedIsNumeral | internal/accounting/money.go:194-229 | nothing else is parsed, so no parse rounds |
| MoneyText.PrintIsInjective | internal/accounting/money.go:165-178 | no two money values print alike |
| WindowClock.WindowStartIff | internal/limiter/token.go:751-774 | the exact set of times for which a window start is found, and that it is the aligned start |
| WindowClock.FractionalSecondsHaveNoWindow | internal/limiter/token.go:751-774 | a reading with a fractional second has no window, up to the last second of the range |
| TokenTheorems.FractionalReadingsAreRefused | internal/limiter/token.go:286-350 | hence Reserve with windows refuses at every such reading, with no reset time |
| WindowClock.WindowHolds | internal/limiter/token.go:751-783 | a window found for a time holds it, and is the only aligned one that does |
| Windows.Normalize | internal/limiter/token.go:710-734 | valid exactly when all windows are positive and different; then a permutation ordered by duration and amount |
| TokenRuns.TokenLedgerInvariant | internal/limiter/token.go:286-632 | in every reachable world, per bucket: active is the sum of live reservations capturing it and within the window's amount, committed of a kept bucket is what was loaded plus all charges and covers all outstanding tickets |
| TokenRuns.LiveIsHeld | internal/limiter/token.go:468-546 | a live reservation's buckets are never discarded and hold its estimate |
| TokenRuns.RefundsNeverFail | internal/limiter/token.go:583-592 | a refund never finds less committed than it gives back |
| TokenRuns.SettlePreserves | internal/limiter/token.go:468-546 | settlement keeps the token invariant whenever its charge can be recorded: nothing, the usage, or the estimate |
| TokenRuns.AdjustPreserves | internal/limiter/token.go:548-632 | adjustment keeps the token invariant, also when it fails |
| TokenRuns.ReservePreserves | internal/limiter/token.go:286-358 | admission keeps the token invariant |
| TokenTheorems.HistoryDecidesBuckets | internal/limiter/token.go:286-632 | two worlds with the same history have the same counters in every kept bucket |
| TokenRuns.TicketsCovered | internal/limiter/token.go:428-446 | committed tokens of a kept bucket cover all its outstanding tickets at once |
| TokenTheorems.ExpiredStaysGone | internal/limiter/token.go:687-708 | an expired bucket that was discarded is never created again nor touched by a late ticket, whatever the clock reads |
| TokenTheorems.EntriesMoveForward | internal/limiter/token.go:458-466 | each terminal call takes effect at most once along every run |
| TokenTheorems.RolledBackLeavesNoTrace | internal/limiter/lease.go:243-259 | from the rollback of a reservation on, and whatever is interleaved, every bucket is that of the other reservations |
| TokenTheorems.DeferredRefinesDirect | internal/limiter/token.go:394-650 | deferring and adjusting later changes each kept bucket as a direct commit would; an increase is recorded exactly when committed plus the difference stays in the int64 range in every captured bucket that is kept, a refund always, and a failed adjustment leaves the estimate |
| TokenLaws.RunWithinWindow | internal/limiter/token.go:286-632 | along every run, committed plus active of a bucket never exceeds the window's amount by more than the sum of what single requests used beyond their estimates |
| TokenLaws.AdmittedIff | internal/limiter/token.go:286-358 | admitted if and only if well formed, made under the published windows, the clock can be placed in each, and committed plus active plus the amount is within every window |
| TokenLaws.AdmittedHolds | internal/limiter/token.go:352-358 | an admission adds the amount to the active tokens of exactly the current buckets of its windows |
| TokenLaws.RejectedUntil | internal/limiter/token.go:316-350 | a refusal reports the latest reset of the windows that would have room for the amount if empty, and none if and only if there is no such window or the request was not looked at |
| TokenLaws.SettlesAt | internal/limiter/token.go:468-510 | which charge each settlement ends at: the usage if and only if it is not negative and no captured bucket would leave the int64 range |
| TokenLaws.SettlesIn | internal/limiter/token.go:515-544 | each captured bucket loses the hold and gains the charge that can be recorded |
| TokenLaws.AdjustsIff | internal/limiter/token.go:548-632 | an adjustment succeeds if and only if the usage is not negative and committed plus the difference stays in the int64 range in every captured bucket that is there; which error otherwise, with nothing changed |
| TokenLaws.AdjustsBy | internal/limiter/token.go:583-632 | then every captured bucket that is kept moves by exactly the difference, and no other does |
| TokenLaws.TickForgets | internal/limiter/token.go:687-708 | reading the clock forgets exactly the buckets whose window is over and in which nothing is active |
| TokenLaws.ReplacedIff | internal/limiter/token.go:203-255 | the new windows are published if and only if the commit succeeds and no bucket of a dropped window carries a token |
| TokenTheorems.SettlePublishesTruthIff | internal/limiter/token.go:515-544 | the deltas published by a settlement are the changes of the buckets exactly when nothing is charged, or the usage or the estimate fits every captured bucket |
| TokenWitnesses.UnrecordedChargeIsReachable | internal/limiter/token.go:515-544 | a run from an empty limiter in which an estimate is charged and published but not recorded |
| TokenTheorems.ReplacementClearsIff | internal/limiter/token.go:203-255 | a replacement that goes through leaves no token in a window it does not publish if and only if the caller named the window or none of its buckets held a token |
| TokenTheorems.ReplacementHoldsAcrossCommit | internal/limiter/token.go:226-255 | whatever settlements, adjustments and readings come between the check and the publication, the windows found vacant are vacant when the new ones are published |
| TokenWitnesses.UnnamedWindowIsDropped | internal/limiter/token.go:203-255 | a published window the caller does not name is dropped while a request holds tokens in it |
| TokenTheorems.DroppedWindowsStayClear | internal/limiter/token.go:203-303 | from then until the key's next policy change, dropped windows carry neither committed nor active tokens |
| TokenTheorems.AdmittedUnderPublishedWindows | internal/limiter/token.go:299-309 | until a key's windows change again, every reservation admitted for it holds tokens in exactly the published windows |
| TokenTheorems.RejectedBeforeReset | internal/limiter/token.go:316-350 | a rejection with a reset time stands at every time before it |
| TokenTheorems.AdmittedAtReset | internal/limiter/token.go:316-350 | at the reset the request is admitted exactly when its windows can be located there, for an amount that fits every window with no later bucket in the books |
| TokenTheorems.LoadEstablishesInv | internal/limiter/token.go:154-187 | loading durable rows into an empty limiter starts the invariant |
| TokenTheorems.LoadedBuckets | internal/limiter/token.go:166-185 | every loaded bucket is aligned, in a window that is not over, non-negative and without active tokens |
| TokenTheorems.LoadRestoresRows | internal/limiter/token.go:166-185 | a load that succeeds restores the committed tokens of every row whose window is not over |
| TokenLaws.RowIff | internal/limiter/token.go:154-187 | which durable rows are well formed, and which of them are restored |
| TokenLoading.LoadSucceedsIff | internal/limiter/token.go:154-187 | a load succeeds exactly when every row is well formed and the rows whose window is not over name different new buckets |
| TokenLoading.LoadAsDocumentedIff | internal/limiter/token.go:151-187 | its answer is the documented one exactly when the rows are refused anyway or none is expired or above its amount |
| TokenLoading.FailedLoadUnchangedIff | internal/limiter/token.go:166-185 | a failed load keeps the rows before the first bad one, and changes nothing exactly when none of those is in a window that is not over |
| TokenLoading.FailureHasFirstBad | internal/limiter/token.go:166-185 | every failed load has such a row |
| TokenLoading.OverLimitRowIsLoaded | internal/limiter/token.go:166-185 | a row above its window's amount that is loaded |
| TokenLoading.FailedLoadKeepsRows | internal/limiter/token.go:166-185 | a load that fails and keeps a row |
| TokenLimiter.TokenLimiter.Reserve | internal/limiter/token.go:286-358 | the state and the answer are those of the book's admission, which `TokenLaws.AdmittedIff` and `RejectedUntil` spell out |
| TokenLimiter.CheckWindows | internal/limiter/token.go:310-350 | whether every window can be located and takes the amount, and the latest reset among the windows worth waiting for |
| TokenLimiter.HoldAll | internal/limiter/token.go:352-356 | the estimate is held in exactly the captured buckets |
| TokenLimiter.TokenLimiter.Finalize | internal/limiter/token.go:468-546 | the buckets move as the book's settlement says; which deltas are published, and when an error is reported |
| TokenLimiter.ReleaseAll | internal/limiter/token.go:515-544 | every captured bucket that exists is released and charged, empty ones deleted, missing ones not recreated |
| TokenLimiter.FindFault | internal/limiter/token.go:486-505 | finds a fault exactly when a captured bucket is missing, short or would overflow |
| TokenLimiter.TokenLimiter.AdjustCharge | internal/limiter/token.go:552-632 | state, error and published deltas are those of the book's adjustment |
| TokenLimiter.TokenLimiter.ReplacePolicy | internal/limiter/token.go:226-255 | the windows are published exactly when no dropped window carries tokens and a commit succeeds |
| TokenLimiter.TokenLimiter.LoadCommitted | internal/limiter/token.go:154-187 | the rows before the first bad one are loaded; the clock is set only when all are |
| TokenLimiter.SameWindowSet | internal/limiter/token.go:360-370 | equal sizes and membership of each window decide equality of the sets |
| TokenReservations.Reserve | internal/limiter/token.go:286-358 | a reservation with buckets stands for the new entry of the run |
| TokenReservations.TokenReservation.Finalize | internal/limiter/token.go:394-466 | the first terminal call is the run's settlement step; later calls change nothing and repeat its error |
| TokenReservations.TokenAdjustmentTicket.Adjust | internal/limiter/token.go:548-632 | the first call is the run's adjustment step; later calls change nothing and repeat its error |
| TokenReservations.TokenAdjustmentTicket.Invalidate | internal/limiter/token.go:639-650 | an unused ticket is given up, a used one is left alone; the buckets are untouched |
| RequestLimiter.NeverMoreThanAmount | internal/limiter/request.go:63-132 | for any clock readings, keys and window lists, the requests admitted in one epoch-aligned slot never exceed the window's amount |
| RequestLimiter.RejectionConsumesNothing | internal/limiter/request.go:110-125 | a rejected request leaves the count of every window's current slot as it was |
| RequestLimiter.ResetIsTight | internal/limiter/request.go:98-126 | a rejected request is rejected at every time before the reported reset and admitted at it |
| RequestLimiter.CountersNeverAhead | internal/limiter/request.go:175-221 | with a clock that reads no time before 1970 no counter is ahead of the clock, in every reachable state |
| RequestLimiter.RetryAfterIsTight | internal/limiter/request.go:153-170 | waiting the reported delay is never early exactly while the difference is representable, and one second less would be (Retry-After, section 10.2.3 of RFC 9110) |
| RequestLimiter.DecideIff | internal/limiter/request.go:110-126 | admitted exactly when no window is full, otherwise the latest reset of the full ones |
| RequestLimiter.AdmittedIff | internal/limiter/request.go:63-132 | after any calls, with a clock that reads no time before 1970: admitted if and only if the windows are well formed and in the current slot of each fewer requests of the key were admitted than it allows; otherwise the latest end of the used-up slots |
| RequestLimiter.RequestLimiter.Allow | internal/limiter/request.go:63-132 | counts, clock and answer are those of the specification |
| RequestLimiter.LatestReset | internal/limiter/request.go:110-120 | the latest reset among the exhausted windows, if any |
| Concurrency.CountsMatchLeases | internal/limiter/concurrency.go:37-169 | in every interleaving of the two-step releases, from an empty limiter on, the count of a key is the number of its counted leases whose slot is not back yet |
| Concurrency.NeverAboveMaximum | internal/limiter/concurrency.go:37-67 | with one maximum per key, a key never has more slots out |
| Concurrency.AcquiredIff | internal/limiter/concurrency.go:37-67 | a lease is given if and only if no maximum is set or fewer leases of the key than the maximum still have their slot; only that key's count rises, by one |
| Concurrency.PromotedIff | internal/limiter/concurrency.go:105-131 | in every reachable state a slot that is held and unclaimed can be promoted for its own key, and otherwise only an uncounted one without a maximum |
| Concurrency.ReturnedOnce | internal/limiter/concurrency.go:136-169 | a released slot is counted down once, in its key and no other |
| Concurrency.ReturnedIsFinal | internal/limiter/concurrency.go:71-169 | a returned slot is never returned again |
| Concurrency.ReturnUndoesAcquire | internal/limiter/concurrency.go:37-169 | giving a slot back right after taking it restores the states exactly |
| Concurrency.ConcurrencyLimiter.Acquire | internal/limiter/concurrency.go:37-67 | a lease exactly when there is room or no maximum; a refusal changes nothing |
| Concurrency.Lease.Release | internal/limiter/concurrency.go:71-83 | returns the slot once, and not at all once the lease was adopted |
| Concurrency.Lease.AdoptFor | internal/limiter/concurrency.go:105-131 | adopts exactly a live lease of that limiter and key |
| Concurrency.Lease.ReleaseOwned | internal/limiter/concurrency.go:136-148 | returns the slot once, also after adoption |
| LeaseAdmission.ReleaseUndoesReserve | internal/limiter/lease.go:243-259 | releasing a token reservation just made leaves every unexpired bucket as it was |
| LeaseAdmission.RefusedBudgetUnchanged | internal/limiter/budget.go:538-684 | a refused budget admission changes no account but drops past periods with nothing active |
| LeaseAdmission.ResourceLeaseCoordinator.Acquire | internal/limiter/lease.go:144-276 | admitted exactly when slot, tokens and budget all admit, otherwise the first refusal in that order is reported with its resource, reset time and validity; a failure leaves counts, buckets and accounts as they were and publishes no delta |
| LeaseAdmission.ResourceLeaseCoordinator.AcquireWithProvisional | internal/limiter/lease.go:176-187 | admitted exactly when the slot can be promoted and tokens and budget admit, otherwise the exact error; a refused adoption changes nothing, and after adoption a failure returns the provisional slot exactly once |
| LeaseAdmission.ResourceLeaseCoordinator.FinishAdmission | internal/limiter/lease.go:224-276 | tokens and budget both change as their own admissions say, or are rolled back together with the slot, with the exact error |
| LeaseLaws.TokensRefuseIff | internal/limiter/lease.go:224-240 | when the token stage refuses, in terms of the buckets and the windows |
| LeaseLaws.TokensRefusedUntil | internal/limiter/lease.go:226-239 | what it reports: only a negative amount as invalid, and otherwise the latest reset worth waiting for |
| LeaseLaws.BudgetRefusesIff | internal/limiter/lease.go:242-282 | when the budget stage refuses, in terms of the accounts and the limits, and what it reports: resets of exceeded limits, everything else as invalid |
| LeaseFinish.OneOutcome | internal/limiter/lease.go:344-428 | in every interleaving of terminal calls one caller settles the children in order with the outcome it asked for, each child once and the slot once, and all callers get the same report: the errors the children answered, and their tickets exactly for children settled as deferred |
| LeaseFinish.OutcomeCharges | internal/limiter/lease.go:370-411 | what each outcome charges in both limiters (nothing, the estimates, or the known amounts that can be recorded) and which of them keeps a ticket |
| LeaseFinish.SomeoneCanMove | internal/limiter/lease.go:348-364 | no caller waits for ever: while one has not returned, some caller can step |
| LeaseRuns.AllOrNothing | internal/limiter/lease.go:144-276 | in every interleaving of admissions, terminal calls, tickets and policy changes, an admitted request has the slot, all windows and all scopes it asked for; a refused one has no budget, a token reservation closed at zero, if any, and its slot back |
| LeaseRuns.FailedAcquireLeavesNothing | internal/limiter/lease.go:224-276 | then every bucket and count is that of the other requests, whatever was or will be interleaved |
| LeaseRuns.NothingLeaks | internal/limiter/lease.go:144-428 | once every request was refused or finished, nothing is active in any window, no slot is taken, and the only budget held is that of settlements refused for their range |
| LeaseReports.CallersGetTheTickets | internal/limiter/lease.go:344-428 | in every run of the whole machine every caller of a finished lease gets a ticket for exactly the children the outcome deferred, of the lease's own reservations, so that an entry has an outstanding ticket only if the callers hold it; a budget settlement that did not take place is an error and no ticket |
| PolicyUpdate.AdminKeyService.UpdatePolicy | internal/httpserver/admin.go:343-458 | the exact condition of success; then durable row, budget policy, token windows and snapshot all become the new ones, otherwise none changes; buckets, accounts and generations are kept |
| PolicyUpdate.AdminKeyService.ReplaceAll | internal/httpserver/admin.go:408-447 | the nested replacement goes through exactly when tokens allow it, the budget expects it and the row is written |
| PolicyUpdate.SamePolicyMeansEqual | internal/limiter/budget.go:1243-1257 | sameBudgetPolicy is equality on valid policies |
| PolicyUpdate.EnforcedLimitsStay | internal/limiter/budget.go:553-572 | an unregistered key refuses exactly the admissions that drop or change a limit its record enforces |
| Glob.Matches | internal/modelmatch/modelmatch.go:152-168 | the row-by-row table decides the declarative semantics, for every pattern and value |
| Glob.TokenMatches | internal/modelmatch/modelmatch.go:170-194 | a question mark or class never takes a slash; a class is its ranges, negated or not |
| Glob.CollapsePreservesMatches | internal/modelmatch/modelmatch.go:55-58 | collapsing adjacent stars keeps the set of matched values |
| GlobKey.CanonicalIsUnique | internal/modelmatch/modelmatch.go:216-232 | sorted merged ranges are determined by the code points they cover |
| GlobKey.Merge | internal/modelmatch/modelmatch.go:223-232 | the merge gives separated ranges in order that cover the same code points |
| GlobKey.EncodeIsInjective | internal/modelmatch/modelmatch.go:196-241 | keys decode uniquely although their runes are not escaped |
| GlobKey.KeysSoundAndComplete | internal/modelmatch/modelmatch.go:196-241 | two keys are equal exactly when the token lists agree, each class taken as its negation and its set of code points |
| GlobKey.EqualKeysMatchAlike | internal/modelmatch/modelmatch.go:148-168 | equal keys match the same values |
| GlobKey.CanonicalKey | internal/modelmatch/modelmatch.go:196-241 | the loop writes a key in that sense for every token list |
| GlobCompile.Compile | internal/modelmatch/modelmatch.go:41-81 | accepts exactly the sources of the grammar, with its tokens, a canonical key and the exact flag |
| GlobCompile.ParseClass | internal/modelmatch/modelmatch.go:83-115 | accepts exactly the classes of the grammar |
| GlobCompile.CompileKeepsMeaning | internal/modelmatch/modelmatch.go:41-81 | a compiled selector matches what its tokens match with every star kept |
| GlobCompile.ExactMatchesOnly | internal/modelmatch/modelmatch.go:137-146 | an exact selector matches its exact value and nothing else |
| GlobCompile.EscapeRoundTrips | internal/modelmatch/modelmatch.go:48-53 | a value with its metacharacters escaped compiles to the selector of that value alone |
| GlobPrint.PrintRoundTrips | internal/modelmatch/modelmatch.go:41-129 | every list of tokens with non-empty classes can be written, in every quoting style, and its source compiles back to it, with runs of stars collapsed, and matches what it matches |
| GlobPrint.ScannedIsWritable | internal/modelmatch/modelmatch.go:83-115 | nothing else compiles: no accepted class is empty or has a range that is |
| Pricing.Validate | internal/accounting/pricing.go:208-230 | accepts a table exactly when no two exact and no two glob selectors share a key and every rule is valid |
| Pricing.RulesDiffer | internal/accounting/pricing.go:105-127 | no two rules of a validated table select by the same tokens |
| Pricing.NewPricingResolver | internal/accounting/pricing.go:273-291 | the index holds exactly the exact rules by value, and the globs in declaration order |
| Pricing.Resolve | internal/accounting/pricing.go:293-306 | the exact rule that matches, otherwise the first glob that does, otherwise none |
| Pricing.PickedIsUnique | internal/accounting/pricing.go:273-306 | that rule is unique in a validated table |
| Completion.ExactlyOnce | internal/httpserver/completion_ownership.go:40-166 | the record is decided at most once, never before completion, and always once completed and, if handed over, finished |
| Completion.RunKeepsInv | internal/httpserver/completion_ownership.go:40-166 | in every interleaving what is emitted carries the one enrichment there is |
| Completion.RecordCarriesObservation | internal/httpserver/completion_ownership.go:40-166 | the emitted record carries what the first observation to end added, if and only if it was handed over or the observation ended before the handler completed |
| Completion.CompletionOwnership.Transfer | internal/httpserver/completion_ownership.go:40-51 | refused exactly after completion |
| Completion.CompletionOwnership.Finish | internal/httpserver/completion_ownership.go:59-83 | one step of the protocol, with the record to emit if it decides |
| Completion.CompletionOwnership.Complete | internal/httpserver/completion_ownership.go:146-166 | one step of the protocol, with the record to emit if it decides |
| UsageWorker.WorkerInvariant | internal/httpserver/usage_observation.go:282-530 | in every interleaving from a new worker: free slots plus slots on their way back plus queue plus submitters holding a slot equals the capacity, the queue lists the queued jobs once, one job is in hand at most, and ended jobs have finished their completion |
| UsageWorker.HoldersNeverFindItFull | internal/httpserver/usage_observation.go:509-529 | a submitter with a slot always finds room in the queue |
| UsageWorker.SubmittedIff | internal/httpserver/usage_observation.go:481-530 | a job gets a slot if and only if the capacity is not taken up, and is queued if and only if the worker accepts; otherwise it is rejected with its slot given back |
| UsageWorker.EndsOnce | internal/httpserver/usage_observation.go:282-530 | a job is rejected, discarded or processed once, and that never changes |
| UsageWorker.NothingLeftBehind | internal/httpserver/usage_observation.go:725-800 | when the worker has ended every job handed to it has ended and finished its completion |
| UsageWorker.EveryJobCanEnd | internal/httpserver/usage_observation.go:282-447 | wherever handlers, Shutdowns and Drains are, the worker on its own brings every queued job and the one in hand to its end |
| UsageWorker.ShutdownFinishesJobInHand | internal/httpserver/usage_observation.go:725-755 | a Shutdown called while a job is in hand has finished that job's completion before it stops the worker, whatever is interleaved |
| UsageWorker.NoAdjustmentAfterShutdown | internal/httpserver/usage_observation.go:725-755 | no adjustment is begun after a Shutdown has timed out |
| Observation.HandedRecordsAreEmitted | internal/httpserver/usage_observation.go:282-800 | in every interleaving of handlers, worker, Shutdowns and Drains a record handed over is emitted at most once, with an observation and only after completion, and once the worker has ended every completed one is |
| UsageWorker.AdjustmentAfterDrainIff | internal/httpserver/usage_observation.go:761-784 | while a Drain waits, some run times it out and begins an adjustment later exactly when the phase is not terminal and at least two jobs are queued or in hand |
| UsageWorker.DrainRace | internal/httpserver/usage_observation.go:774-782 | the run: the adjustment ends between the two swaps and the next job is claimed before the second |
| UsageWorker.DrainRaceIsReachable | internal/httpserver/usage_observation.go:761-784 | such a waiting Drain is reached from a new worker with two jobs |
| Coordinator.CoordinatorInvariant | internal/analytics/coordinator.go:46-211 | in every interleaving over all coordinators of a gate, from their construction on: orders list exactly the cached keys within the bound and by last use, flights and in-flight keys correspond, and the gate counts the running flights within its capacity |
| Coordinator.NoKeyTwice | internal/analytics/coordinator.go:185-211 | no key is listed twice |
| Coordinator.OneLeaderPerKey | internal/analytics/coordinator.go:137-160 | a key of a coordinator has at most one running flight |
| Coordinator.EvictsLeastRecentlyUsed | internal/analytics/coordinator.go:199-205 | only when full, and then the key whose last use is before that of every key that stays |
| Coordinator.StoredKeeps | internal/analytics/coordinator.go:199-211 | storing keeps the cache valid, caches the new value as the most recently used, and keeps every other entry except, when a new key finds the cache full, exactly the least recently used |
| Coordinator.EnterAnswers | internal/analytics/coordinator.go:122-160 | a hit if and only if a value is cached that is no older than the time to live, and then that value; else joining if and only if the key has a flight; else refused if and only if every slot is taken; else leading. A hit was obtained by a leader for that key, and a joined flight runs for it |
| Coordinator.EnterCaches | internal/analytics/coordinator.go:122-134 | asking drops the key's entry exactly when it is too old, keeps all others, and a hit makes it the most recently used |
| Coordinator.StoredIsAHit | internal/analytics/coordinator.go:122-178 | over every run, what a leader stored is what every later caller of the key gets within the time to live, until it is stored anew, evicted or asked for too late |
| Coordinator.AnswerStoresIff | internal/analytics/coordinator.go:163-178 | an ending leader frees its key and no other, leaves its answer to its followers, and caches its value if and only if the query succeeded and it was not canceled |
| Coordinator.Coordinator.Begin | internal/analytics/coordinator.go:121-160 | the first locked region of Do is the protocol's step, whose four answers `EnterAnswers` gives exactly |
| Coordinator.Coordinator.FreeSlot | internal/analytics/coordinator.go:165-166 | the second locked region of Do gives the slot back first, and other coordinators may take it |
| Coordinator.Coordinator.End | internal/analytics/coordinator.go:167-178 | the rest of that region is the protocol's next step |
| Coordinator.Coordinator.SetCache | internal/analytics/coordinator.go:199-211 | the eviction loop stores as the specification says |
| Coordinator.RemoveKey | internal/analytics/coordinator.go:190-197 | removes the first occurrence and nothing else |
| Coordinator.Gate.TryAcquire | internal/analytics/coordinator.go:46-54 | a slot exactly when one is free |

## Left out

- HTTP handlers, routing, readiness, metrics, configuration, sessions and the web client: no deep invariant.
- SQL text, migrations and encryption: the durable rows are an abstract map with an atomic guarded update.
- JSON, YAML, gzip and event-stream parsing: parsed usage, policies and tables are inputs.
- Planning of reservations (internal/accounting/reservation.go, internal/accounting/budget.go): plans enter as counts and rates.
- The token accumulator and its durable rows: the budget path is modelled, the token path would repeat it without the no-debt guard.
- Wrap-around of the 64-bit generation counter of budget states, and addresses of state objects, which are modelled by that generation (budget) or by a fresh number (concurrency).
- Budget clock readings before February of year 1, token clock readings before year 1, and request clock readings outside the range of UnixNano.
- Nil receivers, and malformed periods or period starts in rows and deltas: a scope is a type of its own here, so those rejections have no counterpart.
- Timers and retry back-off: a retry is another flush at any later time, a timeout is a step that may happen at any time.
- The retry loop of Coordinator.Do after a cancelled leader: each attempt is a step of its own.
- ResourceLease.finish as a method: concurrent callers are the point of it, so it is the machine of LeaseFinish, over values.
- Invalid UTF-8: model names and selectors are sequences of Unicode scalar values.
- RetryAfterSeconds inside an admission error, and the accessors and aliases of the limiters.
- LeaseAdmission.ResourceLeaseCoordinator.Acquire: states what one admission does when no other call comes between its stages; with other calls between them it is `AllOrNothing` and `FailedAcquireLeavesNothing`.
- LeaseAdmission.ResourceLeaseCoordinator.AcquireWithProvisional: likewise, for one admission.
- LeaseAdmission.ResourceLeaseCoordinator.FinishAdmission: likewise, for one admission.
- TokenLimiter.TokenLimiter.ReplacePolicy: checks and publishes in one step; the steps that may come between the two are in `ReplacementHoldsAcrossCommit`.
- BudgetLimiter.BudgetLimiter.LoadSpent: generations of new keys are given in row order, where the source iterates over a map; which number a key gets is not observable.
- LeaseReports.CallersGetTheTickets: leaves open which error the tokens answered; when there is one is in `TokenLimiter.Finalize`, and that the callers get it in `OneOutcome`.
