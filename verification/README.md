# A verified model of the trading backend's deterministic core

The repository is a Go backend that turns agent proposals into crypto orders. This project models
the parts of it whose behaviour is decided by logic rather than by input and output, and proves what
they promise. Everything is stated for all inputs, all runs or all interleavings.

* **Sizing.** `LeverageModel` (internal/risk/leverage.go), `RiskEngine` (internal/risk/engine.go),
  `SizingModel` and `SizingLoop` (internal/orchestrator/leverage.go): the leverage step that fits a margin budget, the
  nineteen off-chain rules, and the loop in which the two feed each other while the venue's preflight
  answers arbitrarily.
* **Order journal.** `OrderMachine`, `OrderLog`, `Compaction`, `JournalRuns` and `OrderJournal`
  (internal/orders, internal/persistence/repository.go): events, replay, compaction, persist before
  apply, and crash recovery over whole runs; the journal and its store as objects changed in place.
* **Order lifecycle.** `ProtectionRules`, `OrderMoves`, `OrderService`, `ReduceOnly`, `Remediation`,
  `EntryOrders`, `ReconcileRules` and `OrderReconcile` (internal/orchestrator): recording an execution,
  restoring protection, flattening, a whole entry order, and reconciliation, as methods that drive that
  journal against a venue that answers arbitrarily.
* **State file.** `FileStore` (internal/persistence/file.go): replacing a file through a backup when any
  call may fail and the process may die after any of them.
* **Exact decimals.** `Decimals`, `DecimalText` (internal/contracts/decimal.go) and `OrderSize`
  (internal/venue): arithmetic, correctly rounded division, the parser and the printer, and OKX order sizes.
* **Concurrent protocols and indexes.** `LockTable` and `SymbolLocks` (internal/runtime/symbols.go),
  `ApprovalResults`, `ApprovalGate` and `PendingApprovals` (internal/approval/pending.go), `UsageLog`,
  `UsageBudget` and `TokenUsage` (internal/tokenusage/tracker.go), `Combinations`
  (internal/backtest/validation.go).

Where the program changes objects step by step, the model has a class or a method with loops, proved
equal to a specification function or step; the properties are lemmas about those. The venue, the clock,
the store's failures and the disk's failures are parameters, functions without any assumption about them.

Three places where the code falls short of what it is for:

* The budget guarantee of `Reserve` has three limits (internal/tokenusage/tracker.go:117-199). It reads
  the clock before it takes the lock, so around midnight a caller that read yesterday's date can enter
  after one that read today's, and each drops the other day's reservations. A call is stamped before
  `Reserve` reads the clock (internal/llm/client.go:231-250), so there too it can be reserved on one day
  and recorded on another. And only the usage that is still in memory counts: a retention shorter than a
  day (every positive one is accepted, and a day with a clock change has 25 hours) prunes usage of a day
  that is still reserved on. Everything recorded and granted stays within the budgets in every run in
  which calls keep to the amounts and the day of their reservation and no day comes back after another
  day or after one of its events was pruned (`UsageBudget.NoOvershoot`); a retention of at least the
  longest day rules the last case out (`UsageBudget.NoOvershootWhileDaysAdvance`). No condition on the
  days can be dropped: `UsageBudget.RevisitedDayOvershoots` has an overshooting run for every order of
  times in which a day comes back, `UsageBudget.ForgottenDayOvershoots` for every two times of one day
  between which the earlier one is pruned, `UsageBudget.MisdatedCallOvershoots` for every call recorded
  on another day than it was reserved on.
* Reconciliation names its events by client and status alone
  (internal/orchestrator/order_reconcile.go:132). For an order that takes a status a second time the
  journal therefore finds the event already there: with the same content it changes nothing and reports
  nothing, with another it refuses. A return without discrepancy and error settles an order exactly if
  the event that would settle it does not repeat an applied one (`OrderReconcile.ReconcileOrders`). That
  is so for every order that did not become unknown after flattening
  (`ReconcileRules.NeverLostIsNotRepeated`), a change that the status table allows and no caller makes;
  `ReconcileRules.LostOrderRepeats` has a replayable journal with such an order.
* `recoverInterruptedReplace` ignores an inspection error of the destination other than "does not exist"
  (internal/persistence/file.go:337-353). If the destination is missing and its inspection fails that way
  while a backup exists, the start succeeds with an empty state: a start holds the store's content exactly
  except there (`FileStore.Open`), and what it misses is `FileStore.HiddenBackupIsLost`.

## Model

| member | source | states |
|---|---|---|
| LeverageModel.DecimalMax | internal/risk/leverage.go:155-163 | the loop returns a member of the values that none of them exceeds |
| LeverageModel.FloorIsGreatest | internal/risk/leverage.go:172-174 | rounding down gives the greatest step multiple not above the value, up to the slack |
| LeverageModel.CeilIsLeast | internal/risk/leverage.go:176-178 | rounding up gives the least step multiple that reaches the value, up to the slack |
| LeverageModel.StressBufferIsMaximum | internal/risk/leverage.go:47-153 | the required buffer is the largest of the three stress distances plus the reserve |
| LeverageModel.FinancingIsOptimal | internal/risk/leverage.go:47-153 | a success finances min(proposed, margin budget times safe leverage) with the least step covering the minimum leverage and notional/budget; the safe leverage is the greatest step within the cap and 1/buffer |
| LeverageModel.MaxNotionalIsCapacity | internal/risk/leverage.go:47-153 | the cap on the notional is the greatest notional that the margin budget carries at any leverage step within the venue cap and the stress distance |
| LeverageModel.MarginWithinBudget | internal/risk/leverage.go:47-153 | margin times leverage is the notional, and the margin stays in the budget up to the slack |
| LeverageModel.SelectedKeepsStressDistance | internal/risk/leverage.go:47-153 | the selected leverage is at most the safe one and leaves the whole stress buffer, up to the slack (entirely, without it) and, for steps of at most 1e-9, the comparison tolerance |
| LeverageModel.FailsExactlyWhenMinimumDoesNotFit | internal/risk/leverage.go:47-153 | inputs that pass the argument checks fail if and only if the minimum leverage, as it is or rounded up, exceeds the safe leverage by more than 1e-9; for steps above 1e-9 that is a comparison of whole steps |
| LeverageModel.AcceptedExactly | internal/risk/leverage.go:47-73 | which inputs pass the argument checks, bound by bound |
| LeverageModel.ExactStepsAreFinanced | internal/risk/leverage.go:47-153 | a notional that a whole number of steps finances exactly is not rounded to a higher step |
| RiskEngine.CollectRejects | internal/risk/engine.go:94-159 | the first loop collects the rejecting rules in order |
| RiskEngine.CollectDownsizes | internal/risk/engine.go:94-159 | the second loop collects the downsizing rules and the tightest bound |
| RiskEngine.AssessByLoops | internal/risk/engine.go:94-159 | the loops compute the specified assessment |
| RiskEngine.PassesExactlyOnCondition | internal/risk/engine.go:165-458 | every rule passes if and only if the limit it enforces holds, with all quotients multiplied out |
| RiskEngine.ApprovedExactlyWithinLimits | internal/risk/engine.go:94-159 | an opening order is approved if and only if the condition of every rule holds |
| RiskEngine.FlatOrderIsAssessed | internal/risk/engine.go:94-159 | an order that opens nothing is approved if and only if the venue's slippage and price impact are within their limits, rejected by exactly the exceeded ones otherwise, and never cut |
| RiskEngine.RuleRescales | internal/risk/engine.go:236-266 | at a smaller size a rule rejects as before, and downsizes to the same bound exactly if the size is above it |
| RiskEngine.RejectsWhenNothingFits | internal/risk/engine.go:236-458 | a rule that leaves room for an order rejects if and only if it would pass no positive size; otherwise it cuts to a positive size that it passes |
| RiskEngine.AdjustedSizeIsGreatestApproved | internal/risk/engine.go:94-159 | a smaller size is approved if and only if it is at most the adjusted size, and re-assessing at the adjusted size approves |
| RiskEngine.RejectionPersists | internal/risk/engine.go:94-159 | a rejected order stays rejected, for the same reasons, at every smaller positive size |
| SizingLoop.ReassessExecutableProposal | internal/orchestrator/leverage.go:77-124 | the loop, with the program's slack, computes the specified run: a result that is not rejected is approved as returned, and every result is what the model makes of some smaller or equal order of the same trade |
| SizingModel.ModelByFields | internal/orchestrator/leverage.go:14-68 | in the proposal's and the limits' own fields: every order but an opening perpetual one gets leverage one and no plan; a perpetual one the buffer that is the largest of its three distances plus the reserve, the least leverage step for the existing leverage and the notional over budget, and the smaller of what was asked and the capacity; every error exactly when it occurs |
| SizingLoop.ModelOnlyShrinks | internal/orchestrator/leverage.go:14-68 | the leverage model never enlarges an order and rewrites only size, leverage and plan |
| SizingLoop.LoopConverges | internal/orchestrator/leverage.go:77-124 | for any preflight answers the loop never fails to converge: at most three rounds, at most two without slack |
| SizingLoop.LoopOnlyShrinks | internal/orchestrator/leverage.go:77-124 | the loop never enlarges an order and never changes the trade |
| SizingLoop.LoopResult | internal/orchestrator/leverage.go:77-124 | a result that is not rejected is approved by the engine at exactly the returned size and leverage, and is labelled downsized exactly if it was cut |
| SizingLoop.LoopIsModelled | internal/orchestrator/leverage.go:77-124 | every result without an error is what the model makes, in those fields, of some order of the same trade, not larger and with the volatility it was planned with |
| OrderMachine.HistoryShape | internal/orders/machine.go:14-97 | a legal history ends at its first terminal status and is New only at its start |
| OrderMachine.TableByTarget | internal/orders/machine.go:14-97 | a change is legal if and only if its source is among those the target is entered from |
| OrderMachine.LifeIsBounded | internal/orders/machine.go:14-60 | without a lost answer or a repeated partial fill an order passes at most ten statuses |
| OrderLog.StepsStayCoherent | internal/orders/journal.go:128-193 | no event, valid or not, stored or not, breaks the legality of an order's history, or leaves an applied event outside it |
| OrderLog.ReplayIsCoherent | internal/orders/journal.go:247-255 | every replayed order has a legal history that ends in its status |
| OrderLog.ReplayAppliesLog | internal/orders/journal.go:247-255 | the applied ids after a replay are exactly the ids of the log |
| OrderLog.ReplayKeepsHistories | internal/orders/journal.go:247-255 | with distinct ids an order exists if and only if it has events, and its history is exactly those events |
| OrderLog.RetryIsIgnored | internal/orders/journal.go:138-143 | an equivalent event read again, under any timestamp, changes nothing |
| Compaction.GroupByClient | internal/persistence/repository.go:463-473 | the tally holds each client's count, last time and terminality |
| Compaction.SortedCandidates | internal/persistence/repository.go:474-485 | the candidates are all terminal clients, ordered by last event and then by client |
| Compaction.Discard | internal/persistence/repository.go:486-494 | the sweep discards exactly the specified removal |
| Compaction.CompactOrderEvents | internal/persistence/repository.go:453-505 | the result is the log without a removal: terminal clients only, oldest first, none without need, enough to fit if terminal ones suffice |
| Compaction.RemovalIsUnique | internal/persistence/repository.go:453-505 | these requirements determine the removal |
| Compaction.RemovesOldestFirst | internal/persistence/repository.go:463-494 | in the log's own events: a removed client's last event is terminal, and whoever finished before it, by time and then id, is removed too |
| Compaction.KeepsHistoriesWhole | internal/persistence/repository.go:450-452 | each client's history is kept whole or dropped whole |
| Compaction.CompactionPreservesReplay | internal/persistence/repository.go:450-505 | the compacted log replays to the original orders and applied events, restricted to the surviving clients |
| Compaction.RemovedOrdersAreTerminal | internal/persistence/repository.go:450-505 | a dropped order replays as terminal |
| Compaction.CompactedFits | internal/persistence/repository.go:486-494 | a compacted log above its limit holds no terminal order any more |
| JournalRuns.NewEventIsNotStored | internal/persistence/repository.go:410-418 | an event that memory has not applied is not in the store, so its append fails only with the write |
| JournalRuns.StepStaysRecoverable | internal/orders/journal.go:61-193 | one step of the journal, crash or restart keeps memory and log in agreement |
| JournalRuns.RunsAreRecoverable | internal/orders/journal.go:61-193 | in every run the log replays, replayed orders equal the in-memory ones, orders missing from the store are terminal, all histories are legal |
| JournalRuns.RestartRestoresOpenOrders | internal/orders/journal.go:61-78 | a crash at any moment is followed by a successful restart that has every open order, unchanged, and no order that was not there |
| JournalRuns.StoredEventSurvives | internal/orders/journal.go:147-154 | an event stored just before the process died is there after the restart |
| JournalRuns.FailedWriteChangesNothing | internal/orders/journal.go:147-152 | an event whose write failed leaves memory and log as they were |
| OrderJournal.Repository.AppendOrderEvent | internal/persistence/repository.go:405-422 | the append is idempotent by id, refuses a reused id, and is all or nothing |
| OrderJournal.OrderRecord.Advance | internal/orders/journal.go:186-192 | an order in place takes the event's status and result and keeps its history |
| OrderJournal.Journal.ApplyLocked | internal/orders/journal.go:176-193 | the maps and records in place become the specified view |
| OrderJournal.Journal.Apply | internal/orders/journal.go:128-156 | result, new view and new log are those of one step of the run model, and the object's invariant is kept |
| OrderJournal.Journal.Orders | internal/orders/journal.go:227-242 | every order once, by its last event newest first, ties by client |
| OrderJournal.Journal.Unresolved | internal/orders/journal.go:209-223 | exactly the orders that are neither terminal nor protective_placed, by client |
| OrderJournal.ReplayEvents | internal/orders/journal.go:247-255 | the loop builds the specified view or stops with its first error |
| OrderJournal.OpenDurable | internal/orders/journal.go:61-78 | opening a replayable store never fails and yields a journal that agrees with it |
| ProtectionRules.ProtectionSatisfied | internal/orchestrator/protection.go:208-248 | the two flags decide whether the stop and the first target are each reported at their price by an order that is reduce-only and, on the strict venue, the intent's own and large enough |
| ProtectionRules.ProtectionFailsClosed | internal/orchestrator/service.go:868-902 | the recorded status is protective_placed if and only if a position opened and the report satisfies it, protective_failed if and only if it opened, asked and does not; every step is in the status table |
| ProtectionRules.RecordedAsReported | internal/orchestrator/service.go:868-902 | in the report's own fields: without a position the reported status if a submission can have it, else unknown; with one protective_placed if what was asked is reported, protective_failed if not, and as reported for an order that only reduces |
| ProtectionRules.SmallerFillStaysProtected | internal/orchestrator/protection.go:208-248 | a report that protects a fill protects every smaller fill |
| OrderMoves.LegalEventMoves | internal/orders/journal.go:128-193 | a fresh event for a legal change is refused by nothing but the store |
| OrderMoves.ChangeOrNothing | internal/orders/journal.go:128-193 | a status change without an error repeats an applied event and changes nothing, or is a fresh legal change that was made; with an error it changes nothing |
| OrderService.Service.Transition | internal/orders/journal.go:107-122 | no order is opened or lost, only the named order changes; without an error the event repeats an applied one or a fresh legal change was made, with one nothing changed, and a fresh legal change happens exactly if it is stored |
| OrderService.Service.RecordExecution | internal/orchestrator/service.go:868-887 | without an error a submitted order ends where the fields of the report put it; the status table refuses none of the steps, whatever the store does |
| ReduceOnly.BeginSubmission | internal/orchestrator/reduce_only.go:34-41 | without an error, which a store that takes both writes never causes, an order that did not exist is submitting with its result ids unused; an error freezes new positions; no other order changes |
| ReduceOnly.FailSubmission | internal/orchestrator/reduce_only.go:42-53 | a failed placement ends failed, or unknown with new positions frozen |
| ReduceOnly.ExecuteReduceOnly | internal/orchestrator/reduce_only.go:16-59 | an order that is not reduce-only or has no id is refused and changes nothing; otherwise the close order ends recorded with its result, failed, or unknown with new positions frozen; no other order changes |
| ReduceOnly.CompleteReduceOnly | internal/orchestrator/reduce_only.go:63-89 | the close order is closed with its result, and so is every other order of its symbol and instrument that took a position; all others are untouched; an error freezes new positions |
| Remediation.FlattenPosition | internal/orchestrator/protection.go:121-203 | the order is closed if and only if the venue shows no position in its market and clears its protection, or fills the close of the first one there and is verified flat; else it stays in flattening |
| Remediation.TryProtection | internal/orchestrator/protection.go:54-87 | the attempts succeed if and only if one of at most two placements is read back as satisfying |
| Remediation.RemediateProtection | internal/orchestrator/protection.go:36-115 | whatever the store does, no error only for a verified, protected order and frozen otherwise; if all writes are stored, no error if and only if a verified report satisfied the request, else closed or flattening |
| EntryOrders.SettleEntry | internal/orchestrator/service.go:737-753 | recording and remediation under one run id: without an error the order is where the report puts it, or protected again, whatever the store does; every error freezes; if all writes are stored the end is the specified one |
| EntryOrders.ExecuteEntry | internal/orchestrator/service.go:710-753 | from a run of which nothing was journaled: a failed placement ends failed, or unknown and frozen; an answered one is settled so |
| EntryOrders.OpenedEntryIsProtected | internal/orchestrator/service.go:862-887 | an entry that opened a position and asked for protection ends protected if and only if the report or a remediation verified it, else frozen and closed, or flattening exactly if the flatten did not complete |
| ReconcileRules.ReconcileIdIsInjective | internal/orchestrator/order_reconcile.go:132 | two reconciliation event ids are equal only for the same client and status, even if client ids hold colons |
| ReconcileRules.FillOnlyAdvances | internal/orders/machine.go:14-60 | after a fill the status only advances, unless a flattening order becomes unknown |
| ReconcileRules.NeverLostIsNotRepeated | internal/orchestrator/order_reconcile.go:125-138 | the settling event of an order repeats an applied one only if the order was lost from flattening, and never a terminal one |
| ReconcileRules.LostOrderRepeats | internal/orchestrator/order_reconcile.go:125-138 | a replayable journal with an unknown order for which a fill is reported and both following events are repetitions |
| ReconcileRules.LifeReplays | internal/orders/journal.go:128-193 | every legal history of one order, under distinct ids, is one that a log replays to |
| OrderReconcile.ReconcileOrder | internal/orchestrator/order_reconcile.go:29-121 | one order's change is always justified by stored or reported evidence, and unless a status comes back its status, result and discrepancy are the expected ones; if nothing is returned it is settled, or reported as open, exactly if its settling event is no repetition |
| OrderReconcile.PositionExists | internal/orchestrator/order_reconcile.go:19-26 | the scan finds whether any position has the symbol and the instrument |
| OrderReconcile.ReconcileOrders | internal/orchestrator/order_reconcile.go:15-123 | nothing is opened, histories only grow legally, and every change is justified; an order that took a position is never closed while the venue shows one in its market, and closed if it shows none and clears; without an error every order for which no status comes back has the expected status, result and discrepancy; a clean return settles exactly those whose settling event is no repetition |
| OrderReconcile.CleanReconciliationSettles | internal/orchestrator/order_reconcile.go:15-123 | so a clean reconciliation settles every order that was never lost, unless the venue reports it as open |
| OrderReconcile.CleanOkxReconciliationSettles | internal/venue/cex_okx_trade.go:628-674 | OKX lookups report none of these open statuses, so there it settles every such order |
| FileStore.RecoverInterruptedReplace | internal/persistence/file.go:335-355 | recovery never changes what the store holds, at any crash point and under any failure |
| FileStore.ReplaceFileRecoverably | internal/persistence/file.go:300-333 | success means the new content and any error the old; at every crash point it is the old, then from one moment on the new; if at most the direct rename fails it succeeds, unless a backup stands beside an undecodable destination or no file was in the way |
| FileStore.WriteStateAtomically | internal/persistence/file.go:251-298 | the same from the temporary file to its removal; without faults it fails if and only if a backup stands beside an undecodable destination |
| FileStore.RestartLoadsContent | internal/persistence/file.go:55-114 | an undisturbed start loads exactly the destination, or else the backup |
| FileStore.FileRepository.Mutate | internal/persistence/file.go:231-249 | memory always equals what a restart would load; a crash at any point leaves the old or the next state; without faults every accepted operation succeeds |
| FileStore.Open | internal/persistence/file.go:29-53 | a successful start holds the store's content if and only if no failed inspection hides a backup with more than the empty state; such a start succeeds with the empty state if the next two calls do; without faults it fails if and only if the destination, or the backup it stands in for, does not decode |
| FileStore.HiddenBackupIsLost | internal/persistence/file.go:335-355 | an undisturbed start would have loaded the hidden backup |
| Decimals.AddIsExact | internal/contracts/decimal.go:242-262 | addition is exact, at the larger scale and without a signed zero |
| Decimals.SubIsExact | internal/contracts/decimal.go:264 | subtraction is exact, at the larger scale and without a signed zero |
| Decimals.MulIsExact | internal/contracts/decimal.go:266-270 | multiplication is exact, at the sum of the scales and without a signed zero |
| Decimals.NegIsExact | internal/contracts/decimal.go:272-279 | negation is exact, and undoes itself exactly on constructible decimals |
| Decimals.CmpComparesValues | internal/contracts/decimal.go:287-290 | comparison is -1, 0 or 1 as the numbers are ordered, whatever their scales and zero signs |
| Decimals.RoundingIsUnique | internal/contracts/decimal.go:327-349 | correct rounding determines the integer, in each of the three modes |
| Decimals.QuoScaleIsCorrectlyRounded | internal/contracts/decimal.go:309-352 | it fails exactly on a zero divisor or an unsupported scale; otherwise the coefficient is the exact quotient at that scale, correctly rounded, for all signs |
| Decimals.QuoScaleIgnoresScales | internal/contracts/decimal.go:309-352 | the result depends on the operands' values alone |
| Decimals.Normalize | internal/contracts/decimal.go:354-371 | the loop computes the specified normal form |
| Decimals.NormalFormIsCanonical | internal/contracts/decimal.go:354-371 | two decimals have the same normal form if and only if they are the same number |
| Decimals.QuoIsWithinHalfUnit | internal/contracts/decimal.go:298-307 | Quo fails only on a zero divisor and is within half a unit of the 28th place |
| Decimals.QuoIsStored | internal/contracts/decimal.go:298-307 | Quo is the exact quotient rounded half to even at the 28th place, in normal form |
| DecimalText.AsciiDigits | internal/contracts/decimal.go:146-153 | the loop decides whether all characters are digits |
| DecimalText.WrittenNumeralIsRead | internal/contracts/decimal.go:66-144 | every well-formed numeral, with white space around it, is accepted if and only if it is within the limits, and then read as the number it denotes |
| DecimalText.AcceptedIsWritten | internal/contracts/decimal.go:66-144 | whatever is accepted is white space around a well-formed numeral within the limits |
| DecimalText.PrintedDecimalIsReadBack | internal/contracts/decimal.go:176-195 | parsing a printed decimal returns it, with scale and zero sign, if and only if max(digits, scale+1) is at most 10000 |
| OrderSize.QuantizeDownIsNearestMultiple | internal/venue/cex.go:302-311 | for positive increments the result is the multiple nearest to the value on the side of zero |
| OrderSize.OrderSizeIsWithinOneLot | internal/venue/cex_okx_trade.go:399-423 | a size is a lot multiple, not below the minimum, and worth the quote amount up to the division errors and less than one lot |
| OrderSize.OrderSizeByNumbers | internal/venue/cex_okx_trade.go:399-423 | the size is the whole lots of the stored quotients; every refusal has its condition, and a size at the minimum is accepted |
| OrderSize.MinimumDecides | internal/venue/cex_okx_trade.go:419-421 | an amount worth one lot more than the minimum is always accepted, one worth less than it never, up to the division errors |
| LockTable.StepKeepsInvariant | internal/runtime/symbols.go:27-82 | every atomic step keeps exact reference counts, and exactly the runner in a full semaphore |
| LockTable.RunsKeepInvariant | internal/runtime/symbols.go:27-82 | so does every interleaving of any number of threads |
| LockTable.OneOperationPerSymbol | internal/runtime/symbols.go:27-44 | at most one operation per normalised symbol runs |
| LockTable.IdleTableIsEmpty | internal/runtime/symbols.go:75-82 | the table is empty whenever all threads have left |
| LockTable.WaitingIsForARunner | internal/runtime/symbols.go:27-44 | a waiting thread is held up if and only if another one runs under its key |
| SymbolLocks.SymbolLocks.EntryFor | internal/runtime/symbols.go:46-73 | the shared objects make the step Enter, or each argument error occurs exactly in its case and changes nothing |
| SymbolLocks.SymbolLocks.Finish | internal/runtime/symbols.go:35-43 | the receive of a finished operation never blocks |
| SymbolLocks.SymbolLocks.Release | internal/runtime/symbols.go:75-82 | the shared objects make the step Release |
| ApprovalResults.RequestOutcome | internal/approval/pending.go:226-267 | a request is refused exactly for an unknown decision or a modification without positive size; an accepted one carries its verdict, time, trimmed or default operator and note, and a modification replaces exactly the size by the requested one and asks for revalidation |
| ApprovalGate.RunsKeepInvariant | internal/approval/pending.go:110-184 | every interleaving of registrations, resolvers, timers and cancellations is consistent |
| ApprovalGate.EachRegistrationIsDecidedOnce | internal/approval/pending.go:110-184 | at most one Resolve succeeds per registration, and the waiter's decision is that one if and only if there was one, else a rejection |
| ApprovalGate.DecisionsAreFinal | internal/approval/pending.go:110-184 | a returned decision and a successful Resolve never change again |
| ApprovalGate.ChannelsNeverBlock | internal/approval/pending.go:145-165 | neither the resolver's send nor the receive after a lost race blocks |
| ApprovalGate.OthersStayPending | internal/approval/pending.go:281-289 | an old waiter never removes another registration, not even of the same run id |
| ApprovalGate.ExpiredWaiterReturns | internal/approval/pending.go:148-165 | an expired or cancelled waiter returns within two of its own steps: its own rejection, with the context error exactly if it was cancelled, or what a faster resolver sent |
| PendingApprovals.PendingGate.Register | internal/approval/pending.go:116-137 | the shared objects make the step Register under the next number, or each error occurs exactly in its case and changes nothing |
| PendingApprovals.PendingGate.Resolve | internal/approval/pending.go:170-184 | an invalid request consumes nothing; a valid one sends into an empty channel |
| PendingApprovals.PendingGate.Withdraw | internal/approval/pending.go:281-289 | the waiter withdraws if and only if its own entry is still pending, and otherwise finds a result |
| UsageLog.TotalsCountStatuses | internal/tokenusage/tracker.go:546-562 | a day's totals count its calls by status: successes, rejections, and everything else as errors |
| UsageLog.DayUsageIsSum | internal/tokenusage/tracker.go:546-562 | and add up its tokens and costs |
| UsageLog.CallsBalance | internal/tokenusage/tracker.go:546-562 | a day's calls are its successes, errors and budget rejections |
| UsageLog.TotalsOfInserted | internal/tokenusage/tracker.go:532-562 | totals do not depend on where in the list an event is put |
| UsageLog.PruningKeepsDay | internal/tokenusage/tracker.go:518-530 | pruning keeps the totals of every day that none of the pruned events is on |
| TokenUsage.Search | internal/tokenusage/tracker.go:519-521 | the binary search finds the first position from which the test holds |
| TokenUsage.SelectUsable | internal/tokenusage/tracker.go:576-590 | the loaded events that count have an id and a time and are the first of their id |
| TokenUsage.AddedToIndex | internal/tokenusage/tracker.go:546-562 | counting an event in its day indexes the list with the event put anywhere |
| TokenUsage.Tracker.constructor | internal/tokenusage/tracker.go:72-115 | a loaded tracker is sorted, indexed, and holds exactly the usable events |
| TokenUsage.Tracker.InsertEvent | internal/tokenusage/tracker.go:532-544 | the list stays sorted and gains exactly the one event |
| TokenUsage.Tracker.RebuildDaily | internal/tokenusage/tracker.go:564-574 | the daily map is the per-day fold of the events |
| TokenUsage.Tracker.PruneMemory | internal/tokenusage/tracker.go:518-530 | exactly the events before the time go, and the index is the fold again |
| TokenUsage.Tracker.Reserve | internal/tokenusage/tracker.go:117-163 | a call is granted if and only if the day is not paused, its recorded tokens and cost are below the budgets, and with the open reservations and max(0, announced) fit both; the new state in fields |
| TokenUsage.Tracker.Record | internal/tokenusage/tracker.go:165-199 | the cleaned event comes, its reservation goes, once an hour exactly the events older than the retention go, and a day used up is paused once; the new state in fields |
| UsageBudget.NoOvershoot | internal/tokenusage/tracker.go:117-199 | for tokens and cost: everything ever recorded for a day plus its granted, unrecorded reservations stays within the budget in every run in which calls keep to the amounts and day of their reservation and no day comes back after another day or after one of its events was pruned |
| UsageBudget.LongRetentionRemembers | internal/tokenusage/tracker.go:76-78 | a retention of at least the longest day never prunes a day that is still reserved on, if the clock advances |
| UsageBudget.NoOvershootWhileDaysAdvance | internal/tokenusage/tracker.go:117-199 | in particular with such a retention, when the clock and the days seen by Reserve only advance |
| UsageBudget.RevisitedDayOvershoots | internal/tokenusage/tracker.go:121-131 | for every order of times in which a day comes back there is a fair run, with nothing pruned, that exceeds the token budget |
| UsageBudget.ForgottenDayOvershoots | internal/tokenusage/tracker.go:190-195 | whenever what is as old as one time is pruned before another time of the same day, a fair run that never leaves the day exceeds the token budget |
| UsageBudget.MisdatedCallOvershoots | internal/llm/client.go:231-250 | whenever a call is stamped on another day than it is reserved on, a run that keeps to all amounts exceeds the token budget of the stamped day |
| Combinations.Enumerator.Visit | internal/backtest/validation.go:190-208 | the backtracking over the shared slice appends the specified choices and restores the slice |
| Combinations.IndexCombinations | internal/backtest/validation.go:190-208 | exactly the increasing sequences of the length, in lexicographic order, as many as the binomial coefficient |
| Combinations.CombinationsInOrder | internal/backtest/validation.go:190-208 | each choice appears once |
| Combinations.OutOfSample | internal/backtest/validation.go:136-145 | the loops compute the complement of a choice |
| Combinations.HalvesAreComplements | internal/backtest/validation.go:133-145 | every out-of-sample half is itself a choice, disjoint, and its own out-of-sample half is the first choice |

## Left out

- Rounding inside the sizing model: decimals are exact reals there and `Quo` is exact division; of float64 only the 1e-12 and 1e-9 tolerances are kept, as explicit slack.
- The on-chain branch of the risk rules (internal/risk/engine.go:311-364): the orchestrator never sets it; risk scores and violation texts are left out too.
- Fields of a proposal that sizing neither reads nor writes, in its validation.
- OrderLog.ReplayKeepsHistories: assumes events as the store normalises them, with distinct ids; JSON encoding, trimming and note truncation are not modelled, and an id is blank only if it is empty.
- The PostgreSQL repository, checkpoints and lessons; the start's trimming of surplus lessons is not modelled in the state file.
- FileStore.FileRepository.Mutate: a rename or removal either happens or fails without effect; encoding and decoding a state is the identity.
- OrderService.Service.Transition: the journal always has a store, as the application configures it; a service on a journal without store is not modelled.
- Context cancellation inside the order lifecycle, alerts, and a service without a safety latch; the venue's repeated answers are one function per client id or attempt.
- The pipeline around an entry order: its proposal, decision, risk refresh and reversal before, its checkpoints, risk state and review after it.
- Remediation.RemediateProtection: where an order ends is stated if its run has journaled nothing of its remediation yet; under a failing store only for a return without error, while an error then says that new positions are frozen and all histories are legal.
- ReduceOnly.CompleteReduceOnly: stated for fresh event ids and a store that takes every write; under failing writes only the orders named there can change.
- OrderReconcile.ReconcileOrders: that no error is returned is stated one way, for orders whose reconciliation ids are their own, that were never lost, and whose reported status is not yet in their history.
- Decimals: the 32-bit overflow of a product's scale, and conversion to float64.
- DecimalText.WrittenNumeralIsRead: the text length counts characters, which for every accepted text are bytes; for refused non-ASCII text only the kind of error can differ.
- SymbolLocks.SymbolLocks.EntryFor: trimming and upper-casing a symbol is an arbitrary function.
- ApprovalGate: listing pending approvals, event emission, and cloning of proposals.
- TokenUsage.Tracker.Record: a day key is an arbitrary function of time, amounts are reals instead of float64, and of the alerts only the one that pauses a day is kept; the store queue and closing are left out.
- UsageBudget.NoOvershoot: assumes that ids are not reused while reserved and that a recorded call stays within the amounts of its reservation.
- Statistics of the validator (Sharpe ratio, ranking, group bounds), HTTP, user interface, LLM agents, exchange traffic and signing.
