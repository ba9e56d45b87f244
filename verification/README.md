# PULSE: points, results and caches, modelled and proved

A Dafny model of the parts of PULSE where several writers meet: the points ledger and its
settlement machine, the sweep that settles tickets, F1 results and their versions, the paged
ledger view, the owner-bound private cache, and the compact algorithms beside them. All files
verify together: `dafny verify dfyconfig.toml`.

## What is modelled

**The ledger** (`LedgerModel`, `LedgerStore`). A database state is the six tables a point can pass
through: accounts (available, frozen, debt), tickets, settlements, ledger entries, operation
receipts and grant requests. Every writer is a transaction from a state to a new state or to the
failure that rolls it back: opening an account, requesting and deciding a grant, freezing a stake,
settling, reversing, and paying for PRO. The service's own arithmetic (gross return, debt
repayment, what a reversal can still reclaim) is part of it, as are the CHECK on balances and the
unique keys. `LedgerStore.Store` holds the tables as fields and changes them statement by
statement; each method is proved to commit exactly its transaction or to leave the state as it was,
and `RunAudit` to return exactly what the repository's five audit queries select.

**Interleavings** (`LedgerMachine`, `LedgerTheorems`, `LedgerReceipts`, `LedgerPayments`, `LedgerRequests`). A settlement transaction holds its ticket's row
lock but reads the account without locking it. Lock, read, write and abandon are therefore separate
steps, and any other transaction may commit between a read and the guarded relative write that
follows from it. The theorems speak of every sequence of such steps from the empty database:
`LedgerPayments` of what settlements pay and where it goes, `LedgerRequests` of when the other requests
succeed, what they change, and what repeating them comes to. `LedgerRuns` holds the runs in which an
interleaving makes a write fail.

**The sweep** (`Sweep`, `SweepOrder`, `FootballSweep`, `Markets`). One candidate's processing is one transaction, or
two for a correction, whose reversal stays when its settlement fails. Scans of any batch size are
followed until none is left; `SweepOrder` adds the queries' order, and with it which candidates
repeated scans reach.

**F1** (`F1Results`, `F1Import`, `F1Sessions`, `F1SessionStore`, `F1Versions`, `F1Decisions`, `F1Sync`,
`F1Freshness`). Classifications and what they decide; importing upstream rows; one session under
administrators, the lock sweep and syncs that plan before they lock; and finally the ledger and the results moving
together, with workers that act on candidates scanned long before. The season's standings follow
the sessions.

**The private cache** (`PrivateCache`, `PrivateCacheRuns`, `PrivateCacheUse`). Service worker writes in their separate
steps (the fetch, the marker read before the put, the put, the marker read after it, eviction,
discarding), pages that bind the cache to whoever is signed in, purges, and sign-ins, in any
interleaving. Pages of one user may bind at the same time. `PrivateCacheUse` is the other side: what a
write, an eviction and a page leave behind when nothing disturbs them.

**Reading the ledger** (`LedgerPaging`), **PRO paid with points** (`PointsSubscription`), and the
algorithms `Decimal`, `OddsFormat`, `Polyline` and `ClubProfile`.

## Where code and expectation part

* *A football result that returns to an earlier version.* Football versions are content hashes. A ticket
  corrected from a to b can never settle at a again: `Sweep.CandidateSettlesExactlyWhen` gives the
  exact condition, `Sweep.CorrectedVersionIsUsedUp` shows how it arises, `Sweep.UsedUpFailsEveryScan`
  that it lasts, and `LedgerRuns.ResultThatComesBack` is a run from the empty database that ends so.
  F1 versions are counters, and there it cannot happen (`F1Freshness.NeverUsedUp`).
* *Used up tickets at the head of the queue.* Scans are ordered and limited, and a ticket that fails
  stays where it is. A candidate with a full batch of used up ones before it is never listed again
  (`SweepOrder.StarvedForGood`), and repeated scans settle a candidate exactly when there is no such
  batch and it is not used up itself (`SweepOrder.ScansReachExactly`).
* *INSUFFICIENT_FROZEN.* The frozen half of the settlement guard never refuses a pending ticket: a
  planned settlement is refused exactly for a debt that shrank between read and write, or an id taken
  (`LedgerTheorems.SettleWriteSucceedsExactlyWhen`). `LedgerRuns.RepaymentDefeatsSettlement` is a run in
  which the first of two settlements repays the debt the second meant to repay. A reversal likewise
  fails for a stake frozen since its read (`LedgerRuns.StakeDefeatsReversal`).
* *CANCELLED.* The comment at `packages/domain/src/f1/ergast-import.ts:149-152` leaves cancelled sessions
  to administrators, but an import planned before a cancellation is published after it. The session
  ends FINISHED while its markets stay CANCELLED (`F1Versions.CancelledIsNotTerminal`).
* *Order-insensitive comparison.* `classificationsEqual` ignores the order of a classification exactly
  when lines of the same driver, if there are any, are the same in what is compared
  (`F1Import.OrderIgnoredExactly`); two that differ and change places compare unequal
  (`F1Import.DuplicateDriversBreakEquality`). Validation keeps repeated drivers away from it.
* *A product day that goes back.* The stored profile stays what a recount of the attempts gives exactly
  when each new answer is wrong, or has no correct day after it and none before it but the day of the
  last answer (`ClubProfile.SubmitRecountsExactly`, and for whole runs `ClubProfile.RunRecountsExactly`). On
  an earlier day the stored streak is right exactly for a wrong answer or after a day not answered
  correctly, and the best streak exactly for a wrong answer or a run through that day no longer than the
  best (`ClubProfile.GoingBackExactly`). Correct answers on days 1, 3, 2 break both
  (`ClubProfile.GoingBackBreaksTheRecount`).
* *A response that arrives after a change of user.* The worker reads the owner after the fetch, so a
  response fetched for one user and stored once another has bound the cache stays as the other's
  (`PrivateCacheRuns.LateResponseIsFiledWrong`). It is filed under its own user exactly when the marker then
  in force names who was signed in at the fetch (`PrivateCacheRuns.FiledUnderFetcherExactly`).
* *Pages of two users binding together.* Neither sees the other, so an entry can stay under the other's
  marker (`PrivateCacheRuns.OverlappingUsersMix`). `PrivateCacheRuns.BindingKeepsOwnershipExactly` says which
  bindings keep entries owned.
* *An entry that sorts before the cursor* changes the pages still to be read, and only such an entry
  does (`LedgerPaging.ReadingChangesExactlyWhenOlder`).

## Model

| member | source | states |
|---|---|---|
| LedgerTheorems.EveryRunPassesTheAudit | packages/db/src/settlement/audit.ts:31-172 | Under every interleaving of all writers, none of the five audit queries ever selects anything |
| LedgerTheorems.AuditIsSilentExactlyWhen | packages/db/src/settlement/audit.ts:31-172 | The five queries select nothing if and only if no ticket has two active settlements, tickets and settlements are linked, balances are the sums of their entries, every reversal points at an entry and every active settlement has its receipt |
| LedgerStore.Store.RunAudit | packages/db/src/settlement/audit.ts:31-172 | The audit's passes report a discrepancy if and only if it is one the queries select |
| LedgerTheorems.AccountsAreConserved | packages/db/src/settlement/repository.ts:97-137 | In every reachable state an account is worth its grants, less PRO spending, plus gross return less stake of the settlements active now; no balance is negative |
| LedgerTheorems.FrozenCoversPendingTickets | packages/db/src/predictions/repository.ts:84-134 | Frozen points are always the stakes of the pending tickets, so each pending stake can be released |
| LedgerTheorems.SettleWriteSucceedsExactlyWhen | packages/db/src/settlement/repository.ts:97-116 | A planned settlement is written exactly when the debt it means to repay is still there (and its ids are fresh); its frozen guard and unique keys never refuse it |
| LedgerTheorems.ReverseWriteSucceedsExactlyWhen | packages/db/src/settlement/repository.ts:118-137 | A planned reversal is written exactly when the points it means to reclaim are still there; otherwise SETTLEMENT_CONFLICT |
| LedgerTheorems.FlightsLandExactlyWhen | packages/db/src/settlement/repository.ts:67-95 | The same for every transaction in flight in every reachable state, whatever committed since its read |
| LedgerTheorems.HistoriesAlternate | packages/db/src/settlement/repository.ts:98-136 | A ticket's entries are one freeze, then strictly alternating settlements and reversals, each reversal pointing at and undoing the one before, at most one of each per version |
| LedgerTheorems.GrantsTraceToRequests | packages/db/src/rooms/grants.ts:73-124 | Owner grant entries and approved requests correspond one to one, in account, amount and ledger id |
| LedgerReceipts.ReceiptsAreTrue | packages/db/src/settlement/repository.ts:109-115 | In every reachable state each receipt sits under its own key and names the entry written with it and what it paid, and every settlement has exactly its receipt |
| LedgerReceipts.RepeatedSettlementReplays | packages/domain/src/settlement/settlement.ts:192-215 | Repeating the settlement that stands, whatever outcome it is asked with, returns that settlement's receipt and writes nothing |
| LedgerReceipts.RepeatedReversalReplays | packages/domain/src/settlement/settlement.ts:275-279 | Repeating a reversal returns a receipt that names the entry the reversal wrote |
| LedgerPayments.EverySettlementPaysItsOutcome | packages/domain/src/settlement/settlement.ts:154-166 | In every reachable state each settlement has paid nothing for a loss, the stake for a push or a cancellation, and for a win the half-up rounding of stake times odds |
| LedgerPayments.SettlementRepaysFirst | packages/domain/src/settlement/settlement.ts:222-225 | A settlement that nothing interrupts makes available what its payout exceeds the debt by, leaves owed what it falls short by, releases the stake, and changes no other account |
| LedgerPayments.ReversalReclaimsFirst | packages/domain/src/settlement/settlement.ts:285-290 | A reversal that nothing interrupts takes back the points as far as they are there; the rest is owed, on top of the debt that had been repaid |
| LedgerPayments.ReversingRestoresTheAccounts | packages/domain/src/settlement/settlement.ts:186-315 | Settled and reversed with nothing in between, every account holds what it held before |
| LedgerRequests.RequestKeysAreUnique | packages/domain/src/predictions/ticket-submission.ts:196-205 | In every reachable state no two tickets have the same account and request key |
| LedgerRequests.RepeatedSubmissionChangesNothing | packages/domain/src/predictions/ticket-submission.ts:196-205 | Once a submission is accepted, any command of its account and request key, whatever its ids, stake or leg, succeeds at any later moment of any run and leaves the database as it is |
| LedgerRequests.SubmissionFreezesItsStake | packages/domain/src/predictions/ticket-submission.ts:205-285 | A new request key succeeds exactly when the account has the stake, the stake is from 1 to 20,000, the odds are a positive decimal and the ids are fresh; it freezes exactly the stake, stores the ticket as asked for and changes no other row |
| LedgerRequests.DecisionPaysItsAmount | packages/db/src/rooms/grants.ts:73-124 | An open request is decided exactly when the room is active and an approved amount is from 1 to 20,000 (and the id fresh); approved, the requester has exactly that amount more and the request records it, and nothing else changes |
| LedgerRequests.DecisionStands | packages/db/src/rooms/grants.ts:73-124 | At any later moment of any run the same decision again is answered and changes nothing, and any other is refused |
| LedgerRequests.RequestLeavesOneOpen | packages/db/src/rooms/grants.ts:127-162 | A member's request succeeds exactly in an active room, leaves exactly one open request of that member, and leaves one that was open alone |
| LedgerRequests.JoiningGrantsOnce | packages/db/src/rooms/repository.ts:186-200 | Joining gives a new account exactly the initial points; joining again gives nothing |
| LedgerRuns.RepaymentDefeatsSettlement | packages/db/src/settlement/repository.ts:97-105 | A run from the empty database ends in a planned settlement that INSUFFICIENT_FROZEN refuses although its ticket's stake is frozen |
| LedgerRuns.StakeDefeatsReversal | packages/db/src/settlement/repository.ts:118-129 | A run ends in a planned reversal that SETTLEMENT_CONFLICT refuses, a stake having been frozen since its read |
| LedgerRuns.ResultThatComesBack | packages/domain/src/settlement/settlement.ts:194-213 | A run settles a football ticket, corrects it, and with the first result back leaves it selected at a used up version, where processing fails whatever ids it draws |
| LedgerMachine.StepKeeps | packages/db/src/settlement/repository.ts:64-137 | Every step of every transaction keeps the invariant, and what each lock holder has read under its lock stays true |
| SettlementSteps.PlanSettleIsReady | packages/domain/src/settlement/settlement.ts:186-268 | What `settleResolved` plans releases the stake and pays what the outcome is worth (nothing, the stake, or stake times odds rounded half up), part of it against the debt, under an unused settle key |
| SettlementSteps.PlanReverseIsReady | packages/domain/src/settlement/settlement.ts:272-315 | What `reverse` plans undoes the active settlement in full, as points reclaimed and debt for the rest |
| SettlementSteps.SettleKeeps | packages/db/src/settlement/repository.ts:97-116 | A settlement written later keeps the invariant whatever happened to the account since it was planned |
| SettlementSteps.ReverseKeeps | packages/db/src/settlement/repository.ts:118-137 | So does a reversal |
| LedgerSteps.SubmitTicketKeeps | packages/domain/src/predictions/ticket-submission.ts:196-262 | Freezing a stake for a new ticket keeps the invariant |
| LedgerSteps.DecideGrantKeeps | packages/db/src/rooms/grants.ts:73-124 | Deciding a grant, replays and refusals included, keeps the invariant |
| LedgerSteps.OpenAccountKeeps | packages/db/src/rooms/repository.ts:186-200 | Opening an account with its initial grant keeps the invariant |
| LedgerSteps.DeductKeeps | packages/db/src/billing/repository.ts:271-300 | The PRO deduction loop keeps the invariant |
| LedgerStore.Store.PersistSettlement | packages/db/src/settlement/repository.ts:97-116 | The statements in order commit exactly the settlement transaction, or change nothing and report its failure |
| LedgerStore.Store.PersistReversal | packages/db/src/settlement/repository.ts:118-137 | The same for the reversal transaction |
| LedgerStore.Store.SubmitTicket | packages/db/src/predictions/repository.ts:84-134 | The same for freezing a stake |
| LedgerStore.Store.DecideGrant | packages/db/src/rooms/grants.ts:73-124 | The same for a grant decision |
| LedgerStore.Store.RequestGrant | packages/db/src/rooms/grants.ts:127-162 | The same for filing a request; while one is open another request changes nothing and succeeds |
| LedgerStore.Store.OpenAccount | packages/db/src/rooms/repository.ts:186-200 | The same for the initial grant |
| LedgerStore.Store.SubscribeWithPoints | packages/db/src/billing/repository.ts:256-300 | The deduction loop, rolled back as one, commits exactly the subscription transaction |
| PointsSubscription.SubscriptionTakesThePrice | packages/db/src/billing/repository.ts:257-300 | Refused exactly when all the user's accounts together hold less than the price; otherwise exactly the price leaves them, each within its means, nobody else's account changes, and the entries written sum to the price |
| PointsSubscription.FewestAccounts | packages/db/src/billing/repository.ts:258-300 | The subscription changes no more accounts, and writes no more entries, than any set of the user's accounts that could cover the cost has members |
| Sweep.ProcessLeaves | apps/worker/src/settlement/handler.ts:75-90 | Whatever happens to a candidate, the invariant holds and no other ticket changes; processed it is paid at its version, failed it is as it was or reversed and still a candidate |
| Sweep.HeldBackExactlyWhen | apps/worker/src/settlement/handler.ts:75-90 | A candidate is held back exactly when its event has no result to settle at or it is settled at it already, and then nothing changes |
| Sweep.CandidateSettlesExactlyWhen | packages/domain/src/settlement/settlement.ts:186-219 | A current candidate settles if and only if it has an outcome whose payout is a safe integer, its account's balances are safe integers throughout, and its version was not settled and reversed before |
| Sweep.FailedCorrectionStaysReversed | packages/domain/src/settlement/settlement.ts:321-333 | A correction that fails has reversed the ticket exactly when there was an outcome and its account's balances are safe integers; otherwise everything is as it was |
| Sweep.CorrectedVersionIsUsedUp | packages/domain/src/settlement/settlement.ts:194-213 | Correcting a ticket to another version uses up the one it leaves |
| Sweep.UsedUpFailsEveryScan | packages/domain/src/settlement/settlement.ts:194-213 | A ticket whose current version is used up fails every scan that lists it, and stays so |
| Sweep.SettlementJob.Scan | apps/worker/src/settlement/handler.ts:94-110 | The loop's counters, failed list and database are those of processing the candidates one after another, failures never stopping it; RETRY exactly when one failed |
| Sweep.ScanLeaves | apps/worker/src/settlement/handler.ts:94-110 | After a scan every listed candidate is paid at its version or reported failed and still waiting, processed and failed add up, none is held, and no unlisted ticket changed |
| Sweep.ScanShrinks | packages/db/src/settlement/repository.ts:145-155 | A scan removes from the candidates exactly those it did not report failed |
| Sweep.CleanScansDrain | packages/db/src/settlement/repository.ts:145-155 | From any state of the invariant, k failure-free scans leave exactly max(0, n - k * limit) candidates and everything else paid or untouched |
| Sweep.EnoughScansSettleAll | apps/worker/src/settlement/handler.ts:94-110 | Enough of them settle every ticket of a decided event at its current version; the next scan is empty and changes nothing |
| Sweep.StoppedCorrectionIsACandidate | packages/domain/src/settlement/settlement.ts:321-333 | A correction that stops between its reversal and its settlement leaves such a state, with its ticket a candidate |
| Sweep.AccountIsWorthItsResults | packages/db/src/settlement/repository.ts:97-137 | Once its tickets are settled at their results, an account is worth grants less spending plus what exactly those results pay |
| SweepOrder.StarvedForGood | packages/db/src/settlement/repository.ts:145-155 | A candidate with a batch of used up tickets before it in the query's order stays untouched by any number of scans, whatever else changes |
| SweepOrder.ScansReachExactly | packages/db/src/settlement/repository.ts:145-155 | When only used up tickets fail, as many scans as there are candidates settle a candidate if and only if it is not used up and fewer used up ones than a batch come before it |
| SweepOrder.AllReachedExactly | apps/worker/src/settlement/handler.ts:94-110 | They settle every candidate that is not used up if and only if none has a batch of used up ones before it |
| FootballSweep.FootballScanIsScan | packages/db/src/settlement/repository.ts:145-155 | The football query lists, in its order, the first of the tickets not settled at their confirmed result, so the sweep theorems apply to it |
| FootballSweep.SelectedExactlyWhen | packages/db/src/settlement/repository.ts:145-155 | A ticket is selected exactly when its match has a confirmed final or cancelled result at whose version it is not settled |
| FootballSweep.OutcomeIsTheResult | apps/worker/src/settlement/handler.ts:33-40 | A finished candidate has no outcome exactly when a score is missing; with its scores it wins HOME, DRAW or AWAY exactly on the side that scored more or on neither, and a correct-score market exactly on the listed score or on OTHER; only a cancelled one is cancelled |
| FootballSweep.ExactlyOneSelectionPays | apps/worker/src/settlement/handler.ts:33-40 | Once both scores are in, exactly one selection of either market wins and every other loses |
| FootballSweep.TargetsStay | packages/db/src/settlement/repository.ts:145-155 | Settling and correcting never change what a ticket is to be settled at |
| Markets.ListedExactlyUpToThree | packages/domain/src/predictions/markets.ts:12-35 | A final score is one of the listed selections exactly when neither side scored more than three |
| Markets.ExactlyOneSelectionWins | packages/domain/src/predictions/markets.ts:21-35 | For any result exactly one of a market's selections wins |
| Markets.ListedScoresDiffer | packages/domain/src/predictions/markets.ts:32-35 | A listed selection determines the score |
| F1Results.ValidateF1Classification | packages/domain/src/f1/results.ts:42-64 | The loop, sort and gap check answer as the specification, with the first fault in loop order as the reason |
| F1Results.AcceptedExactlyWhenOfficial | packages/domain/src/f1/results.ts:42-64 | Accepted if and only if there are lines, drivers are distinct, numbers whole and the finishers' positions a permutation of 1..n |
| F1Results.AcceptedInSoManyWords | packages/domain/src/f1/results.ts:42-64 | The same spelled out: whole non-negative laps for every line, whole positions from one for the finishers |
| F1Results.RefusalsAreTrue | packages/domain/src/f1/results.ts:42-64 | The reason for a refusal is true of the line it names, and no line before that one is at fault |
| F1Results.ErrorsAndRefunds | packages/domain/src/f1/results.ts:78-107 | On an official classification a selection is an error if and only if a driver it names has no line, and otherwise a refund if and only if one of them has a DNS line |
| F1Results.PlacesDecide | packages/domain/src/f1/results.ts:78-99 | For drivers who started, POLE and WINNER win exactly from the first place, PODIUM exactly when finishing in the first three is what was said, EXACT_PODIUM exactly from first, second and third place |
| F1Results.OneExactPodium | packages/domain/src/f1/results.ts:91-99 | With three or more finishers exactly one ordered triple of drivers wins EXACT_PODIUM |
| F1Results.NoExactPodium | packages/domain/src/f1/results.ts:91-99 | With fewer than three finishers none does |
| F1Results.HeadToHeadIsByRank | packages/domain/src/f1/results.ts:66-74 | For two drivers who started, WIN, LOSS and PUSH are being ahead, behind and neither |
| F1Results.HeadToHeadIsAnOrder | packages/domain/src/f1/results.ts:100-105 | WIN is the converse of LOSS and transitive; PUSH is symmetric, transitive and compatible with WIN |
| F1Results.ExactPodiumWinsEverywhere | packages/domain/src/f1/results.ts:78-107 | The winning triple wins every other market its drivers are in, and its last beats everyone else who started |
| F1Import.MapRows | packages/domain/src/f1/ergast-import.ts:77-97 | Every row becomes a line or an issue, in order |
| F1Import.MappedLineShape | packages/domain/src/f1/ergast-import.ts:57-75 | A mapped line has a position exactly when it finished and always passes the laps check |
| F1Import.StatusOfPlace | packages/domain/src/f1/ergast-import.ts:43-50 | A numeral finished, D and E are disqualified, and a driver did not start exactly for W or a status that says so |
| F1Import.MappedLineFields | packages/domain/src/f1/ergast-import.ts:57-75 | Each field of a mapped line is what its own column denotes, laps 0 when it denotes nothing |
| F1Import.TimeShown | packages/domain/src/f1/ergast-import.ts:100-108 | The time shown is the finishing time, or of a qualifying the latest segment that has one |
| F1Import.IssueSaysWhy | packages/domain/src/f1/ergast-import.ts:77-97 | A row gives no line exactly without a known code, and then one issue that says which it is |
| F1Import.RowsDecide | packages/domain/src/f1/ergast-import.ts:77-97 | A driver is covered, did not start, or finished at a position exactly when some upstream row about him says so |
| F1Import.RowsDecideRefunds | packages/domain/src/f1/results.ts:78-107 | A bet on an official import is refunded exactly when there are rows about all drivers it names and one of them says its driver did not start |
| F1Import.ComparedFields | packages/domain/src/f1/ergast-import.ts:110-121 | Two lines compare equal exactly when they agree in every field, an absent fastest lap being none |
| F1Import.MappedInAnyOrder | packages/domain/src/f1/ergast-import.ts:77-97 | Rows in another order give the same lines in another order |
| F1Import.EqualExactlyInAnyOrder | packages/domain/src/f1/ergast-import.ts:123-132 | For distinct drivers two classifications compare equal if and only if they are the same canonical lines in any order |
| F1Import.OrderIgnoredExactly | packages/domain/src/f1/ergast-import.ts:123-132 | A classification compares equal to itself in every order if and only if its lines of one driver are the same in what is compared |
| F1Import.DuplicateDriversBreakEquality | packages/domain/src/f1/ergast-import.ts:123-132 | Two lines of a driver that differ there compare unequal to themselves exchanged |
| F1SessionStore.SessionStore.EnterResult | packages/domain/src/f1/result-entry.ts:74-103 | Entering a draft commits exactly its transaction or its error and nothing |
| F1SessionStore.SessionStore.ConfirmResult | packages/domain/src/f1/result-entry.ts:107-132 | The same for confirming, replay included |
| F1SessionStore.SessionStore.CancelSession | packages/domain/src/f1/result-entry.ts:136-157 | The same for cancelling |
| F1SessionStore.SessionStore.LockSession | packages/db/src/f1/session-lock.ts:20-34 | The same for locking at the start |
| F1SessionStore.SessionStore.Publish | packages/db/src/f1/results-sync.ts:103-121 | The same for the sync's publication |
| F1Versions.StepKeeps | packages/db/src/f1/settlement.ts:84-129 | Every step of every actor keeps the session's invariant: versions rise, a FINISHED session's version has a confirmed official classification, a CANCELLED one's has none, and no market is open once the session has left UPCOMING |
| F1Versions.VersionsOnlyGrow | packages/domain/src/f1/result-entry.ts:74-157 | Between any two moments of any interleaving the confirmed version grows, or it and everything a settlement reads from it are the same |
| F1Versions.ConfirmFindsItsRow | packages/domain/src/f1/result-entry.ts:107-132 | A confirmation that succeeds confirms a row that was entered, and that row is then in force |
| F1Versions.OnlyPublishingRevives | packages/db/src/f1/results-sync.ts:88-121 | A step takes a session out of CANCELLED if and only if it publishes an import planned earlier |
| F1Versions.CancelledIsNotTerminal | packages/db/src/f1/results-sync.ts:88-121 | And that happens: listed and planned, cancelled, then published |
| F1Decisions.EnteringAddsADraft | packages/domain/src/f1/result-entry.ts:74-103 | A result is accepted exactly for a started session not cancelled, when it is official and of known drivers; it becomes a draft one above the greatest version, and nothing in force changes |
| F1Decisions.EntryRefusalsAreTrue | packages/domain/src/f1/result-entry.ts:74-103 | A refusal says what is so: the state, the first fault, or the first unknown driver |
| F1Decisions.ConfirmingPutsInForce | packages/domain/src/f1/result-entry.ts:107-132 | A version is confirmed exactly when it is the greatest there is; it is then in force, its row confirmed, the session finished and its open markets closed, or, in force before, nothing changes |
| F1Decisions.CancellingVoids | packages/domain/src/f1/result-entry.ts:136-157 | Cancelling voids a session under a version of its own and cancels every market; a second time it changes nothing |
| F1Decisions.PublishingPutsInForce | packages/db/src/f1/results-sync.ts:103-121 | A publication is a confirmed row one above the greatest version, in force at once, and closes the open markets |
| F1Decisions.LockingCloses | packages/db/src/f1/session-lock.ts:20-34 | A due session is locked and its open markets closed; any other is left alone |
| F1Decisions.NobodyPredictsAfterTheStart | packages/db/src/f1/session-lock.ts:20-34 | Once the lock sweep has passed a started session no market of it is open for the rest of any run |
| F1Sync.Season.Sync | packages/db/src/f1/results-sync.ts:79-123 | The session loop publishes and counts exactly as planned for each session at the time its turn comes |
| F1Sync.SyncPublishesExactly | packages/domain/src/f1/ergast-import.ts:153-168 | After a sync the classification in force of a session that has started and is not cancelled has exactly the lines of an official source; its version moves if and only if none, or another, stood before; any other session is left alone |
| F1Sync.SeasonPublishesExactly | packages/db/src/f1/results-sync.ts:79-123 | The same of every session of a season, for the rows upstream holds of it at the time its turn comes |
| F1Sync.PlannedExactlyWhen | packages/domain/src/f1/ergast-import.ts:153-168 | Each plan is made exactly in its case, told from the session's row and the source's lines |
| F1Sync.SummaryCountsPlans | packages/db/src/f1/results-sync.ts:97-122 | Each counter of the summary is the number of sessions planned so |
| F1Sync.Season.UpdateStandings | packages/db/src/f1/results-sync.ts:124-128 | The standings loop changes the drivers' points, and counts, as specified |
| F1Sync.StandingsAreTaken | packages/db/src/f1/results-sync.ts:124-128 | Every known driver ends with the points published, nobody else's change, and the count is the number of drivers whose points changed |
| F1Sync.SecondStandingsUpdateNothing | packages/db/src/f1/results-sync.ts:124-128 | The same standings again update nothing |
| F1Sync.ReplanPublishesNothing | packages/domain/src/f1/ergast-import.ts:153-168 | Planning a session again against the same lines in any order never imports |
| F1Sync.SecondSyncPublishesNothing | packages/db/src/f1/results-sync.ts:79-123 | A second sync over the same upstream rows in any order, at whatever times by which no further session has started, changes nothing |
| F1Sync.SummaryCountsChanges | packages/db/src/f1/results-sync.ts:97-122 | The summary counts every session once, and as imported exactly those whose confirmed version changed |
| F1Freshness.NeverUsedUp | packages/db/src/f1/settlement.ts:44-65 | Under every interleaving of results, scans, stale workers and all ledger writers, an F1 ticket's current version is never one it was settled at and reversed from |
| F1Freshness.F1SettlesExactlyWhenPayable | apps/worker/src/settlement/f1-handler.ts:14-29 | So a current F1 candidate settles if and only if it has an outcome and its payout and balances are safe integers |
| F1Freshness.OutcomeIsTheResult | packages/domain/src/f1/settlement.ts:26-37 | In every run a cancelled session refunds every ticket; a finished one has an official classification, and a ticket is an error exactly for a leg that does not parse or a driver without a line, a refund exactly for one who did not start, and else what the classification says |
| F1Freshness.SelectedExactlyWhen | packages/db/src/f1/settlement.ts:44-65 | A ticket is selected exactly when its session is finished or cancelled and the ticket is not settled at the version in force |
| F1Freshness.OutcomeFollowsVersion | packages/domain/src/f1/settlement.ts:26-37 | While the confirmed version stays the same, so does the outcome of every selection |
| F1Freshness.F1ScanIsScan | packages/db/src/f1/settlement.ts:44-65 | The F1 query lists, in its order, the first of the tickets not settled at their session's confirmed version, so the sweep theorems apply to it |
| LedgerPaging.PageShowsPrefixSums | packages/db/src/operations/repository.ts:346-402 | A page derived backwards from the account row holds the next 200 entries, each with the sum of the entries up to it, and a cursor exactly when more remain |
| LedgerPaging.ReadingShowsEverythingOnce | packages/db/src/operations/repository.ts:346-402 | Following the cursors yields every entry once, newest first, each with its prefix sum |
| LedgerPaging.PagesExplainTheAccount | packages/db/src/operations/repository.ts:326-345 | In every reachable state of the ledger, whatever the creation times, that holds of every account |
| LedgerPaging.AppendKeepsReading | packages/db/src/operations/repository.ts:336-345 | An entry appended between requests that sorts at or after the cursor changes no later page, balances included |
| LedgerPaging.ReadingChangesExactlyWhenOlder | packages/db/src/operations/repository.ts:346-402 | What remains to be read changes if and only if the new entry sorts before the cursor |
| PrivateCache.StepKeeps | apps/web/public/sw.js:65-99 | Every step of a write, an eviction, a purge, a sign-in or a page keeps the protocol's invariant, pages at work side by side being of one user |
| PrivateCacheRuns.ForeignEntriesAreDoomed | apps/web/public/sw.js:72-93 | In every such run, at every moment, an entry that is not filed under the owner in force has a write pending that will remove it |
| PrivateCacheRuns.PendingWriteRemoves | apps/web/public/sw.js:83-93 | And that write's remaining steps do remove it, or the whole cache |
| PrivateCacheRuns.QuiescenceIsClean | apps/web/public/sw.js:65-99 | With no write past its marker read every private entry is filed under the bound owner, there is none without a marker, and there are at most 150 |
| PrivateCacheRuns.FreshBindingDisownsWrites | apps/web/src/features/pwa/private-cache.ts:81-87 | Binding with a minted epoch leaves no write in flight that carries the new marker |
| PrivateCacheRuns.KeptUnderItsOwnMarkerOnly | apps/web/public/sw.js:83-93 | A write goes on to be kept exactly when the marker in force is the one it read; under another its entry is taken out, under none the whole cache is |
| PrivateCacheRuns.WritersKeepTheMarker | apps/web/public/sw.js:94-98 | No eviction and no discarded write takes the marker out of a cache; only deleting the whole cache does |
| PrivateCacheRuns.BindingKeepsOwnershipExactly | apps/web/src/features/pwa/private-cache.ts:62-88 | Whoever else is at work, putting the marker keeps entries owned if and only if the marker in force is absent or of the same user, or every entry still has a write pending |
| PrivateCacheRuns.FiledUnderFetcherExactly | apps/web/public/sw.js:72-83 | A response goes on to be stored exactly when a marker is in force, and is filed under the user it was fetched for if and only if that marker names who was signed in at the fetch |
| PrivateCacheRuns.FiledUnderFetcherWithoutBinding | apps/web/public/sw.js:72-83 | With no binding since the fetch, if and only if the marker in force at the fetch named him |
| PrivateCacheRuns.ServedToFetcherExactly | apps/web/public/sw.js:107-117 | At rest an entry is served to the user it was fetched for if and only if it was filed under him |
| PrivateCacheRuns.LateResponseIsFiledWrong | apps/web/public/sw.js:72-83 | For any two users, a run ends at rest with a response fetched for the first kept as the second's |
| PrivateCacheRuns.OverlappingUsersMix | apps/web/src/features/pwa/private-cache.ts:62-88 | For any two users whose pages bind together, a run ends at rest with the first's entry under the second's marker |
| PrivateCacheUse.EvictionKeepsTheNewest | apps/web/public/sw.js:94-98 | From a write's key listing to its last eviction, with no other step on that cache, exactly the last 150 entries of the listing are left, in their order |
| PrivateCacheUse.EvictsOnlyTheOldest | apps/web/public/sw.js:94-98 | In any interleaving each url a write evicts stood in its listing before the last 150 entries, and none of those is evicted |
| PrivateCacheUse.UndisturbedWriteIsStored | apps/web/public/sw.js:72-98 | A response that comes back undisturbed is stored as the newest entry under the marker in force, in place of an older one of its url and of the oldest beyond 150; without a marker nothing is |
| PrivateCacheUse.WritesComeToAnEnd | apps/web/public/sw.js:72-98 | Left to itself a write ends |
| PrivateCacheUse.UndisturbedPageKeepsItsOwn | apps/web/src/features/pwa/private-cache.ts:62-88 | A page that nothing disturbs leaves the cache bound to its user, with the entries and the epoch that were there exactly when they were his, and nothing otherwise |
| PrivateCacheUse.PurgesExactlyTheForeign | apps/web/src/features/pwa/private-cache.ts:74-80 | A page purges exactly when the marker is another user's, or there is none beside entries or drafts |
| PrivateCacheUse.PagesComeToAnEnd | apps/web/src/features/pwa/private-cache.ts:49-88 | Left to itself a page's purge and binding end |
| Decimal.RoundsTheExactProduct | packages/guardrails/src/decimal.ts:34-56 | The result is the half-up rounding of the exact rational product |
| Decimal.HalfUpIsUnique | packages/guardrails/src/decimal.ts:50-53 | There is only one such integer |
| Decimal.MonotoneInBothArguments | packages/guardrails/src/decimal.ts:34-56 | Fewer points at lower odds are priced whenever more points at higher odds are, and never return more |
| Decimal.TrailingZerosChangeNothing | packages/guardrails/src/decimal.ts:40-48 | Trailing zeros of the fraction change neither result nor refusal |
| Decimal.RefusedExactlyWhenNotPositive | packages/guardrails/src/decimal.ts:20-39 | For a valid multiplicand a decimal is refused exactly when it is not a positive decimal |
| Decimal.PatternIsRecognised | packages/guardrails/src/decimal.ts:20 | The recogniser accepts exactly the pattern's language |
| OddsFormat.DecimalToFractional | apps/web/src/lib/odds-format.ts:9-45 | The fraction is positive and in lowest terms; off the table it is the first convergent within 1% of the profit or with a denominator of at least 100, and the latter's error is below one over its square |
| OddsFormat.ContinuedFraction | apps/web/src/lib/odds-format.ts:31-42 | The loop terminates, and never goes on with a tail that an exact convergent left undefined |
| OddsFormat.FirstIsUnique | apps/web/src/lib/odds-format.ts:31-42 | There is only one first convergent near enough |
| OddsFormat.ConvergentError | apps/web/src/lib/odds-format.ts:33-42 | Every convergent's error is below one over its denominator squared |
| OddsFormat.CommonIsGood | apps/web/src/lib/odds-format.ts:14-27 | The common fractions are in lowest terms and within 0.006 of their values |
| Polyline.Simplify | scripts/generate-f1-circuit-assets.py:56-68 | The recursion with its loop terminates and computes the specification |
| Polyline.SimplifiedIsClose | scripts/generate-f1-circuit-assets.py:47-68 | The result is a subsequence with both ends, and every dropped point lies within epsilon of the line through its two kept neighbours |
| Polyline.KeptForAReason | scripts/generate-f1-circuit-assets.py:56-68 | Every kept point but the ends lies farther than epsilon from the line through two other kept points, and is the first of the farthest between them |
| Polyline.OnlyEndsExactlyWhenNear | scripts/generate-f1-circuit-assets.py:56-68 | Only the ends stay exactly when every other point is within epsilon of the line through them |
| Polyline.DistanceIsLeast | scripts/generate-f1-circuit-assets.py:47-53 | No point of the line is nearer than the distance says |
| Polyline.DistanceIsReached | scripts/generate-f1-circuit-assets.py:47-53 | And some point of it is as near |
| Polyline.SimplifyingTwice | scripts/generate-f1-circuit-assets.py:56-68 | Simplifying what is simplified changes nothing |
| ClubProfile.Engagement.SubmitOnce | packages/db/src/club/repository.ts:93-149 | A submission changes the rows as specified, replays a day answered before, and reports exactly the badges that are new |
| ClubProfile.SubmitRecountsExactly | packages/db/src/club/repository.ts:107-145 | A submission keeps streaks, XP and badges equal to a recount of the attempts if and only if it is a replay, or wrong, or has no correct day after it and none before it but the day of the last answer |
| ClubProfile.RunRecountsExactly | packages/db/src/club/repository.ts:93-149 | They are so at every moment of a run if and only if every submission of it is such a one where it arrives |
| ClubProfile.RunRecounts | packages/db/src/club/repository.ts:93-149 | Which holds of any submissions and replays on days that do not go back |
| ClubProfile.AttemptsAreMarked | packages/db/src/club/repository.ts:93-149 | In every run each attempt is marked by its day's question, is worth ten points and one for each day of its streak up to seven when correct, and every day is answered once |
| ClubProfile.FirstAnswerCounts | packages/db/src/club/repository.ts:93-149 | Of a day's submissions the first is the one recorded, and any later one changes nothing |
| ClubProfile.StreakIsMaximal | packages/domain/src/club/challenge.ts:123-136 | The recounted streak is the longest run of consecutive correct days ending there |
| ClubProfile.GoingBackExactly | packages/domain/src/club/challenge.ts:123-141 | After an answer on an earlier day the current streak is the recounted one if and only if the answer is wrong or the day before was not answered correctly, and the best streak if and only if the answer is wrong or the run through that day is no longer than the best |
| ClubProfile.GoingBackBreaksTheRecount | packages/domain/src/club/challenge.ts:123-141 | Correct answers on days 1, 3 and 2 leave a streak of one where two are due and a best of one where three are |
| ClubProfile.QuestionIndex | packages/domain/src/club/challenge.ts:105-108 | The double remainder is the day modulo the bank's size, before the epoch too |

## Left out

- Timestamps, audit rows, titles and notes written beside the point rows.
- Amounts beyond what `numeric(20,2)` can hold; points are unbounded integers, and only reads check for safe integers.
- Room and market rules of ticket submission (tiers, sports, kickoff, accepted odds, one open ticket per market or round); the model admits every submission they admit and more.
- Authorization joins of grants and rooms; a room's status is a parameter.
- LedgerStore.Store.RequestGrant: succeeds and changes nothing while a request is open; the open row it reads back, and the one retry when that row was decided meanwhile, are not returned.
- PointsSubscription.SubscriptionTakesThePrice: speaks of a listing that holds all the user's accounts, in any order. After a lock wait READ COMMITTED may leave rows out; the ledger machine admits those listings, and every run theorem covers them.
- PointsSubscription.FewestAccounts: speaks of the descending order the query asks for, which a lock wait may disturb.
- Double-encoded receipts written by an earlier release, and receipts' timestamps.
- The subscription row that PRO creates or extends, and its billing period.
- The operator's single-ticket retry, which processes one candidate as the scan does.
- Parsing of F1 selection strings; which legs parse, and as what, is a parameter.
- Creation, pricing and reopening of F1 markets; a session's markets only ever close or are cancelled here.
- Missing sessions and several sessions at once in the F1 machine; sessions share no rows, so one stands for each.
- Fetching upstream pages; the rows and standings received are parameters, the standings one for each driver as in the map they arrive in.
- Equal keys in a scan's ORDER BY; they are taken to be broken alike in every scan, by any ranking of the tickets.
- Locale rules of `localeCompare`; driver codes are ordered letter by letter, and only totality of the order matters.
- Floating-point rounding in odds, distances and positions, and numbers that are NaN or infinite; reals are exact.
- Polyline.Simplify: takes epsilon as non-negative, the only use in the script being a positive constant; with a negative one the recursion would not end.
- Writes between the separate statements of one ledger page; pages are read from one snapshot, with appends between requests.
- PrivateCache.StepKeeps: takes pages at work side by side to be of one user; pages of two users do break ownership, and `PrivateCacheRuns.BindingKeepsOwnershipExactly` is the condition for every binding, theirs included.
- PrivateCacheUse.UndisturbedPageKeepsItsOwn: says what a page leaves when nobody else touches the cache; with others at work the ownership theorems hold.
- PrivateCacheRuns.QuiescenceIsClean: ownership is what an entry is filed under, the marker its writer read first; `PrivateCacheRuns.FiledUnderFetcherExactly` says when that is the user it was fetched for.
- A service worker killed in the middle of a write, request URLs equal to the marker's, and marker texts that no page wrote.
- Private caches of earlier versions, offline drafts beyond their presence, and the shell cache.
- Updates in place of the private cache: a write's steps are separated by awaits, so the protocol is a state machine over values; the same holds of the interleaved ledger, whose transactions `LedgerStore` also carries out on fields.
- American odds, cursor encoding, and the lock sweep's listing of due sessions.
- Image avatars, chat, moderation, governance, UI and everything else without shared point, result or cache state.
