# Proofs about the car-pool billing server

The server sells seats on shared accounts. It bills every customer on a recurring calendar that can be
postponed, keeps refunds, cancellations and seats consistent across a dozen entry points, keeps abusive
clients out, and charges the operator's own accounts once a month. This project models those four parts in
Dafny and proves what they are meant to guarantee, for every input and over every run.

Moments are a day number and a nanosecond within it: the server bills in Asia/Shanghai, where a day has
always 24 hours in the modern era, and the order of `YYYY-MM-DD` strings is the order of day numbers. A SQL
transaction is one step that either commits or changes nothing. Each part comes in two forms: specification
functions on plain values, about which the theorems are proved, and methods written the way the Go code is
written (loops, in-place updates, classes over mutable tables) whose postconditions equate the new state
with the specification function of the old one.

## The parts

**Billing calendar** (`Instants`, `BaseRules`, `EffectiveSchedules`, `UnpaidBoundary`, `CalendarLaws`).
A base rule is `interval:Nd` or an increasing sequence of cron occurrences with at most one per day. Each
extension postpones one boundary and all later ones. The segment walks are proved against the plain shift
map: `NextDue`, `LastDue`, `BaseDueDate` and `FirstUnpaid` return exactly the least, greatest, unique or first
open occurrence, and the error exits of `FirstUnpaid` are unreachable.

**Extension ledger** (`DueLedgers`, `DueLedgerLaws`, `DueLedgerStore`). Pay, unpay, extend, revise, revoke,
schedule a price, defer and resume, as functions of the ledger and as transactions of a class. In the
specification every bill and every pending price carries, next to its stored date, the logical period it was
entered for; the run theorems say that stored date and period never come apart.

**Lifecycle** (`Lifecycles`, `LifecycleLaws`, `LifecycleSeats`, `LifecycleFreezes`, `LifecycleMoney`,
`LifecycleReleases`, `LifecycleRoundTrips`, `LifecycleStore`). Twenty-one transactions over accounts, seats, subscriptions,
after-sales cases and bills. The invariants are local to one subscription, so each transaction answers only
for the one it touches. `departures` is a ghost log of the departures that went through the release
allowance; the program keeps no such log.

**Abuse guard** (`RequestGuards`, `RequestGuardLaws`, `RequestGuardBounds`, `AbuseGuards`, `RateLimiters`).
One specification step serves two guards, one that forgets idle clients and one that never does; the first
is proved to simulate the second. Token counts are real numbers.

**Customer grouping and account renewals** (`RepeatCustomers`, `AccountRenewals`). Union-find with path
compression on an array, and month-clamped renewal accrual on an idempotent ledger whose opening entry follows
edits until the first renewal. A pass reads the opening date, then the latest period, and accrues after that, in
three transactions. The run theorem is therefore also proved for readers whose three steps interleave with edits
and with each other, under the exact condition on the second read.

`Arithmetic`, `Collections` and `Transactions` hold what several parts share.

## Where the code and its documentation or expectation differ

- `ArchiveSubscription` is documented as a no-op for an archived subscription (internal/db/store.go:2787-2789).
  The code still runs the update and clears the seat freeze (internal/db/cancellation.go:402-420).
  `ArchivingAgainIsNoOpExactly` gives the exact condition under which the documentation is right and
  `ArchivingAgainFreesTheSeat` an instance where it is not; `StepKeepsFreeze` and `RunKeepsFreeze` show that a
  freeze is otherwise ended by nothing but an edit of that freeze.
- Paying the first unpaid date does not always move the next answer forward. `PayingMovesForward` gives the
  exact condition: it fails exactly for the very first bill, entered ahead of time while an earlier period has
  already come due. `PrepayingFirstMovesBack` shows the failing family and `PrepayingFirstExample` an instance.
- A cron `IsDueDate` does not compare the date with the boarding date (internal/cycle/cycle.go:172-194), so it
  accepts dates that are never billed: exactly those of `BilledDaysExactly`, and `AcceptedBeforeBoarding` shows
  that every cron rule boarded late has one.
- A case without a bill has no upper limit on its refund (internal/db/after_sales.go:588-590):
  `UnbilledRefundsAreUnbounded` states the exact check and `RefundWithoutReceipts` is a run that pays out without
  any receipt. Conservation is therefore a statement about each bill and not about the whole till.
- "History remains immutable" (internal/db/store.go:4003-4005) holds of renewals always, and of the opening entry
  exactly as `OpeningLockedExactly` says.
- A renewal period is computed from two separate reads, the opening date (internal/service/account_cost.go:27) and
  later the latest period (internal/service/account_cost.go:37 and 102, internal/db/store.go:4188-4200), and the
  accrual compares only the opening date (internal/db/store.go:4247-4249). An edit of the opening date and back again
  around the second read passes that guard, and an earlier period is never charged: `MixedReadsLeaveGap` is such a
  run. `SecondReadHarmlessExactly` states when a second read can do this, `AccrualGaplessExactly` when an accrual
  leaves a gap, and `FlightsStayGapless` and `UnchangedReadsStayGapless` that nothing else does.
- The release allowance, four immediate releases in 30 days (internal/db/store.go:2888-2892), is described for
  departures in general and consulted only for those with a configured end. A manual archive and a refunded ban case
  give the seat back at once, although later departures do count them. `DepartureFreezesExactly` gives the exact
  condition under which a departing customer's seat stays taken, and `FifthDepartureAtOnce` an instance in which a
  fifth departure inside the window gives its seat to the next customer.
- `UpdateAfterSalesCase` would store a negative amount after checking the old one
  (internal/db/after_sales.go:349, 582-584). The service turns negative amounts away first
  (internal/service/after_sales.go:248-251, internal/cycle/cycle.go:470-472), and the model includes that guard in
  `UpdateCase`; likewise in `AddBill` and `UpdateBill`, whose amounts come through the same parser.

## Model

| member | source | states |
|---|---|---|
| BaseRules.BaseRule.NextIntervalDue | internal/cycle/cycle.go:196-208 | The arithmetic jump finds the least interval occurrence strictly after the moment, never before the anchor |
| BaseRules.BaseRule.LastIntervalDue | internal/cycle/cycle.go:210-223 | The loop back finds the greatest occurrence at or before the moment, and nothing is found only before the first one |
| BaseRules.BaseRule.NextDue | internal/cycle/cycle.go:117-131 | For either kind of rule the answer is the least occurrence strictly after the moment |
| BaseRules.BaseRule.LastDue | internal/cycle/cycle.go:153-169 | For either kind of rule the answer is the greatest occurrence at or before the moment, not before boarding |
| BaseRules.BaseRule.LookbackLastDue | internal/cycle/cycle.go:287-306 | The bounded walk over a cron rule finds the latest billed occurrence exactly when that lies after the lookback moment, and nothing otherwise |
| BaseRules.BaseRule.IsDueDate | internal/cycle/cycle.go:172-194 | True exactly on days that carry an occurrence |
| BaseRules.BaseRule.BilledDaysExactly | internal/cycle/cycle.go:172-194 | A day that is accepted as a due date can ever be billed if and only if the rule is an interval or the day is not before the first billed occurrence |
| BaseRules.BaseRule.AcceptedBeforeBoarding | internal/cycle/cycle.go:172-194 | Every cron rule boarded after its first occurrence accepts a date it never bills |
| BaseRules.BaseRule.WholeIntervals | internal/cycle/cycle.go:190-193 | Divisibility of the distance to the anchor is the same as lying on an occurrence of the interval rule |
| EffectiveSchedules.WithExtensions | internal/cycle/effective.go:17-29 | Accepts exactly the lists whose extensions have 1 to 365 days and start on a base occurrence, and keeps them all, ordered by base |
| EffectiveSchedules.SortByBaseSorts | internal/cycle/effective.go:17-29 | Ordering the extensions loses none and repeats none |
| EffectiveSchedules.SortKeepsShift | internal/cycle/effective.go:17-29 | The order in which extensions are stored never changes the shift map |
| EffectiveSchedules.BillingSchedule.EffectiveDue | internal/cycle/effective.go:37-46 | The loop that stops at the first later boundary computes the plain sum of all shifts at or before the base day |
| EffectiveSchedules.BillingSchedule.EffectiveDaysIncrease | internal/cycle/effective.go:37-46 | Effective dates are strictly increasing and at least as far apart as their periods |
| EffectiveSchedules.BillingSchedule.BaseDueDate | internal/cycle/effective.go:49-75 | Exact inverse of the shift map: succeeds exactly on its image, with the one base day mapped there |
| EffectiveSchedules.BillingSchedule.IsDueDate | internal/cycle/cycle.go:172-194 | A date is billable exactly when some effective occurrence falls on it |
| EffectiveSchedules.BillingSchedule.NextEffectiveDue | internal/cycle/effective.go:77-98 | The forward segment walk finds the least effective occurrence strictly after the moment, with several extensions on one base day too |
| EffectiveSchedules.BillingSchedule.LastEffectiveDue | internal/cycle/effective.go:100-124 | The backward segment walk finds the greatest effective occurrence at or before the moment, and fails only before the first one |
| EffectiveSchedules.BillingSchedule.NextDue | internal/cycle/cycle.go:117-131 | With or without extensions: least effective occurrence after the moment |
| EffectiveSchedules.BillingSchedule.LastDue | internal/cycle/cycle.go:153-169 | With or without extensions: greatest effective occurrence at or before the moment |
| UnpaidBoundary.UnpaidExists | internal/cycle/effective.go:172-182 | Pigeonhole: within as many tries as there are bills plus one an unpaid period turns up |
| UnpaidBoundary.LedgerBoundary | internal/cycle/effective.go:132-151 | The start of the search is the boundary given by the earliest bill and the last or next due |
| UnpaidBoundary.FirstUnpaid | internal/cycle/effective.go:131-183 | Returns the earliest open period at or after the ledger boundary and the pinned anchors; no error exit is reachable |
| UnpaidBoundary.FirstUnpaidUnique | internal/cycle/effective.go:126-183 | The period so described is unique, so the method's answer is determined by schedule, clock, bills and anchors |
| CalendarLaws.ExtensionMovesByExactly | internal/db/due_extension.go:328-480 | Postponing the first unpaid period by d days moves the next actionable date by exactly d, at the same clock, whatever the ledger |
| CalendarLaws.WithdrawalKeepsPeriod | internal/db/due_extension.go:570-808 | Withdrawing an extension keeps its period first unpaid, also when it is overdue by then |
| CalendarLaws.WaitingChangesNothing | internal/cycle/effective.go:131-183 | Passing time never changes the answer if and only if a bill or an anchor already holds its period |
| CalendarLaws.LedgerHoldsStill | internal/cycle/effective.go:138-151 | Once the earliest bill is not after the last due, passing time alone never changes the answer |
| CalendarLaws.PayingMovesForward | internal/cycle/effective.go:138-181 | Paying the first unpaid date makes the next answer strictly later if and only if there already was a bill, or the period had come due, or it is the first one |
| CalendarLaws.PrepayingFirstMovesBack | internal/cycle/effective.go:138-151 | Every first bill prepaid over an earlier due period makes that earlier period the next answer |
| CalendarLaws.PrepayingFirstExample | internal/cycle/effective.go:138-151 | A concrete instance on an interval rule during its first period |
| DueLedgerLaws.StepKeepsInPlace | internal/db/store.go:2979-3117 | Every accepted or refused operation leaves each bill and the pending price on the date of its own period |
| DueLedgerLaws.RunKeepsInPlace | internal/db/due_extension.go:328-808 | Over every run of pay, unpay, extend, revise, revoke, price and deferral operations bills and prices stay in place and history rows only grow |
| DueLedgerLaws.SurvivingBillKeepsPeriod | internal/db/due_extension.go:641-725 | A bill that is never withdrawn keeps its period through the whole stretch of a run, whatever corrections its amount sees |
| DueLedgerLaws.LinkedBillIsFixed | internal/db/store.go:3316-3372 | For as long as an after-sales case names it, a bill is neither withdrawn nor corrected by any operation |
| DueLedgerLaws.UnlinkedBillIsNotFixed | internal/db/store.go:3226-3261 | A correction to another amount is without effect if and only if a case names the bill |
| DueLedgerLaws.ExtendKeepsInPlace | internal/db/due_extension.go:398-418 | Extending keeps dates and periods together, and the failure to place a pending price is unreachable |
| DueLedgerLaws.ReviseKeepsInPlace | internal/db/due_extension.go:641-725 | Revising keeps dates and periods together, and the failure to place a pending price is unreachable |
| DueLedgerLaws.ExtendingMovesDueDate | internal/db/due_extension.go:328-480 | An accepted extension moves the ledger's actionable date by exactly its days and records both dates truthfully |
| DueLedgerLaws.PriceDateRecomputed | internal/db/due_extension.go:398-418 | The incremental day shift of a pending price equals mapping its base period afresh |
| DueLedgerLaws.PriceFollowsPeriod | internal/service/subscription.go:1794-1804 | A period is charged the pending price exactly when it is not before the price's base period |
| DueLedgerLaws.RevokingUndoesExtending | internal/db/due_extension.go:570-808 | Revoking right after extending restores the schedule, the pending price, the bills and the first unpaid date, even if it became overdue |
| DueLedgerLaws.ReplacingEqualsExtending | internal/db/due_extension.go:570-808 | Superseding d days by e gives the schedule, price date and actionable date of extending by e originally, which would have been accepted |
| DueLedgerLaws.RevisionReplay | internal/db/due_extension.go:582-639 | Replaying an operation key at any later point changes nothing and reports the same result |
| DueLedgerLaws.BenefitReplay | internal/db/due_extension.go:284-326 | Applying the same benefit again at any later point changes nothing |
| DueLedgerStore.SubscriptionLedger.CurrentFirstUnpaid | internal/db/due_extension.go:73-134 | Yields the first unpaid date of schedule and history exactly when a bill, an extension or a deferral anchors it, and nothing otherwise |
| DueLedgerStore.SubscriptionLedger.IsCurrentFirstUnpaid | internal/db/due_extension.go:139-153 | Accepts exactly the anchored first unpaid date, or any due date while nothing anchors one |
| DueLedgerStore.SubscriptionLedger.ReadActive | internal/db/due_extension.go:26-64 | Reading with the revised rows filtered out yields the active extensions in order |
| DueLedgerStore.SubscriptionLedger.LastActive | internal/db/due_extension.go:570-641 | Finds the one active extension that no other active one follows |
| DueLedgerStore.SubscriptionLedger.PayDue | internal/db/store.go:2979-3117 | Commits exactly the specified payment, with price adoption and version check, or changes nothing |
| DueLedgerStore.SubscriptionLedger.UnpayDue | internal/db/store.go:3316-3358 | Commits exactly the specified withdrawal of an unreferenced bill, or changes nothing |
| DueLedgerStore.SubscriptionLedger.ApplyDueExtension | internal/db/due_extension.go:328-480 | Commits exactly the specified extension at the first unpaid period, or changes nothing |
| DueLedgerStore.SubscriptionLedger.ApplyCustomerBenefitExtension | internal/db/due_extension.go:284-326 | Commits exactly the specified benefit extension, recognising a replay |
| DueLedgerStore.SubscriptionLedger.ReviseCustomerBenefitExtension | internal/db/due_extension.go:570-808 | Commits exactly the specified revocation or replacement of the newest extension, or changes nothing |
| DueLedgerStore.SubscriptionLedger.ScheduleNextPrice | internal/db/store.go:2172-2270 | Stores a pending price only for the reviewed version and on a date of the schedule |
| DueLedgerStore.SubscriptionLedger.DeferSubscriptionRenewal | internal/db/renewal_deferral.go:110-138 | Pins the reviewed, already due first unpaid date, or changes nothing |
| DueLedgerStore.SubscriptionLedger.RestoreSubscriptionRenewal | internal/db/renewal_deferral.go:141-163 | Ends the deferral but keeps its date as an anchor |
| LifecycleLaws.CasesStayInOrder | internal/db/after_sales.go:145-179 | From empty tables, after every sequence of transactions: at most one open case per subscription, cancellation_case_id set exactly to its own open cancellation, no open case without an active subscription, at most one refunded case and only when archived |
| LifecycleLaws.StepKeepsCaseRules | internal/db/after_sales.go:454-549 | Each of the 21 transactions keeps all references and case rules |
| LifecycleLaws.RunKeepsCaseRules | internal/db/cancellation.go:15-458 | Every run keeps them from any state that satisfies them |
| LifecycleLaws.BanOneKeepsRules | internal/db/after_sales.go:145-260 | Banning one customer, superseding a pending cancellation, keeps the case rules: nobody ends up with two open cases |
| LifecycleLaws.CompleteCancellationKeepsRules | internal/db/cancellation.go:311-382 | Completing a cancellation keeps the case rules, although its first write alone does not |
| LifecycleLaws.ExpiryKeepsRules | internal/db/cancellation.go:253-306 | The expiry sweep keeps the case rules: cases and the fields that name them go together |
| LifecycleLaws.UndoRefundKeepsRules | internal/db/after_sales.go:497-549 | Undoing a refund keeps the case rules: the reopened case is again the customer's only open one and has an active subscription |
| LifecycleLaws.ReassignKeepsRules | internal/db/after_sales.go:647-818 | Moving an affected customer to another account keeps the case rules: no ban case stays behind for a seat the customer has left |
| LifecycleSeats.SeatsStayExclusive | internal/db/store.go:1754-1815 | At every moment of every run with a clock that never goes back, each seat has at most one subscription in use or still frozen |
| LifecycleSeats.StepKeepsExclusive | internal/db/store.go:1766-1808 | Each transaction keeps that, at its own moment |
| LifecycleSeats.ExclusiveLater | internal/db/store.go:1774-1781 | Passing time cannot give a seat a second holder |
| LifecycleSeats.NobodySeatedOnPaused | internal/db/store.go:2014-2019 | Whoever starts using a seat finds it free and its account running, and not banned unless a refund is undone |
| LifecycleSeats.SeatGivenExactly | internal/db/store.go:1979-2059 | A new customer gets a seat if and only if its account is running and not banned and nobody holds it, and then is its one holder |
| LifecycleSeats.PausingClosesSeats | internal/db/account_availability.go:13-53 | While an owner is paused no transaction seats anybody new there, and nobody already there is disturbed |
| LifecycleFreezes.ArchivingAgainIsNoOpExactly | internal/db/cancellation.go:402-420 | Archiving an archived customer by hand changes nothing if and only if there is no freeze left or a deferral makes it refuse |
| LifecycleFreezes.ArchivingAgainFreesTheSeat | internal/db/store.go:2787-2792 | An instance: a seat frozen until day 30 is refused on day 1, and given away after archiving its customer again |
| LifecycleFreezes.StepKeepsFreeze | internal/db/store.go:4532-4565 | A freeze still in force survives every transaction except a manual archive of that customer and an edit of that freeze |
| LifecycleFreezes.UnfreezingEndsFreezeExactly | internal/db/cancellation.go:402-420 | Either of those two, unless refused or setting the same end, does end it |
| LifecycleFreezes.RunKeepsFreeze | internal/db/store.go:1774-1781 | Over every run that has neither, until the freeze ends, the departed customer is the one and only holder of the seat |
| LifecycleFreezes.DepartureFreezesExactly | internal/db/store.go:2893-2937 | After a manual or due archive or a completed refund the departing customer's seat stays taken if and only if the departure has a configured end still to come and four or more others of the account left within the window |
| LifecycleFreezes.FifthDepartureAtOnce | internal/db/store.go:2787-2792 | An instance: the fifth departure inside the window, archived by hand, gives its seat to the next customer at once, where the allowance would have refused that customer |
| LifecycleFreezes.FreezeEditMovesTheEnd | internal/db/store.go:4534-4565 | A freeze can be edited if and only if it is in force, and the seat is then held until exactly the new end |
| LifecycleFreezes.DeletingFreesNothing | internal/db/store.go:2750-2775 | A customer can be deleted if and only if archived and holding no seat, so no seat changes hands now or later |
| LifecycleMoney.ProrationIsHalfUp | internal/db/after_sales.go:631-643 | The split formula equals floor((paid * remaining + period / 2) / period), lies between 0 and paid, and its products stay below paid or the squared period |
| LifecycleMoney.ProrationBounds | internal/db/after_sales.go:631-643 | On all inputs with a non-negative payment the refund lies between nothing and everything |
| LifecycleMoney.RefundShrinksOverTime | internal/db/after_sales.go:204-219 | The refund of a case is everything up to the due date, nothing once the warranty is used up, and never grows as the event date moves on |
| LifecycleMoney.RefundCheckIsExact | internal/db/after_sales.go:557-608 | The check accepts a refund exactly when completing it leaves the bill's receipts non-negative and no later payment stranded |
| LifecycleMoney.UnbilledRefundsAreUnbounded | internal/db/after_sales.go:588-590 | Without a bill any amount passes, if and only if no later payment would be stranded |
| LifecycleMoney.RefundWithoutReceipts | internal/db/after_sales.go:588-590 | A run from empty tables in which a customer who never paid is refunded an arbitrary amount |
| Lifecycles.LatestBill | internal/db/after_sales.go:191-200 | The bill a case refunds is the customer's latest one due by the event, the newest among equal dates, and none only if there is none |
| Lifecycles.FirstFreeSeat | internal/db/after_sales.go:716-735 | Without a named seat, reassignment picks the account's first seat nobody holds, and fails only if there is none |
| LifecycleMoney.ReceiptsStayCovered | internal/db/after_sales.go:554-608 | After every run each linked bill still has the amount its case was computed from, and the refunds completed on a bill never exceed its amount |
| LifecycleMoney.StepKeepsMoney | internal/db/after_sales.go:378-552 | Each transaction keeps that |
| LifecycleMoney.CompletionKeepsMoney | internal/db/after_sales.go:592-607 | A refund that passes the check leaves the bill's receipts non-negative |
| LifecycleMoney.BillOpsKeepMoney | internal/db/store.go:3226-3372 | Bills named by a case are immutable, so corrections and withdrawals cannot break the accounts |
| LifecycleMoney.NewCasePaidOnce | internal/db/after_sales.go:181-222 | A new case shows its bill's amount and proposes no more than it |
| LifecycleReleases.FiveReleasesSpanMoreThanThirtyDays | internal/db/store.go:2888-2937 | In every run with a non-decreasing clock, five logged departures of one account of which the last was released at once span more than 30 days |
| LifecycleReleases.StepKeepsLog | internal/db/store.go:2893-2937 | Each transaction keeps the log true, ordered and within the allowance |
| LifecycleReleases.RemoveKeepsLog | internal/db/renewal_deferral.go:172-213 | So does a batch of removals confirmed at one instant, each seeing the ones before it |
| LifecycleReleases.WindowCounted | internal/db/store.go:2912-2932 | Every logged departure in the window is among those the query counts |
| LifecycleReleases.OthersKeep | internal/db/seat_integrity.go:38-41 | No other transaction un-archives, moves or loses the seat of a departed customer |
| LifecycleReleases.DepartUnfolds | internal/db/store.go:2933-2936 | A departure is logged as immediate exactly when fewer than four were counted, which is exactly when its seat comes back without a freeze |
| LifecycleRoundTrips.UndoRestoresEverything | internal/db/after_sales.go:412-549 | Undoing a completed ban refund brings back every table exactly, unless the account has been paused |
| LifecycleRoundTrips.UnprocessedCancellationLeavesNoTrace | internal/db/cancellation.go:251-306 | An expired, untouched cancellation leaves only a used case number behind |
| LifecycleRoundTrips.BanningTwiceChangesNothing | internal/db/after_sales.go:80-96 | Repeating a ban, on any day, changes nothing |
| LifecycleRoundTrips.ResumingUndoesPausing | internal/db/account_availability.go:13-53 | Resuming an owner restores the tables if and only if none of the accounts was paused before |
| LifecycleRoundTrips.DeletingSeatForgetsNothing | internal/db/store.go:4405-4418 | A seat can be deleted if and only if no customer, past or present, names it, and no counted departure is lost |
| LifecycleRoundTrips.WithdrawingUndoesRecording | internal/db/store.go:3316-3358 | Withdrawing a bill just recorded leaves only a used bill number and an ended deferral |
| LifecycleRoundTrips.BillsEditableExactly | internal/db/store.go:3226-3372 | A bill can be corrected or withdrawn if and only if no case was computed from it, and a correction can be taken back |
| LifecycleStore.StepStaysOrderly | internal/db/store.go:2811-2886 | Every transaction, committed or refused, keeps all four groups of invariants together; each public method of the store ends in a state that has them |
| LifecycleStore.Store.BanAccount | internal/db/after_sales.go:51-267 | Commits exactly the specified ban of every active customer and counts the new cases, or rolls everything back |
| LifecycleStore.Store.BanSubscription | internal/db/after_sales.go:145-261 | One customer of the ban loop |
| LifecycleStore.Store.RequestCancellation | internal/db/cancellation.go:15-241 | Opens exactly the specified case and links it, or changes nothing |
| LifecycleStore.Store.RestoreExpired | internal/db/cancellation.go:253-306 | Deletes and forgets the expired cancellations and counts the restored subscriptions |
| LifecycleStore.Store.CompleteCancellation | internal/db/cancellation.go:311-382 | Commits exactly the specified refund and departure, or rolls the case back |
| LifecycleStore.Store.ArchiveInTransaction | internal/db/cancellation.go:384-458 | Writes exactly the specified archived row and drops the cancellation it supersedes |
| LifecycleStore.Store.ArchiveThroughAllowance | internal/db/store.go:2893-2937 | Archives with the freeze the allowance asks for |
| LifecycleStore.Store.EnsureRefundWithinPayment | internal/db/after_sales.go:557-608 | Decides the refund check, with the stored amount standing in for a negative proposal |
| LifecycleStore.Store.SetRefunded | internal/db/after_sales.go:378-552 | Dispatches on the source and commits exactly the specified refund or undo |
| LifecycleStore.Store.RefundBan | internal/db/after_sales.go:412-496 | Commits exactly the specified refund and archive, or rolls the case back |
| LifecycleStore.Store.UndoRefund | internal/db/after_sales.go:427-549 | Commits exactly the specified reopening, or rolls the case back |
| LifecycleStore.Store.CompleteDeferred | internal/db/renewal_deferral.go:172-213 | Commits the whole batch in order, or rolls all of it back |
| RequestGuardLaws.EvictionUnobservable | internal/handler/abuse.go:120-147 | With a non-decreasing clock and no capacity refusal, the evicting guard answers every call like one that never forgets |
| RequestGuardLaws.StepMirrors | internal/handler/abuse.go:120-234 | One call of the evicting guard is refused for lack of room or answered alike, and the two guards stay related |
| RequestGuardBounds.RunSlots | internal/handler/abuse.go:104-164 | Over every run counters and bans are disjoint and within 8192 together, and the ban table never refuses for lack of room |
| RequestGuardBounds.BlockFits | internal/handler/abuse.go:149-164 | Turning a counter into a ban always fits, in memory and in the table |
| RequestGuardBounds.RunKeepsInvariants | internal/handler/abuse.go:104-251 | The invariants the bounds start from, among them that rows still in force are bans in memory, hold wherever a run has got to |
| RequestGuardBounds.NewGuardSlots | internal/handler/abuse.go:56-71 | A guard started from a table of recent rows within its limit satisfies every condition that the run theorems start from |
| RequestGuardBounds.RestartKeepsStoredBans | internal/db/ip_block.go:21-43 | After any run the table is such a table, and a restart keeps exactly the bans that reached it, each with the time it had left |
| RequestGuardBounds.BanLastsToItsEnd | internal/handler/abuse.go:104-112 | A ban is never dropped before its end, and until then its client is refused everything |
| RequestGuardBounds.RequestRateBounded | internal/handler/abuse.go:174-193 | In any T seconds of any run one client gets at most 120 + 6T requests through |
| AbuseGuards.BlockTable.PutIPBlock | internal/db/ip_block.go:47-89 | Prunes, then adds or extends within capacity, exactly as specified |
| AbuseGuards.AbuseGuard.RetryAfterLocked | internal/handler/abuse.go:104-112 | Remaining time of a ban, dropping one that is over |
| AbuseGuards.AbuseGuard.StateLocked | internal/handler/abuse.go:120-147 | Sweeps idle clients when due and finds or makes the client's counters within capacity |
| AbuseGuards.AbuseGuard.BlockLocked | internal/handler/abuse.go:149-164 | Moves the client from the counters to the bans and to the table |
| AbuseGuards.AbuseGuard.AllowRequest | internal/handler/abuse.go:174-193 | Token bucket step, exactly as specified |
| AbuseGuards.AbuseGuard.BeginLogin | internal/handler/abuse.go:195-209 | Login attempt step, exactly as specified |
| AbuseGuards.AbuseGuard.RecordFailure | internal/handler/abuse.go:211-234 | Failure step for each kind, exactly as specified |
| AbuseGuards.AbuseGuard.CompleteLogin | internal/handler/abuse.go:238-251 | A granted login clears the failures, a ban or an error does not |
| RateLimiters.WindowBounded | internal/handler/security.go:85-108 | At most the limit gets through in a started window |
| RateLimiters.TwiceLimitPerInterval | internal/handler/security.go:85-116 | At most twice the limit gets through in any interval of one window length, despite pruning |
| RateLimiters.FixedWindowLimiter.AllowRequest | internal/handler/security.go:85-108 | The limiter step, exactly as specified |
| RateLimiters.FixedWindowLimiter.Prune | internal/handler/security.go:110-116 | Drops exactly the windows that are over |
| RepeatCustomers.CountRepeatCustomerGroups | internal/service/customer_care.go:1096-1149 | Counts the connected components, under sharing a normalised e-mail or WeChat, that hold a subscription billed more than once |
| RepeatCustomers.ComponentsPartition | internal/service/customer_care.go:1124-1141 | Sharing identities through a chain is an equivalence: components are equal or disjoint and cover every subscription |
| RepeatCustomers.Find | internal/service/customer_care.go:1111-1116 | The recursive, compressing find terminates, returns the class representative and keeps every class |
| RepeatCustomers.Union | internal/service/customer_care.go:1117-1123 | Merges the two classes, separates nobody and joins only connected customers |
| RepeatCustomers.ClassesAreComponents | internal/service/customer_care.go:1124-1141 | After all identities are linked the classes are exactly the connected components |
| RepeatCustomers.RootsCountGroups | internal/service/customer_care.go:1142-1148 | Counting roots that are billed twice counts components that are |
| AccountRenewals.MonthlyAnniversary | internal/service/account_cost.go:149-155 | The day clamped to the length of the month |
| AccountRenewals.NextMonthlyAnniversary | internal/service/account_cost.go:133-147 | The loop finds the first anniversary after both the opening date and the latest period |
| AccountRenewals.NextMonthIsNext | internal/service/account_cost.go:133-147 | There is no anniversary in between |
| AccountRenewals.RenewalsDoNotDrift | internal/service/account_cost.go:133-155 | n steps from day 31 land on the n-th month clamped from 31 |
| AccountRenewals.ProcessingAddsExactly | internal/service/account_cost.go:26-59 | A pass adds exactly the anniversaries after the opening date and the latest period and not after today, each once, and touches no other entry |
| AccountRenewals.ProcessingTwiceAddsNothing | internal/service/account_cost.go:26-59 | Running the pass again adds nothing |
| AccountRenewals.ProcessingCompletes | internal/service/account_cost.go:26-59 | After a pass nothing between the first entry and today is missing |
| AccountRenewals.MarkingKeepsGapless | internal/service/account_cost.go:64-96 | An operator-confirmed renewal that runs undisturbed never leaves a gap |
| AccountRenewals.RunStaysGapless | internal/db/store.go:4017-4129 | Over every run of whole passes, confirmations, edits of cost and opening date, and bans, one after the other, the ledger stays gap-free, renewal entries never change, and neither does the opening entry once it has company |
| AccountRenewals.OpeningLockedExactly | internal/db/store.go:4076-4129 | No edit can touch the opening entry if and only if another entry exists or it carries a historical balance |
| AccountRenewals.EditBeforeRenewal | internal/db/store.go:4076-4129 | Before the first renewal an ordinary opening entry takes exactly the new cost and the new opening date |
| AccountRenewals.FlightsStayGapless | internal/db/store.go:4221-4249 | However the two reads, accruals, edits and bans interleave, the ledger stays gap-free as long as each read of the latest period was harmless: the account is banned, renewed or without entries, or the entry read gives the same period as the opening date read first |
| AccountRenewals.UnchangedReadsStayGapless | internal/service/account_cost.go:98-107 | In particular it stays gap-free when, at each read of the latest period, the opening date is still the one that was read first |
| AccountRenewals.AccrualGaplessExactly | internal/db/store.go:4225-4283 | An accrual under the current opening date leaves no gap if and only if the latest period it was computed from does not lead beyond the period that is next now |
| AccountRenewals.SecondReadHarmlessExactly | internal/service/account_cost.go:98-107 | Reading the latest period, putting the opening date back and accruing leaves no gap if and only if that read was harmless |
| AccountRenewals.MixedReadsLeaveGap | internal/service/account_cost.go:26-59 | A concrete run: opening date 31 January read, moved to 10 March, latest period read, moved back, 31 March charged and 28 February never |
| AccountRenewals.StaleAccrualWouldLeaveGap | internal/db/store.go:4247-4249 | Without the opening-date guard a concrete interleaving does leave one |
| AccountRenewals.AccountLedger.LatestPeriod | internal/db/store.go:4188-4200 | The greatest recorded period |
| AccountRenewals.AccountLedger.UpdateAccount | internal/db/store.go:4017-4129 | The lock and the two aligning statements commit exactly the specified edit, or refuse it |
| AccountRenewals.AccountLedger.AccrueAccountRenewal | internal/db/store.go:4225-4283 | Adds one entry unless it exists, the account is banned or its opening date has changed |
| AccountRenewals.AccountLedger.ProcessAccountCostRenewals | internal/service/account_cost.go:26-59 | The loop leaves exactly the processed ledger |
| AccountRenewals.AccountLedger.MarkAccountRenewed | internal/service/account_cost.go:64-96 | Commits exactly the specified confirmation, or reports why not |

## Left out

- The cron parser: a cron rule is any increasing sequence of occurrences with at most one per day, with a billing time of day and a boarding date.
- BaseRules.BaseRule.LastDue: does not stop at the three-year lookback of a cron rule; LookbackLastDue states exactly when that makes a difference, which takes two billed occurrences more than three years apart.
- Parsing and formatting of dates, times and amounts: the model starts from day numbers, moments and integer cents.
- Fixed integer width: amounts and counts are unbounded integers; LifecycleMoney.ProrationIsHalfUp bounds the intermediate products of the one formula that was written to avoid overflow.
- DueLedgerStore.SubscriptionLedger.ApplyCustomerBenefitExtension: the benefit row's type and its expected subscription are not checked, because the benefit table is not modelled.
- DueLedgerStore.SubscriptionLedger.ReviseCustomerBenefitExtension: the guard on the benefit's type (internal/db/due_extension.go:647-652) and the refusal when a linked price benefit cannot be moved (786-788) are left out with that table; negative days, which the store would record as a revocation, are refused as the service refuses them.
- DueLedgers: direct edits of a subscription's price, cron expression and boarding date are not operations of the ledger; corrections of bill amounts are. Without extensions and with at most one bill the service lets the schedule change, and UpdateSubscriptionAndMoveInitialBill (internal/db/store.go:2372-2453) then re-keys that one bill, if no case names it, together with cron expression and boarding date.
- Floating-point rounding of the token bucket, and the rounding of `julianday` comparisons.
- LifecycleStore.Store.RestoreExpired: compares moments, where the sweep compares their RFC 3339 texts (internal/db/cancellation.go:271 and 291, internal/db/store.go:5346-5348); within one second the order of those texts is not the order of time, because trailing zeros of the fraction are trimmed.
- The database's own clock in the seat triggers: it is taken to be the moment passed to the transaction.
- The result of parsing extension rows: stored extensions are well-formed by construction.
- DueLedgerStore.SubscriptionLedger.ScheduleNextPrice: pricing exemptions, the review date and the linked price benefits are not modelled, because they do not touch the calendar; CorrectNextPriceEffectiveDueDate is left out with them.
- DueLedgers: one subscription at a time, on one fixed base schedule.
- Notifications, e-mail batches, benefit rows, notes and other snapshot text columns written inside the same transactions.
- LifecycleStore.Store.CompleteDeferred: whether each reviewed version and due date is still current is a parameter of the batch.
- LifecycleStore.Store.AddBill: the version check of the cited subscription snapshot, and the price transition, which DueLedgers models.
- LifecycleStore.Store.UpdateCase: a negative amount is refused as the service does, where the store alone would accept it.
- LifecycleStore.Store.DeferRenewal: whether the reviewed version and due date are current is a parameter, because the ledger that decides it is modelled in DueLedgers.
- LifecycleStore.Store.ArchiveSubscription: likewise for whether a natural expiry is still overdue.
- LifecycleStore.Store.MoveSubscription: edits of fields other than the seat.
- LifecycleStore.Store.BanAll: the affected customers are visited in order of id in one loop, where the program first collects them; the ban of one customer changes no other, so the outcome is the same.
- LifecycleStore.Store.SetPaused: which accounts belong to one owner is a parameter.
- AccountRenewals.AccountLedger.ProcessAccountCostRenewals: one account; the program repeats the pass for each.
- Redemption codes, Plus rentals, one-month rentals, business-type edits, deletion of mistaken registrations, legacy rows with dangling references, and start-up backfills.
- Manual entries of the account cost ledger, which no statement of the program inserts, and the start-up repairs of old opening entries.
- DeleteIPBlock, the concurrent-login semaphore, HTTP handlers, sessions and locks: each guard call is one atomic step.
- Unicode case folding in identity normalisation: RepeatCustomers lowers and trims ASCII only.
- The identity closure of the benefit outcome view (internal/service/customer_care.go:714-730) is order-dependent and nothing is claimed about it.
- Market radar, pricing recommendations, forecasts, dashboards, calendar rendering and exports.
