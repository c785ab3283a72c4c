/** One subscription's billing ledger: bills, delivered extensions and their revisions, and the
    pending price. Every operation of internal/db/due_extension.go and of setDuePaid in
    internal/db/store.go is given here as a function of the ledger before it; a refused operation
    rolls its transaction back and changes nothing. */
module DueLedgers {
  import opened Instants
  import opened BaseRules
  import opened EffectiveSchedules
  import opened Transactions
  import opened UnpaidBoundary

  /** A delivered extension. Its id is its position in the table; rows are never changed. */
  datatype Extension = Extension(benefitId: int, base: int, days: int, previousDue: int, effectiveDue: int)

  datatype Action = Revoked | Superseded

  datatype Revision = Revision(
    extension: nat, action: Action, replacement: Option<nat>,
    previousDays: int, replacementDays: int, reason: string, operationKey: string)

  /** `period` records which logical period the bill was entered for. The program stores only the
      due day; that the two never come apart is what this module proves. */
  datatype Bill = Bill(amountCents: int, period: int)

  datatype PendingPrice = PendingPrice(cents: int, dueDate: int, period: int)

  /** The columns that the operations' row filters look at. */
  datatype Standing = Standing(
    team: bool, resale: bool, seated: bool, banned: bool, archived: bool, cancelling: bool, openCase: bool)
  {
    predicate MayExtend() {
      !archived && team && !resale && seated && !banned && !cancelling && !openCase
    }

    predicate MayRevise() {
      !archived && !cancelling && (!seated || !banned) && !openCase
    }

    predicate MayDefer() {
      !archived && team && !cancelling && !openCase
    }
  }

  datatype LedgerError =
    | NotFound
    | StateChanged
    | OpenAfterSales
    | NotADueDate
    | FinancialStateChanged
    | BillHasAfterSalesCase
    | InvalidAmount
    | RenewalDeferred
    | InvalidDays
    | DuplicateBenefit
    | BenefitMismatch
    | PaidAhead
    | PriceDateUnresolved
    | OperationConflict
    | AlreadyRevised
    | NotLastActive
    | PeriodBilled
    | PeriodNotified
    | PeriodRepriced

  type Outcome<+T> = Settlement<T, LedgerError>

  datatype Receipt = Receipt(replacementBenefit: Option<int>, replayed: bool)

  datatype Expectation = Expectation(version: int, previousDue: int)

  datatype Revising = Revising(benefitId: int, days: int, reason: string, operationKey: string, newBenefitId: int) {
    function Action(): Action {
      if days > 0 then Superseded else Revoked
    }
  }

  // ---- tables

  function RevisedIds(revisions: seq<Revision>): set<nat> {
    set i | 0 <= i < |revisions| :: revisions[i].extension
  }

  /** The unrevised ones among the first `n` extensions, oldest first. */
  function ActiveAmong(events: seq<Extension>, revised: set<nat>, n: nat): seq<DueExtension>
    requires n <= |events|
  {
    if n == 0 then []
    else ActiveAmong(events, revised, n - 1)
         + (if n - 1 in revised then [] else [DueExtension(events[n - 1].base, events[n - 1].days)])
  }

  /** ORDER BY base_due_date, id. */
  predicate Precedes(events: seq<Extension>, i: nat, j: nat)
    requires i < |events| && j < |events|
  {
    events[i].base < events[j].base || (events[i].base == events[j].base && i < j)
  }

  predicate IsActive(events: seq<Extension>, revised: set<nat>, id: nat) {
    id < |events| && id !in revised
  }

  ghost predicate IsLastActive(events: seq<Extension>, revised: set<nat>, id: nat) {
    && IsActive(events, revised, id)
    && forall i: nat :: IsActive(events, revised, i) && i != id ==> Precedes(events, i, id)
  }

  /** Days contributed by the active extensions ordered before extension `id`. */
  function ShiftBefore(events: seq<Extension>, revised: set<nat>, id: nat, n: nat): int
    requires n <= |events| && id < |events|
  {
    if n == 0 then 0
    else ShiftBefore(events, revised, id, n - 1)
         + (if n - 1 !in revised && Precedes(events, n - 1, id) then events[n - 1].days else 0)
  }

  ghost predicate IsEarliestBase(events: seq<Extension>, base: int) {
    && (exists i :: 0 <= i < |events| && events[i].base == base)
    && forall i :: 0 <= i < |events| ==> base <= events[i].base
  }

  // ---- the ledger

  datatype Ledger = Ledger(
    rule: BaseRule,
    bills: map<int, Bill>,
    events: seq<Extension>,
    revisions: seq<Revision>,
    priceCents: int,
    agencyFeeCents: int,
    pending: Option<PendingPrice>,
    repriced: set<int>,
    notified: set<int>,
    linked: set<int>,
    deferred: bool,
    deferredDue: Option<int>,
    standing: Standing,
    version: int)
  {
    function Revised(): set<nat> {
      RevisedIds(revisions)
    }

    function Active(): seq<DueExtension> {
      ActiveAmong(events, Revised(), |events|)
    }

    function Schedule(): BillingSchedule {
      BillingSchedule(rule, SortByBase(Active()))
    }

    ghost predicate EventsValid() {
      && (forall i :: 0 <= i < |events| ==> 1 <= events[i].days <= 365 && rule.IsDueDay(events[i].base))
      && (forall i, j :: 0 <= i < j < |events| ==> events[i].benefitId != events[j].benefitId)
    }

    ghost predicate RevisionsValid() {
      && (forall i :: 0 <= i < |revisions| ==> revisions[i].extension < |events|)
      && (forall i, j :: 0 <= i < j < |revisions| ==>
            revisions[i].extension != revisions[j].extension && revisions[i].operationKey != revisions[j].operationKey)
      && (forall i :: 0 <= i < |revisions| && revisions[i].replacement.Some? ==>
          revisions[i].replacement.value < |events|)
    }

    /** A stored previous due date never overstates the schedule without its own extension. */
    ghost predicate PreviousDuesValid() {
      forall i: nat :: IsActive(events, Revised(), i) ==>
        events[i].previousDue <= events[i].base + ShiftBefore(events, Revised(), i, |events|)
    }

    ghost predicate IsPeriodOn(period: int, day: int) {
      exists k: nat :: rule.DueDay(k) == period && Schedule().EffectiveDay(k) == day
    }

    /** Every bill sits on the due date of the very period it was entered for. */
    ghost predicate BillsInPlace() {
      forall day :: day in bills ==> IsPeriodOn(bills[day].period, day)
    }

    ghost predicate PriceInPlace() {
      pending.Some? ==> IsPeriodOn(pending.value.period, pending.value.dueDate)
    }

    /** What the tables' own constraints guarantee. */
    ghost predicate Sound() {
      rule.Valid() && EventsValid() && RevisionsValid()
    }

    /** What every run keeps. */
    ghost predicate InPlace() {
      Sound() && PreviousDuesValid() && BillsInPlace() && PriceInPlace()
    }

    /** The anchors FirstUnpaid is given: the earliest base date of the whole extension history,
        revised ones included, or else the date a deferral saved. */
    ghost function Historical(deferralCounts: bool): (dates: seq<int>)
      ensures events != [] ==> |dates| == 1 && IsEarliestBase(events, dates[0])
      ensures events == [] ==> dates == if deferralCounts && deferredDue.Some? then [deferredDue.value] else []
    {
      if events != [] then
        var base := EarliestBase(events);
        [base]
      else if deferralCounts && deferredDue.Some? then [deferredDue.value]
      else []
    }

    /** Something durable fixes the unpaid boundary: a bill, an extension, or a deferral. */
    predicate Anchored() {
      bills != map[] || events != [] || deferredDue.Some?
    }

    function BillAmount(day: int): int {
      if standing.resale then agencyFeeCents
      else if pending.Some? && pending.value.dueDate <= day then pending.value.cents
      else priceCents
    }
  }

  function EarliestBase(events: seq<Extension>): (base: int)
    requires events != []
    ensures IsEarliestBase(events, base)
  {
    var n := |events| - 1;
    if n == 0 then events[0].base
    else
      var base := EarliestBase(events[..n]);
      assert forall i :: 0 <= i < n ==> events[..n][i] == events[i];
      if events[n].base < base then events[n].base else base
  }

  function NextVersion(version: int, wall: int): int {
    if version < wall then wall else version + 1
  }

  // ---- basic facts

  lemma {:induction false} ActiveAmongMembers(events: seq<Extension>, revised: set<nat>, n: nat)
    requires n <= |events|
    ensures forall e :: e in ActiveAmong(events, revised, n) ==>
      exists i :: 0 <= i < n && e == DueExtension(events[i].base, events[i].days)
  {
    if n > 0 {
      ActiveAmongMembers(events, revised, n - 1);
    }
  }

  lemma ScheduleValid(l: Ledger)
    requires l.rule.Valid() && l.EventsValid()
    ensures l.Schedule().Valid()
    ensures forall day :: ShiftAt(l.Schedule().extensions, day) == ShiftAt(l.Active(), day)
  {
    SortByBaseSorts(l.Active());
    MultisetMembers(SortByBase(l.Active()), l.Active());
    ActiveAmongMembers(l.events, l.Revised(), |l.events|);
    forall day
      ensures ShiftAt(l.Schedule().extensions, day) == ShiftAt(l.Active(), day)
    {
      SortKeepsShift(l.Active(), day);
    }
    forall i | 0 <= i < |l.Schedule().extensions|
      ensures 1 <= l.Schedule().extensions[i].days <= 365 && l.rule.IsDueDay(l.Schedule().extensions[i].base)
    {
      assert l.Schedule().extensions[i] in l.Active();
    }
  }

  // ---- reading the tables

  function FindBenefit(events: seq<Extension>, benefitId: int): (id: Option<nat>)
    ensures id.Some? ==> id.value < |events| && events[id.value].benefitId == benefitId
    ensures id.None? ==> forall i :: 0 <= i < |events| ==> events[i].benefitId != benefitId
  {
    if events == [] then None
    else if events[|events| - 1].benefitId == benefitId then Some(|events| - 1)
    else
      var id := FindBenefit(events[..|events| - 1], benefitId);
      assert forall i :: 0 <= i < |events| - 1 ==> events[..|events| - 1][i] == events[i];
      id
  }

  function FindOperation(revisions: seq<Revision>, key: string): (id: Option<nat>)
    ensures id.Some? ==> id.value < |revisions| && revisions[id.value].operationKey == key
    ensures id.None? ==> forall i :: 0 <= i < |revisions| ==> revisions[i].operationKey != key
  {
    if revisions == [] then None
    else if revisions[|revisions| - 1].operationKey == key then Some(|revisions| - 1)
    else
      var id := FindOperation(revisions[..|revisions| - 1], key);
      assert forall i :: 0 <= i < |revisions| - 1 ==> revisions[..|revisions| - 1][i] == revisions[i];
      id
  }

  /** The logical period whose bill is due on `day`. */
  ghost function PeriodOn(s: BillingSchedule, day: int): (period: int)
    requires s.IsEffectiveDay(day)
    ensures exists k: nat :: s.EffectiveDay(k) == day && s.rule.DueDay(k) == period
  {
    var k: nat :| s.EffectiveDay(k) == day;
    s.rule.DueDay(k)
  }

  ghost predicate BilledFrom(l: Ledger, day: int) {
    exists billed :: billed in l.bills && day <= billed
  }

  ghost predicate AnyFrom(days: set<int>, day: int) {
    exists d :: d in days && day <= d
  }

  // ---- operations

  ghost function Pay(l: Ledger, day: int, expected: int, wall: int): Outcome<Ledger>
    requires l.Sound()
  {
    if l.standing.archived then Refused(NotFound)
    else if l.standing.openCase then Refused(OpenAfterSales)
    else if !l.Schedule().IsEffectiveDay(day) then Refused(NotADueDate)
    else if day in l.bills then Done(l)
    else if l.version != expected then Refused(FinancialStateChanged)
    else
      var bill := Bill(l.BillAmount(day), PeriodOn(l.Schedule(), day));
      Done(AdoptPrice(l.(
        bills := l.bills[day := bill], deferred := false, deferredDue := None,
        version := NextVersion(l.version, wall)), day))
  }

  /** A pending price becomes the regular price with the first bill of its period or a later one. */
  function AdoptPrice(l: Ledger, day: int): Ledger {
    if !l.standing.resale && l.pending.Some? && l.pending.value.dueDate <= day then
      l.(priceCents := l.pending.value.cents,
         repriced := l.repriced + (if l.pending.value.cents != l.priceCents then {l.pending.value.dueDate} else {}),
         pending := None)
    else l
  }

  ghost function Unpay(l: Ledger, day: int, expected: int, wall: int): Outcome<Ledger>
    requires l.Sound()
  {
    if l.standing.archived then Refused(NotFound)
    else if l.standing.openCase then Refused(OpenAfterSales)
    else if !l.Schedule().IsEffectiveDay(day) then Refused(NotADueDate)
    else if day !in l.bills then Done(l)
    else if l.version != expected then Refused(FinancialStateChanged)
    else if day in l.linked then Refused(BillHasAfterSalesCase)
    else Done(l.(bills := l.bills - {day}, deferred := false, deferredDue := None,
      version := NextVersion(l.version, wall)))
  }

  /** A correction of the recorded amount. It leaves the due date alone. */
  function CorrectBill(l: Ledger, day: int, amountCents: int, wall: int): Outcome<Ledger> {
    if day !in l.bills then Refused(NotFound)
    else if amountCents < 0 then Refused(InvalidAmount)
    else if day in l.linked then Refused(BillHasAfterSalesCase)
    else Done(l.(bills := l.bills[day := l.bills[day].(amountCents := amountCents)],
      version := NextVersion(l.version, wall)))
  }

  /** Deleting a bill from the list of bills, whatever the state of the subscription. */
  function WithdrawBill(l: Ledger, day: int, wall: int): Outcome<Ledger> {
    if day !in l.bills then Refused(NotFound)
    else if day in l.linked then Refused(BillHasAfterSalesCase)
    else Done(l.(bills := l.bills - {day}, deferred := false, deferredDue := None,
      version := NextVersion(l.version, wall)))
  }

  ghost function CurrentPeriod(l: Ledger, now: Instant, deferralCounts: bool): (k: nat)
    requires l.Sound()
    ensures IsFirstUnpaid(l.Schedule(), now, l.bills.Keys, Anchors(l.Schedule(), l.Historical(deferralCounts)), k)
  {
    ScheduleValid(l);
    FirstUnpaidPeriod(l.Schedule(), now, l.bills.Keys, Anchors(l.Schedule(), l.Historical(deferralCounts)))
  }

  /** Delivers `days` extra days at the period that is currently actionable. */
  ghost function Extend(
    l: Ledger, benefitId: int, days: int, now: Instant, expectation: Option<Expectation>, wall: int): Outcome<Ledger>
    requires l.Sound()
  {
    if days < 1 || days > 365 then Refused(InvalidDays)
    else if l.deferred then Refused(RenewalDeferred)
    else if !l.standing.MayExtend() then Refused(NotFound)
    else if expectation.Some? && expectation.value.version != l.version then Refused(StateChanged)
    else
      var m := CurrentPeriod(l, now, true);
      var due := l.Schedule().EffectiveDay(m);
      if expectation.Some? && expectation.value.previousDue != due then Refused(StateChanged)
      else if BilledFrom(l, due) then Refused(PaidAhead)
      else if l.pending.Some? && !l.Schedule().IsEffectiveDay(l.pending.value.dueDate) then Refused(PriceDateUnresolved)
      else if FindBenefit(l.events, benefitId).Some? then Refused(DuplicateBenefit)
      else Done(Delivered(l, benefitId, days, m, wall))
  }

  ghost function Delivered(l: Ledger, benefitId: int, days: int, m: nat, wall: int): Ledger
    requires l.pending.Some? ==> l.Schedule().IsEffectiveDay(l.pending.value.dueDate)
  {
    var base, due := l.rule.DueDay(m), l.Schedule().EffectiveDay(m);
    l.(events := l.events + [Extension(benefitId, base, days, due, due + days)],
       pending := if l.pending.Some? && base <= PeriodOn(l.Schedule(), l.pending.value.dueDate)
                  then Some(l.pending.value.(dueDate := l.pending.value.dueDate + days)) else l.pending,
       version := NextVersion(l.version, wall))
  }

  /** Applies one known benefit once; a matching replay changes nothing even after later revisions. */
  ghost function ApplyBenefit(
    l: Ledger, benefitId: int, days: int, expectedPrevious: int, now: Instant, wall: int): Outcome<Ledger>
    requires l.Sound()
  {
    var id := FindBenefit(l.events, benefitId);
    if days < 1 || days > 365 then Refused(InvalidDays)
    else if id.Some? then
      var event := l.events[id.value];
      if event.days == days && event.previousDue == expectedPrevious then Done(l) else Refused(BenefitMismatch)
    else
      var result := Extend(l, benefitId, days, now, None, wall);
      if result.Done? && result.value.events[|result.value.events| - 1].previousDue != expectedPrevious
      then Refused(StateChanged) else result
  }

  /** Revokes (0 days) or replaces the last active extension. */
  ghost function Revise(l: Ledger, input: Revising, wall: int): Outcome<(Ledger, Receipt)>
    requires l.Sound()
  {
    var operation := FindOperation(l.revisions, input.operationKey);
    var id := FindBenefit(l.events, input.benefitId);
    if id.None? then Refused(NotFound)
    else if operation.Some? then
      var revision := l.revisions[operation.value];
      if revision.action == input.Action() && revision.reason == input.reason
         && revision.extension == id.value && revision.replacementDays == input.days
      then Done((l, Receipt(ReplacementBenefit(l, revision), true)))
      else Refused(OperationConflict)
    else
      var t := id.value;
      var previous := l.events[t].previousDue;
      if t in l.Revised() then Refused(AlreadyRevised)
      else if l.deferred then Refused(RenewalDeferred)
      else if !IsLastActive(l.events, l.Revised(), t) then Refused(NotLastActive)
      else if !l.standing.MayRevise() then Refused(NotFound)
      else if BilledFrom(l, previous) then Refused(PeriodBilled)
      else if AnyFrom(l.notified, previous) then Refused(PeriodNotified)
      else if AnyFrom(l.repriced, previous) then Refused(PeriodRepriced)
      else if input.days < 0 || input.days > 365 then Refused(InvalidDays)
      else if l.pending.Some? && !l.Schedule().IsEffectiveDay(l.pending.value.dueDate) then Refused(PriceDateUnresolved)
      else if input.days > 0 && FindBenefit(l.events, input.newBenefitId).Some? then Refused(DuplicateBenefit)
      else Done((RevisedLedger(l, t, input, wall),
        Receipt(if input.days > 0 then Some(input.newBenefitId) else None, false)))
  }

  function ReplacementBenefit(l: Ledger, revision: Revision): Option<int>
    requires revision.replacement.Some? ==> revision.replacement.value < |l.events|
  {
    if revision.replacement.Some? then Some(l.events[revision.replacement.value].benefitId) else None
  }

  function RevisionRow(events: seq<Extension>, t: nat, input: Revising): Revision
    requires t < |events|
  {
    Revision(t, input.Action(), if input.days > 0 then Some(|events|) else None, events[t].days, input.days,
             input.reason, input.operationKey)
  }

  ghost function RevisedLedger(l: Ledger, t: nat, input: Revising, wall: int): Ledger
    requires t < |l.events|
    requires l.pending.Some? ==> l.Schedule().IsEffectiveDay(l.pending.value.dueDate)
  {
    var target := l.events[t];
    var revision := RevisionRow(l.events, t, input);
    var without := l.(revisions := l.revisions + [revision]);
    var previous := target.base + ShiftAt(without.Active(), target.base);
    var replaced := if input.days > 0
      then without.(events := l.events +
        [Extension(input.newBenefitId, target.base, input.days, previous, previous + input.days)])
      else without;
    replaced.(pending := if l.pending.None? then None else
                var period := PeriodOn(l.Schedule(), l.pending.value.dueDate);
                Some(l.pending.value.(dueDate := period + ShiftAt(replaced.Active(), period))),
              version := NextVersion(l.version, wall))
  }

  ghost function SchedulePrice(l: Ledger, cents: int, day: int, expected: int, wall: int): Outcome<Ledger>
    requires l.Sound()
  {
    if l.version != expected || l.standing.archived || !l.standing.team || l.standing.resale || l.standing.openCase
       || l.pending.Some? then Refused(StateChanged)
    else if !l.Schedule().IsEffectiveDay(day) then Refused(NotADueDate)
    else Done(l.(pending := Some(PendingPrice(cents, day, PeriodOn(l.Schedule(), day))),
                 version := NextVersion(l.version, wall)))
  }

  /** Shelves the follow-up of an overdue period and remembers its date. */
  ghost function Defer(l: Ledger, expected: Expectation, now: Instant, wall: int): Outcome<Ledger>
    requires l.Sound()
  {
    if !l.standing.MayDefer() then Refused(NotFound)
    else if l.version != expected.version || l.deferred then Refused(StateChanged)
    else
      var due := l.Schedule().EffectiveDay(CurrentPeriod(l, now, l.bills == map[]));
      if due != expected.previousDue || due > now.day then Refused(StateChanged)
      else Done(l.(deferred := true, deferredDue := Some(due), version := NextVersion(l.version, wall)))
  }

  /** Resumes the follow-up. The remembered date stays as an anchor until the ledger changes. */
  function Resume(l: Ledger, wall: int): Outcome<Ledger> {
    if !l.standing.MayDefer() then Refused(NotFound)
    else if !l.deferred then Done(l)
    else Done(l.(deferred := false, version := NextVersion(l.version, wall)))
  }
}
