/** The transactions of internal/db/due_extension.go and setDuePaid, run against the stored rows. Each
    method commits exactly what the corresponding function of DueLedgers describes, or changes nothing. */
module DueLedgerStore {
  import opened Instants
  import opened BaseRules
  import opened EffectiveSchedules
  import opened UnpaidBoundary
  import opened DueLedgers
  import opened Transactions
  import Collections
  import Laws = DueLedgerLaws

  datatype NextPrice = NextPrice(cents: int, dueDate: int)

  ghost function BillRows(amounts: map<int, int>, periods: map<int, int>): (rows: map<int, Bill>)
    ensures rows.Keys == amounts.Keys
  {
    map day | day in amounts :: Bill(amounts[day], if day in periods then periods[day] else 0)
  }

  ghost function Pending(price: Option<NextPrice>, period: int): Option<PendingPrice> {
    if price.Some? then Some(PendingPrice(price.value.cents, price.value.dueDate, period)) else None
  }

  /** The pending price dated by the given extensions. */
  ghost function Redated(
      s: BillingSchedule, pending: Option<PendingPrice>, candidates: seq<DueExtension>): Option<PendingPrice>
    requires pending.Some? ==> s.IsEffectiveDay(pending.value.dueDate)
  {
    if pending.None? then None
    else
      var period := PeriodOn(s, pending.value.dueDate);
      Some(pending.value.(dueDate := period + ShiftAt(candidates, period)))
  }

  lemma BillRowInserted(amounts: map<int, int>, periods: map<int, int>, day: int, amount: int, period: int)
    ensures BillRows(amounts[day := amount], periods[day := period])
      == BillRows(amounts, periods)[day := Bill(amount, period)]
  {
  }

  lemma BillRowDeleted(amounts: map<int, int>, periods: map<int, int>, day: int)
    ensures BillRows(amounts - {day}, periods) == BillRows(amounts, periods) - {day}
  {
  }

  ghost predicate Rewritten(l: Ledger, after: Ledger, t: nat, input: Revising, wall: int, outcome: Outcome<Receipt>)
    requires l.Sound() && t < |l.events|
  {
    if input.days > 365 then outcome == Refused(InvalidDays) && after == l
    else if l.pending.Some? && !l.Schedule().IsEffectiveDay(l.pending.value.dueDate) then
      outcome == Refused(PriceDateUnresolved) && after == l
    else if input.days > 0 && FindBenefit(l.events, input.newBenefitId).Some? then
      outcome == Refused(DuplicateBenefit) && after == l
    else
      && outcome == Done(Receipt(if input.days > 0 then Some(input.newBenefitId) else None, false))
      && after == RevisedLedger(l, t, input, wall)
  }

  class SubscriptionLedger {
    const rule: BaseRule
    var bills: map<int, int>
    var events: seq<Extension>
    var revisions: seq<Revision>
    var priceCents: int
    var agencyFeeCents: int
    var nextPrice: Option<NextPrice>
    var repriced: set<int>
    var notified: set<int>
    var linked: set<int>
    var deferred: bool
    var deferredDue: Option<int>
    var standing: Standing
    var version: int

    // The logical periods that the stored dates were chosen for.
    ghost var periods: map<int, int>
    ghost var pricePeriod: int

    ghost function Snapshot(): Ledger
      reads this
    {
      Ledger(
        rule,
        BillRows(bills, periods),
        events, revisions, priceCents, agencyFeeCents,
        Pending(nextPrice, pricePeriod),
        repriced, notified, linked, deferred, deferredDue, standing, version)
    }

    ghost predicate Valid()
      reads this
    {
      Snapshot().Sound()
    }

    constructor (rule: BaseRule, priceCents: int, agencyFeeCents: int, standing: Standing, version: int)
      requires rule.Valid()
      ensures Valid() && Snapshot().InPlace()
      ensures Snapshot()
        == Ledger(rule, map[], [], [], priceCents, agencyFeeCents, None, {}, {}, {}, false, None, standing, version)
    {
      this.rule := rule;
      bills, periods, events, revisions := map[], map[], [], [];
      this.priceCents, this.agencyFeeCents := priceCents, agencyFeeCents;
      nextPrice, pricePeriod := None, 0;
      repriced, notified, linked := {}, {}, {};
      deferred, deferredDue := false, None;
      this.standing, this.version := standing, version;
    }

    // ---- queries

    /** The effective schedule: unrevised extensions laid over the base rule. */
    method EffectiveSchedule() returns (schedule: BillingSchedule)
      requires Valid()
      ensures schedule == Snapshot().Schedule() && schedule.Valid()
    {
      var active := ReadActive(RevisedIds(revisions));
      ActiveAmongMembers(events, RevisedIds(revisions), |events|);
      var result := WithExtensions(rule, active);
      schedule := result.value;
    }

    method ReadActive(revised: set<nat>) returns (active: seq<DueExtension>)
      ensures active == ActiveAmong(events, revised, |events|)
    {
      active := [];
      for id := 0 to |events|
        invariant active == ActiveAmong(events, revised, id)
      {
        if id !in revised {
          active := active + [DueExtension(events[id].base, events[id].days)];
        }
      }
    }

    method PaidDates() returns (paid: seq<int>)
      ensures Days(paid) == Snapshot().bills.Keys
      ensures forall day :: day in paid <==> day in bills
    {
      paid := [];
      var rest := bills.Keys;
      while rest != {}
        invariant rest <= bills.Keys
        invariant forall day :: day in paid <==> day in bills.Keys - rest
        decreases rest
      {
        ghost var member := Collections.SomeMember(rest);
        var day :| day in rest;
        paid, rest := paid + [day], rest - {day};
      }
      assert forall day :: day in Days(paid) <==> day in bills.Keys;
    }

    method HistoricalDates(deferralCounts: bool) returns (dates: seq<int>)
      ensures dates == Snapshot().Historical(deferralCounts)
    {
      if |events| > 0 {
        var base := events[0].base;
        for id := 1 to |events|
          invariant IsEarliestBase(events[..id], base)
        {
          assert events[..id + 1] == events[..id] + [events[id]];
          if events[id].base < base {
            base := events[id].base;
          }
          var seen := events[..id + 1];
          assert seen[id] == events[id];
          assert exists i :: 0 <= i < |seen| && seen[i].base == base by {
            if base != events[id].base {
              var i :| 0 <= i < id && events[..id][i].base == base;
              assert seen[i].base == base;
            }
          }
        }
        assert events[..|events|] == events;
        return [base];
      }
      if deferralCounts && deferredDue.Some? {
        return [deferredDue.value];
      }
      return [];
    }

    /** The date of the period that is currently actionable. */
    method FirstUnpaidDay(
        schedule: BillingSchedule, now: Instant, deferralCounts: bool) returns (day: int, ghost m: nat)
      requires Valid() && schedule == Snapshot().Schedule() && schedule.Valid()
      ensures m == CurrentPeriod(Snapshot(), now, deferralCounts)
      ensures day == schedule.EffectiveDay(m)
      ensures day == schedule.EffectiveDay(CurrentPeriod(Snapshot(), now, deferralCounts))
    {
      var paid := PaidDates();
      var historical := HistoricalDates(deferralCounts);
      var due, k := FirstUnpaid(schedule, now, paid, historical);
      FirstUnpaidUnique(schedule, now, Days(paid), Anchors(schedule, historical), k,
        CurrentPeriod(Snapshot(), now, deferralCounts));
      return due.value.day, k;
    }

    /** The one actionable date, once something has anchored it; a saved deferral counts only without bills. */
    method CurrentFirstUnpaid(schedule: BillingSchedule, now: Instant) returns (due: Option<int>)
      requires Valid() && schedule == Snapshot().Schedule() && schedule.Valid()
      ensures due ==
        if Snapshot().Anchored() then Some(schedule.EffectiveDay(CurrentPeriod(Snapshot(), now, bills == map[])))
        else None
    {
      assert bills == map[] <==> BillRows(bills, periods) == map[];
      if bills == map[] && events == [] && deferredDue.None? {
        return None;
      }
      var day, m := FirstUnpaidDay(schedule, now, bills == map[]);
      return Some(day);
    }

    /** A date is accepted when it is the actionable one or, before anything has anchored it, any due date. */
    method IsCurrentFirstUnpaid(day: int, now: Instant) returns (current: bool)
      requires Valid()
      ensures var l := Snapshot();
        current <==> l.Schedule().IsEffectiveDay(day)
                     && (l.Anchored() ==> day == l.Schedule().EffectiveDay(CurrentPeriod(l, now, bills == map[])))
    {
      var schedule := EffectiveSchedule();
      current := schedule.IsDueDate(day);
      if current {
        var due := CurrentFirstUnpaid(schedule, now);
        current := due.None? || due.value == day;
      }
    }

    method AnyBillFrom(day: int) returns (found: bool)
      ensures found == BilledFrom(Snapshot(), day)
    {
      found := exists billed :: billed in bills && day <= billed;
    }

    /** The last row of ORDER BY base_due_date, id among the unrevised extensions. */
    method LastActive() returns (last: Option<nat>)
      ensures last.Some? ==> IsLastActive(events, RevisedIds(revisions), last.value)
      ensures last.None? ==> forall i: nat :: !IsActive(events, RevisedIds(revisions), i)
    {
      last := None;
      for id := 0 to |events|
        invariant last.Some? ==> last.value < id && IsActive(events, RevisedIds(revisions), last.value)
        invariant forall i: nat :: i < id && IsActive(events, RevisedIds(revisions), i) ==>
                    last.Some? && (i == last.value || Precedes(events, i, last.value))
      {
        if id !in RevisedIds(revisions) && (last.None? || events[last.value].base <= events[id].base) {
          last := Some(id);
        }
      }
    }

    // ---- payments

    method PayDue(day: int, expectedVersion: int, wall: int) returns (outcome: Outcome<bool>)
      requires Valid()
      modifies this
      ensures Committed(old(Snapshot()), Snapshot(), Pay(old(Snapshot()), day, expectedVersion, wall), outcome)
    {
      if standing.archived {
        return Refused(NotFound);
      }
      if standing.openCase {
        return Refused(OpenAfterSales);
      }
      var schedule := EffectiveSchedule();
      var due := schedule.IsDueDate(day);
      if !due {
        return Refused(NotADueDate);
      }
      if day in bills {
        return Done(false);
      }
      if version != expectedVersion {
        return Refused(FinancialStateChanged);
      }
      InsertBill(schedule, day, wall);
      AdoptNextPrice(day);
      return Done(true);
    }

    /** Records the bill, clears a deferral and takes a new version. */
    method InsertBill(schedule: BillingSchedule, day: int, wall: int)
      requires schedule == Snapshot().Schedule() && schedule.IsEffectiveDay(day)
      modifies `bills, `periods, `deferred, `deferredDue, `version
      ensures var l := old(Snapshot());
        Snapshot() == l.(
          bills := l.bills[day := Bill(l.BillAmount(day), PeriodOn(schedule, day))],
          deferred := false, deferredDue := None, version := NextVersion(l.version, wall))
    {
      var amount := if standing.resale then agencyFeeCents
                    else if nextPrice.Some? && nextPrice.value.dueDate <= day then nextPrice.value.cents
                    else priceCents;
      BillRowInserted(bills, periods, day, amount, PeriodOn(schedule, day));
      bills, periods := bills[day := amount], periods[day := PeriodOn(schedule, day)];
      deferred, deferredDue := false, None;
      version := NextVersion(version, wall);
    }

    /** A scheduled price becomes the regular price once a bill of its period or later is recorded. */
    method AdoptNextPrice(day: int)
      modifies `priceCents, `repriced, `nextPrice
      ensures Snapshot() == AdoptPrice(old(Snapshot()), day)
    {
      if !standing.resale && nextPrice.Some? && nextPrice.value.dueDate <= day {
        if nextPrice.value.cents != priceCents {
          repriced := repriced + {nextPrice.value.dueDate};
        }
        priceCents := nextPrice.value.cents;
        nextPrice := None;
      }
    }

    method UnpayDue(day: int, expectedVersion: int, wall: int) returns (outcome: Outcome<bool>)
      requires Valid()
      modifies this
      ensures Committed(old(Snapshot()), Snapshot(), Unpay(old(Snapshot()), day, expectedVersion, wall), outcome)
    {
      hide ShiftAt, SortByBase, ActiveAmong;
      if standing.archived {
        return Refused(NotFound);
      }
      if standing.openCase {
        return Refused(OpenAfterSales);
      }
      var schedule := EffectiveSchedule();
      var due := schedule.IsDueDate(day);
      if !due {
        return Refused(NotADueDate);
      }
      if day !in bills {
        return Done(false);
      }
      if version != expectedVersion {
        return Refused(FinancialStateChanged);
      }
      if day in linked {
        return Refused(BillHasAfterSalesCase);
      }
      BillRowDeleted(bills, periods, day);
      bills := bills - {day};
      deferred, deferredDue := false, None;
      version := NextVersion(version, wall);
      return Done(true);
    }

    /** Corrects the amount of a bill that no after-sales case names. */
    method CorrectBill(day: int, amountCents: int, wall: int) returns (outcome: Outcome<bool>)
      modifies `bills, `version
      ensures Committed(old(Snapshot()), Snapshot(),
        DueLedgers.CorrectBill(old(Snapshot()), day, amountCents, wall), outcome)
    {
      if day !in bills {
        return Refused(NotFound);
      }
      if amountCents < 0 {
        return Refused(InvalidAmount);
      }
      if day in linked {
        return Refused(BillHasAfterSalesCase);
      }
      var before := bills;
      bills := bills[day := amountCents];
      version := NextVersion(version, wall);
      assert BillRows(bills, periods)
        == BillRows(before, periods)[day := BillRows(before, periods)[day].(amountCents := amountCents)];
      return Done(true);
    }

    /** Deletes a bill that no after-sales case names. */
    method WithdrawBill(day: int, wall: int) returns (outcome: Outcome<bool>)
      modifies `bills, `deferred, `deferredDue, `version
      ensures Committed(old(Snapshot()), Snapshot(), DueLedgers.WithdrawBill(old(Snapshot()), day, wall), outcome)
    {
      if day !in bills {
        return Refused(NotFound);
      }
      if day in linked {
        return Refused(BillHasAfterSalesCase);
      }
      BillRowDeleted(bills, periods, day);
      bills := bills - {day};
      deferred, deferredDue := false, None;
      version := NextVersion(version, wall);
      return Done(true);
    }

    // ---- extensions

    method ApplyDueExtension(benefitId: int, days: int, now: Instant, expectation: Option<Expectation>, wall: int)
      returns (outcome: Outcome<Extension>)
      requires Valid()
      modifies this
      ensures Committed(old(Snapshot()), Snapshot(),
        Extend(old(Snapshot()), benefitId, days, now, expectation, wall), outcome)
      ensures outcome.Done? ==> events == old(events) + [outcome.value]
    {
      if days < 1 || days > 365 {
        return Refused(InvalidDays);
      }
      if deferred {
        return Refused(RenewalDeferred);
      }
      if !standing.MayExtend() {
        return Refused(NotFound);
      }
      if expectation.Some? && version != expectation.value.version {
        return Refused(StateChanged);
      }
      var schedule := EffectiveSchedule();
      var previous, m := FirstUnpaidDay(schedule, now, true);
      if expectation.Some? && previous != expectation.value.previousDue {
        return Refused(StateChanged);
      }
      var ahead := AnyBillFrom(previous);
      if ahead {
        return Refused(PaidAhead);
      }
      var base := schedule.BaseDueDate(previous);
      if nextPrice.Some? {
        var priceBase := schedule.BaseDueDate(nextPrice.value.dueDate);
        if priceBase.Failure? {
          return Refused(PriceDateUnresolved);
        }
      }
      if FindBenefit(events, benefitId).Some? {
        return Refused(DuplicateBenefit);
      }
      var event := Extension(benefitId, base.value, days, previous, previous + days);
      InsertExtension(schedule, event, wall, m);
      return Done(event);
    }

    /** Appends the event and moves a pending price date that is not before it. */
    method InsertExtension(schedule: BillingSchedule, event: Extension, wall: int, ghost m: nat)
      requires Valid() && schedule == Snapshot().Schedule() && schedule.Valid()
      requires nextPrice.Some? ==> schedule.IsEffectiveDay(nextPrice.value.dueDate)
      requires event.base == rule.DueDay(m) && event.previousDue == schedule.EffectiveDay(m)
      requires event.effectiveDue == event.previousDue + event.days
      modifies this
      ensures Snapshot() == Delivered(old(Snapshot()), event.benefitId, event.days, m, wall)
      ensures events == old(events) + [event]
    {
      hide SortByBase, PrefixDays, ShiftBefore;
      var moved := PostponedPrice(schedule, event.base, event.days);
      events := events + [event];
      nextPrice := moved;
      version := NextVersion(version, wall);
    }

    /** The pending price, postponed if its period is not before the extended one. */
    method PostponedPrice(schedule: BillingSchedule, base: int, days: int) returns (moved: Option<NextPrice>)
      requires schedule.Valid() && (nextPrice.Some? ==> schedule.IsEffectiveDay(nextPrice.value.dueDate))
      ensures moved ==
        if nextPrice.Some? && base <= PeriodOn(schedule, nextPrice.value.dueDate)
        then Some(nextPrice.value.(dueDate := nextPrice.value.dueDate + days)) else nextPrice
    {
      if nextPrice.None? {
        return None;
      }
      var priceBase := schedule.BaseDueDate(nextPrice.value.dueDate);
      assert priceBase.value == PeriodOn(schedule, nextPrice.value.dueDate);
      if priceBase.value < base {
        return nextPrice;
      }
      return Some(nextPrice.value.(dueDate := nextPrice.value.dueDate + days));
    }

    /** Repairs one known benefit, once; a matching replay returns the original event. */
    method ApplyCustomerBenefitExtension(benefitId: int, days: int, expectedPrevious: int, now: Instant, wall: int)
      returns (outcome: Outcome<Extension>)
      requires Valid()
      modifies this
      ensures Committed(old(Snapshot()), Snapshot(),
        ApplyBenefit(old(Snapshot()), benefitId, days, expectedPrevious, now, wall), outcome)
    {
      if days < 1 || days > 365 {
        return Refused(InvalidDays);
      }
      var id := FindBenefit(events, benefitId);
      if id.Some? {
        var event := events[id.value];
        if event.days != days || event.previousDue != expectedPrevious {
          return Refused(BenefitMismatch);
        }
        return Done(event);
      }
      // The transaction is rolled back by restoring the rows it may have written.
      var savedEvents, savedPrice, savedVersion := events, nextPrice, version;
      outcome := ApplyDueExtension(benefitId, days, now, None, wall);
      if outcome.Done? && outcome.value.previousDue != expectedPrevious {
        events, nextPrice, version := savedEvents, savedPrice, savedVersion;
        return Refused(StateChanged);
      }
    }

    /** Revokes or replaces the latest active extension. */
    method ReviseCustomerBenefitExtension(input: Revising, wall: int) returns (outcome: Outcome<Receipt>)
      requires Valid()
      modifies this
      ensures match Revise(old(Snapshot()), input, wall)
              case Done(result) => outcome == Done(result.1) && Snapshot() == result.0
              case Refused(error) => outcome == Refused(error) && Snapshot() == old(Snapshot())
    {
      var target := FindBenefit(events, input.benefitId);
      if target.None? {
        return Refused(NotFound);
      }
      var t := target.value;
      var existing := FindOperation(revisions, input.operationKey);
      if existing.Some? {
        var revision := revisions[existing.value];
        if revision.action != input.Action() || revision.reason != input.reason
           || revision.extension != t || revision.replacementDays != input.days {
          return Refused(OperationConflict);
        }
        return Done(Receipt(
          if revision.replacement.Some? then Some(events[revision.replacement.value].benefitId) else None, true));
      }
      if t in RevisedIds(revisions) {
        return Refused(AlreadyRevised);
      }
      if deferred {
        return Refused(RenewalDeferred);
      }
      var last := LastActive();
      assert IsActive(events, RevisedIds(revisions), t);
      if last.value != t {
        assert Precedes(events, t, last.value);
        return Refused(NotLastActive);
      }
      if !standing.MayRevise() {
        return Refused(NotFound);
      }
      var billed := AnyBillFrom(events[t].previousDue);
      if billed {
        return Refused(PeriodBilled);
      }
      if exists day :: day in notified && events[t].previousDue <= day {
        return Refused(PeriodNotified);
      }
      if exists day :: day in repriced && events[t].previousDue <= day {
        return Refused(PeriodRepriced);
      }
      if input.days < 0 {
        return Refused(InvalidDays);
      }
      outcome := Rewrite(t, input, wall);
    }

    /** The writing half of a revision, after every check on the affected period has passed. */
    method Rewrite(t: nat, input: Revising, wall: int) returns (outcome: Outcome<Receipt>)
      requires Valid() && t < |events| && t !in RevisedIds(revisions) && 0 <= input.days
      modifies this
      ensures Rewritten(old(Snapshot()), Snapshot(), t, input, wall, outcome)
    {
      var current := EffectiveSchedule();
      var base := events[t].base;
      var remaining := ReadActive(RevisedIds(revisions) + {t});
      var candidates := remaining + (if input.days > 0 then [DueExtension(base, input.days)] else []);
      ActiveAmongMembers(events, RevisedIds(revisions) + {t}, |events|);
      var without := WithExtensions(rule, remaining);
      var candidate := WithExtensions(rule, candidates);
      if candidate.Failure? {
        return Refused(InvalidDays);
      }
      assert input.days > 0 ==> candidates[|remaining|] in candidates;
      if nextPrice.Some? {
        var priceBase := current.BaseDueDate(nextPrice.value.dueDate);
        if priceBase.Failure? {
          return Refused(PriceDateUnresolved);
        }
      }
      if input.days > 0 && FindBenefit(events, input.newBenefitId).Some? {
        return Refused(DuplicateBenefit);
      }
      WriteRevision(t, input, wall, current, without.value, candidate.value, remaining);
      return Done(Receipt(if input.days > 0 then Some(input.newBenefitId) else None, false));
    }

    method WriteRevision(
      t: nat, input: Revising, wall: int, current: BillingSchedule, without: BillingSchedule,
      candidate: BillingSchedule,
      ghost remaining: seq<DueExtension>)
      requires Valid() && t < |events|
      requires current == Snapshot().Schedule() && current.Valid()
      requires remaining == ActiveAmong(events, RevisedIds(revisions) + {t}, |events|)
      requires without.rule == rule && without.extensions == SortByBase(remaining) && without.Valid()
      requires candidate.rule == rule && candidate.Valid()
      requires candidate.extensions
        == SortByBase(remaining + if input.days > 0 then [DueExtension(events[t].base, input.days)] else [])
      requires nextPrice.Some? ==> current.IsEffectiveDay(nextPrice.value.dueDate)
      modifies `events, `revisions, `nextPrice, `version
      ensures Snapshot() == RevisedLedger(old(Snapshot()), t, input, wall)
    {
      hide RevisedLedger, ShiftAt, ActiveAmong, SortByBase, PrefixDays;
      ghost var l := Snapshot();
      ghost var candidates := remaining + if input.days > 0 then [DueExtension(events[t].base, input.days)] else [];
      var written := ReplacementRows(t, input, without, candidate, remaining);
      var moved := MovedPrice(current, candidate, candidates);
      RewrittenLedger(l, t, input, wall, written, remaining, candidates);
      StoreRevision(written, RevisionRow(events, t, input), moved, wall);
    }

    method StoreRevision(written: seq<Extension>, revision: Revision, moved: Option<NextPrice>, wall: int)
      modifies `events, `revisions, `nextPrice, `version
      ensures var l := old(Snapshot()); Snapshot() == l.(
        events := written, revisions := l.revisions + [revision], version := NextVersion(l.version, wall),
        pending := Pending(moved, pricePeriod))
    {
      events := written;
      revisions := revisions + [revision];
      nextPrice := moved;
      version := NextVersion(version, wall);
    }

    /** The extension table with the replacement, dated by the schedules without and with it. */
    method ReplacementRows(
      t: nat, input: Revising, without: BillingSchedule, candidate: BillingSchedule, ghost remaining: seq<DueExtension>)
      returns (written: seq<Extension>)
      requires t < |events| && without.Valid() && candidate.Valid()
      requires without.extensions == SortByBase(remaining)
      requires candidate.extensions
        == SortByBase(remaining + if input.days > 0 then [DueExtension(events[t].base, input.days)] else [])
      ensures var base := events[t].base;
        var previous := base + ShiftAt(remaining, base);
        written == events + if input.days > 0
          then [Extension(input.newBenefitId, base, input.days, previous, previous + input.days)] else []
    {
      written := events;
      if input.days > 0 {
        var base := events[t].base;
        var previousAt := without.EffectiveDue(Midnight(base));
        var effectiveAt := candidate.EffectiveDue(Midnight(base));
        SortKeepsShift(remaining, base);
        SortKeepsShift(remaining + [DueExtension(base, input.days)], base);
        ShiftAppend(remaining, [DueExtension(base, input.days)], base);
        written := written + [Extension(input.newBenefitId, base, input.days, previousAt.day, effectiveAt.day)];
      }
    }

    /** The pending price with the date that the candidate schedule gives its period. */
    method MovedPrice(current: BillingSchedule, candidate: BillingSchedule, ghost candidates: seq<DueExtension>)
      returns (moved: Option<NextPrice>)
      requires current.Valid() && candidate.Valid() && candidate.extensions == SortByBase(candidates)
      requires nextPrice.Some? ==> current.IsEffectiveDay(nextPrice.value.dueDate)
      ensures Pending(moved, pricePeriod) == Redated(current, Pending(nextPrice, pricePeriod), candidates)
    {
      if nextPrice.None? {
        return None;
      }
      var priceBase := current.BaseDueDate(nextPrice.value.dueDate);
      assert priceBase.value == PeriodOn(current, nextPrice.value.dueDate);
      var priceAt := candidate.EffectiveDue(Midnight(priceBase.value));
      SortKeepsShift(candidates, priceBase.value);
      return Some(nextPrice.value.(dueDate := priceAt.day));
    }

    // ---- pending price and deferral

    method ScheduleNextPrice(cents: int, day: int, expectedVersion: int, wall: int) returns (outcome: Outcome<bool>)
      requires Valid()
      modifies this
      ensures Committed(old(Snapshot()), Snapshot(),
        SchedulePrice(old(Snapshot()), cents, day, expectedVersion, wall), outcome)
    {
      if version != expectedVersion || standing.archived || !standing.team || standing.resale || standing.openCase
         || nextPrice.Some? {
        return Refused(StateChanged);
      }
      var schedule := EffectiveSchedule();
      var due := schedule.IsDueDate(day);
      if !due {
        return Refused(NotADueDate);
      }
      nextPrice := Some(NextPrice(cents, day));
      pricePeriod := PeriodOn(schedule, day);
      version := NextVersion(version, wall);
      return Done(true);
    }

    method DeferSubscriptionRenewal(expected: Expectation, now: Instant, wall: int) returns (outcome: Outcome<bool>)
      requires Valid()
      modifies this
      ensures Committed(old(Snapshot()), Snapshot(), Defer(old(Snapshot()), expected, now, wall), outcome)
    {
      if !standing.MayDefer() {
        return Refused(NotFound);
      }
      if version != expected.version || deferred {
        return Refused(StateChanged);
      }
      var schedule := EffectiveSchedule();
      assert bills == map[] <==> bills.Keys == {};
      var due, m := FirstUnpaidDay(schedule, now, bills == map[]);
      if due != expected.previousDue || due > now.day {
        return Refused(StateChanged);
      }
      deferred, deferredDue := true, Some(due);
      version := NextVersion(version, wall);
      return Done(true);
    }

    method RestoreSubscriptionRenewal(wall: int) returns (outcome: Outcome<bool>)
      requires Valid()
      modifies this
      ensures Committed(old(Snapshot()), Snapshot(), Resume(old(Snapshot()), wall), outcome)
    {
      if !standing.MayDefer() {
        return Refused(NotFound);
      }
      if !deferred {
        return Done(false);
      }
      deferred := false;
      version := NextVersion(version, wall);
      return Done(true);
    }
  }

  /** The extension lists read while rewriting are the active extensions after it. */
  lemma RewrittenActive(
    l: Ledger, t: nat, revision: Revision, days: int, replacement: Extension, remaining: seq<DueExtension>)
    requires l.Sound() && t < |l.events| && revision.extension == t
    requires remaining == ActiveAmong(l.events, l.Revised() + {t}, |l.events|)
    ensures l.(revisions := l.revisions + [revision]).Active() == remaining
    ensures l.(revisions := l.revisions + [revision], events := l.events + [replacement]).Active()
         == remaining + [DueExtension(replacement.base, replacement.days)]
  {
    Laws.RevisedIdsAppend(l.revisions, revision);
    Laws.RevisedIdsExist(l);
    Laws.ActiveUnderAppend(l.events, replacement, l.Revised() + {t}, |l.events|);
  }

  lemma RewrittenLedger(
    l: Ledger, t: nat, input: Revising, wall: int, written: seq<Extension>,
    remaining: seq<DueExtension>, candidates: seq<DueExtension>)
    requires l.Sound() && t < |l.events|
    requires l.pending.Some? ==> l.Schedule().IsEffectiveDay(l.pending.value.dueDate)
    requires remaining == ActiveAmong(l.events, l.Revised() + {t}, |l.events|)
    requires candidates == remaining + if input.days > 0 then [DueExtension(l.events[t].base, input.days)] else []
    requires var previous := l.events[t].base + ShiftAt(remaining, l.events[t].base);
      written == l.events + if input.days > 0
        then [Extension(input.newBenefitId, l.events[t].base, input.days, previous, previous + input.days)] else []
    ensures RevisedLedger(l, t, input, wall) == l.(
      events := written, revisions := l.revisions + [RevisionRow(l.events, t, input)],
      version := NextVersion(l.version, wall),
      pending := Redated(l.Schedule(), l.pending, candidates))
  {
    var previous := l.events[t].base + ShiftAt(remaining, l.events[t].base);
    var replacement := Extension(input.newBenefitId, l.events[t].base, input.days, previous, previous + input.days);
    RewrittenActive(l, t, RevisionRow(l.events, t, input), input.days, replacement, remaining);
    if input.days <= 0 {
      assert written == l.events && candidates == remaining;
    }
  }
}
