/** Safety of the billing ledger over every run, and what extending and revising mean to a customer. */
module DueLedgerLaws {
  import opened Instants
  import opened BaseRules
  import opened EffectiveSchedules
  import opened UnpaidBoundary
  import opened CalendarLaws
  import opened DueLedgers
  import opened Transactions

  // ---- how the tables drive the shift map

  lemma {:induction false} ActiveUnderAppend(events: seq<Extension>, e: Extension, revised: set<nat>, n: nat)
    requires n <= |events|
    ensures ActiveAmong(events + [e], revised, n) == ActiveAmong(events, revised, n)
  {
    if n > 0 {
      ActiveUnderAppend(events, e, revised, n - 1);
    }
  }

  lemma AppendedShift(events: seq<Extension>, e: Extension, revised: set<nat>, day: int)
    requires |events| !in revised
    ensures ShiftAt(ActiveAmong(events + [e], revised, |events| + 1), day)
         == ShiftAt(ActiveAmong(events, revised, |events|), day) + if e.base <= day then e.days else 0
  {
    ActiveUnderAppend(events, e, revised, |events|);
    ShiftAppend(ActiveAmong(events, revised, |events|), [DueExtension(e.base, e.days)], day);
  }

  lemma ActiveStep(events: seq<Extension>, revised: set<nat>, n: nat, day: int)
    requires 0 < n <= |events|
    ensures ShiftAt(ActiveAmong(events, revised, n), day)
         == ShiftAt(ActiveAmong(events, revised, n - 1), day)
            + if n - 1 !in revised && events[n - 1].base <= day then events[n - 1].days else 0
  {
    ShiftAppend(ActiveAmong(events, revised, n - 1),
      if n - 1 in revised then [] else [DueExtension(events[n - 1].base, events[n - 1].days)], day);
  }

  lemma NoneShift(events: seq<Extension>, revised: set<nat>, revised': set<nat>, day: int)
    ensures ShiftAt(ActiveAmong(events, revised', 0), day) == ShiftAt(ActiveAmong(events, revised, 0), day)
  {
    assert ActiveAmong(events, revised', 0) == ActiveAmong(events, revised, 0);
  }

  lemma {:induction false} RevisedShift(events: seq<Extension>, revised: set<nat>, t: nat, n: nat, day: int)
    requires n <= |events| && t !in revised
    ensures ShiftAt(ActiveAmong(events, revised + {t}, n), day)
         == ShiftAt(ActiveAmong(events, revised, n), day) - if t < n && events[t].base <= day then events[t].days else 0
  {
    hide ActiveAmong, ShiftAt;
    if n == 0 {
      NoneShift(events, revised, revised + {t}, day);
    } else {
      RevisedShift(events, revised, t, n - 1, day);
      ActiveStep(events, revised, n, day);
      ActiveStep(events, revised + {t}, n, day);
    }
  }

  lemma {:induction false} ShiftBeforeUnderAppend(
      events: seq<Extension>, e: Extension, revised: set<nat>, id: nat, n: nat)
    requires n <= |events| && id < |events|
    ensures ShiftBefore(events + [e], revised, id, n) == ShiftBefore(events, revised, id, n)
  {
    if n > 0 {
      ShiftBeforeUnderAppend(events, e, revised, id, n - 1);
    }
  }

  lemma {:induction false} ShiftBeforeUnderRevision(events: seq<Extension>, revised: set<nat>, t: nat, id: nat, n: nat)
    requires n <= |events| && id < |events| && t < |events| && !Precedes(events, t, id)
    ensures ShiftBefore(events, revised + {t}, id, n) == ShiftBefore(events, revised, id, n)
  {
    if n > 0 {
      ShiftBeforeUnderRevision(events, revised, t, id, n - 1);
    }
  }

  /** Everything delivered so far on base days up to its own is ordered before a new extension. */
  lemma {:induction false} ShiftBeforeNewest(events: seq<Extension>, e: Extension, revised: set<nat>, n: nat)
    requires n <= |events|
    ensures ShiftBefore(events + [e], revised, |events|, n) == ShiftAt(ActiveAmong(events, revised, n), e.base)
  {
    if n > 0 {
      ShiftBeforeNewest(events, e, revised, n - 1);
      ActiveStep(events, revised, n, e.base);
    }
  }

  lemma {:induction false} ShiftBeforeBounded(events: seq<Extension>, revised: set<nat>, id: nat, n: nat)
    requires n <= |events| && id < |events|
    requires forall i :: 0 <= i < |events| ==> 1 <= events[i].days
    ensures ShiftBefore(events, revised, id, n) <= ShiftAt(ActiveAmong(events, revised, n), events[id].base)
  {
    if n > 0 {
      ShiftBeforeBounded(events, revised, id, n - 1);
      ActiveStep(events, revised, n, events[id].base);
    }
  }

  lemma RevisedIdsAppend(revisions: seq<Revision>, revision: Revision)
    ensures RevisedIds(revisions + [revision]) == RevisedIds(revisions) + {revision.extension}
  {
    var extended := revisions + [revision];
    assert extended[|revisions|] == revision;
    forall id | id in RevisedIds(revisions)
      ensures id in RevisedIds(extended)
    {
      var i :| 0 <= i < |revisions| && revisions[i].extension == id;
      assert extended[i].extension == id;
    }
  }

  lemma RevisedIdsExist(l: Ledger)
    requires l.RevisionsValid()
    ensures |l.events| !in l.Revised()
  {
  }

  lemma FindsIt(events: seq<Extension>, id: nat)
    requires id < |events|
    requires forall i, j :: 0 <= i < j < |events| ==> events[i].benefitId != events[j].benefitId
    ensures FindBenefit(events, events[id].benefitId) == Some(id)
  {
    var found := FindBenefit(events, events[id].benefitId);
    assert found.Some?;
    assert !(found.value < id) && !(id < found.value);
  }

  // ---- one delivery, one revision

  ghost predicate IsDelivery(l: Ledger, l': Ledger, days: int, m: nat) {
    && l.Sound() && l'.Sound()
    && l'.rule == l.rule && l'.bills == l.bills
    && Delays(l.Schedule(), l'.Schedule(), l.rule.DueDay(m), days)
  }

  lemma DeliveryIsSound(l: Ledger, benefitId: int, days: int, m: nat, wall: int)
    requires l.Sound() && 1 <= days <= 365 && FindBenefit(l.events, benefitId).None?
    requires l.pending.Some? ==> l.Schedule().IsEffectiveDay(l.pending.value.dueDate)
    ensures IsDelivery(l, Delivered(l, benefitId, days, m, wall), days, m)
  {
    var l' := Delivered(l, benefitId, days, m, wall);
    assert l'.rule.IsDueDay(l.rule.DueDay(m));
    ScheduleValid(l);
    ScheduleValid(l');
    RevisedIdsExist(l);
    forall day
      ensures ShiftAt(l'.Active(), day) == ShiftAt(l.Active(), day) + if l.rule.DueDay(m) <= day then days else 0
    {
      AppendedShift(l.events, l'.events[|l.events|], l.Revised(), day);
    }
  }

  /** The change a revision makes to the shift map: the target's days go, the replacement's come. */
  lemma RevisionShift(l: Ledger, t: nat, input: Revising, wall: int, day: int)
    requires l.Sound() && IsActive(l.events, l.Revised(), t) && 0 <= input.days <= 365
    requires l.pending.Some? ==> l.Schedule().IsEffectiveDay(l.pending.value.dueDate)
    ensures ShiftAt(RevisedLedger(l, t, input, wall).Active(), day)
         == ShiftAt(l.Active(), day) + if l.events[t].base <= day then input.days - l.events[t].days else 0
  {
    var l' := RevisedLedger(l, t, input, wall);
    RevisedIdsAppend(l.revisions, l'.revisions[|l.revisions|]);
    RevisedShift(l.events, l.Revised(), t, |l.events|, day);
    RevisedIdsExist(l);
    if input.days > 0 {
      AppendedShift(l.events, l'.events[|l.events|], l.Revised() + {t}, day);
    }
  }

  lemma RevisionIsSound(l: Ledger, t: nat, input: Revising, wall: int)
    requires l.Sound() && IsActive(l.events, l.Revised(), t) && 0 <= input.days <= 365
    requires l.pending.Some? ==> l.Schedule().IsEffectiveDay(l.pending.value.dueDate)
    requires FindOperation(l.revisions, input.operationKey).None?
    requires input.days > 0 ==> FindBenefit(l.events, input.newBenefitId).None?
    ensures RevisedLedger(l, t, input, wall).Sound()
  {
    hide SortByBase, PrefixDays, ShiftBefore, ShiftAt, ActiveAmong;
    var l' := RevisedLedger(l, t, input, wall);
    forall i | 0 <= i < |l.revisions|
      ensures l.revisions[i].extension != t
    {
      assert l.revisions[i].extension in l.Revised();
    }
  }

  // ---- every period keeps its bill and its price

  /** A period before every shifted boundary keeps its due date. */
  lemma PeriodUnmoved(s: BillingSchedule, s': BillingSchedule, base: int, period: int, day: int)
    requires s'.rule == s.rule && period < base
    requires forall d :: d < base ==> ShiftAt(s'.extensions, d) == ShiftAt(s.extensions, d)
    requires exists k: nat :: s.rule.DueDay(k) == period && s.EffectiveDay(k) == day
    ensures exists k: nat :: s'.rule.DueDay(k) == period && s'.EffectiveDay(k) == day
  {
    var k: nat :| s.rule.DueDay(k) == period && s.EffectiveDay(k) == day;
    assert s'.EffectiveDay(k) == day;
  }

  lemma PeriodOnUnique(s: BillingSchedule, k: nat)
    requires s.Valid()
    ensures PeriodOn(s, s.EffectiveDay(k)) == s.rule.DueDay(k)
  {
    var j: nat :| s.EffectiveDay(j) == s.EffectiveDay(k) && s.rule.DueDay(j) == PeriodOn(s, s.EffectiveDay(k));
    s.EffectiveDaysInjective(j, k);
  }

  lemma EarlierDayEarlierPeriod(s: BillingSchedule, i: nat, j: nat)
    requires s.Valid()
    ensures s.EffectiveDay(i) < s.EffectiveDay(j) <==> s.rule.DueDay(i) < s.rule.DueDay(j)
    ensures s.EffectiveDay(i) < s.EffectiveDay(j) <==> i < j
  {
    if i < j {
      s.EffectiveDaysIncrease(i, j);
      s.rule.DueDaysIncrease(i, j);
    } else if j < i {
      s.EffectiveDaysIncrease(j, i);
      s.rule.DueDaysIncrease(j, i);
    }
  }

  lemma DeliveryKeepsInPlace(l: Ledger, benefitId: int, days: int, m: nat, wall: int)
    requires l.InPlace() && 1 <= days <= 365 && FindBenefit(l.events, benefitId).None?
    requires !BilledFrom(l, l.Schedule().EffectiveDay(m))
    ensures l.pending.Some? ==> l.Schedule().IsEffectiveDay(l.pending.value.dueDate)
    ensures Delivered(l, benefitId, days, m, wall).InPlace()
  {
    hide ShiftAt, ActiveAmong, SortByBase, PrefixDays, FindBenefit, ShiftBefore;
    var s, base := l.Schedule(), l.rule.DueDay(m);
    ScheduleValid(l);
    var l' := Delivered(l, benefitId, days, m, wall);
    DeliveryIsSound(l, benefitId, days, m, wall);
    var s' := l'.Schedule();
    forall day | day in l'.bills
      ensures l'.IsPeriodOn(l'.bills[day].period, day)
    {
      var k: nat :| l.rule.DueDay(k) == l.bills[day].period && s.EffectiveDay(k) == day;
      EarlierDayEarlierPeriod(s, k, m);
      PeriodUnmoved(s, s', base, l.bills[day].period, day);
    }
    if l.pending.Some? {
      var k: nat :| l.rule.DueDay(k) == l.pending.value.period && s.EffectiveDay(k) == l.pending.value.dueDate;
      PeriodOnUnique(s, k);
      assert s'.EffectiveDay(k) == l'.pending.value.dueDate;
    }
    DeliveryKeepsPreviousDues(l, benefitId, days, m, wall);
  }

  lemma DeliveryKeepsPreviousDues(l: Ledger, benefitId: int, days: int, m: nat, wall: int)
    requires l.InPlace() && 1 <= days <= 365
    requires l.pending.Some? ==> l.Schedule().IsEffectiveDay(l.pending.value.dueDate)
    ensures var l' := Delivered(l, benefitId, days, m, wall);
      forall i: nat | IsActive(l'.events, l'.Revised(), i)
        :: l'.events[i].previousDue <= l'.events[i].base + ShiftBefore(l'.events, l'.Revised(), i, |l'.events|)
  {
    hide ShiftAt, ActiveAmong, SortByBase, PrefixDays;
    var l' := Delivered(l, benefitId, days, m, wall);
    var e := l'.events[|l.events|];
    SortKeepsShift(l.Active(), e.base);
    RevisedIdsExist(l);
    forall i: nat | IsActive(l'.events, l'.Revised(), i)
      ensures l'.events[i].previousDue <= l'.events[i].base + ShiftBefore(l'.events, l'.Revised(), i, |l'.events|)
    {
      if i < |l.events| {
        ShiftBeforeUnderAppend(l.events, e, l.Revised(), i, |l.events|);
      } else {
        ShiftBeforeNewest(l.events, e, l.Revised(), |l.events|);
      }
    }
  }

  /** No bill entered before the target's stored previous due date is touched by revising it. */
  lemma BilledPeriodsPrecede(l: Ledger, t: nat, day: int)
    requires l.InPlace() && IsActive(l.events, l.Revised(), t)
    requires day in l.bills && day < l.events[t].previousDue
    ensures l.bills[day].period < l.events[t].base
  {
    ScheduleValid(l);
    var s := l.Schedule();
    var k: nat :| l.rule.DueDay(k) == l.bills[day].period && s.EffectiveDay(k) == day;
    var b: nat :| l.rule.DueDay(b) == l.events[t].base;
    ShiftBeforeBounded(l.events, l.Revised(), t, |l.events|);
    assert s.EffectiveDay(b) == l.events[t].base + ShiftAt(l.Active(), l.events[t].base);
    EarlierDayEarlierPeriod(s, k, b);
  }

  lemma RevisionKeepsInPlace(l: Ledger, t: nat, input: Revising, wall: int)
    requires l.InPlace() && IsLastActive(l.events, l.Revised(), t) && 0 <= input.days <= 365
    requires FindOperation(l.revisions, input.operationKey).None?
    requires input.days > 0 ==> FindBenefit(l.events, input.newBenefitId).None?
    requires !BilledFrom(l, l.events[t].previousDue)
    ensures l.pending.Some? ==> l.Schedule().IsEffectiveDay(l.pending.value.dueDate)
    ensures RevisedLedger(l, t, input, wall).InPlace()
  {
    hide ShiftAt, ActiveAmong, SortByBase, PrefixDays, FindBenefit, FindOperation, ShiftBefore;
    ScheduleValid(l);
    assert l.pending.Some? ==> l.IsPeriodOn(l.pending.value.period, l.pending.value.dueDate);
    var l' := RevisedLedger(l, t, input, wall);
    RevisionIsSound(l, t, input, wall);
    ScheduleValid(l');
    RevisionShiftsSchedule(l, t, input, wall);
    RevisionKeepsBills(l, l', t, input.days);
    RevisionKeepsPrice(l, l');
    RevisionKeepsPreviousDues(l, t, input, wall);
  }

  lemma RevisionShiftsSchedule(l: Ledger, t: nat, input: Revising, wall: int)
    requires l.Sound() && IsActive(l.events, l.Revised(), t) && 0 <= input.days <= 365
    requires l.pending.Some? ==> l.Schedule().IsEffectiveDay(l.pending.value.dueDate)
    ensures var l' := RevisedLedger(l, t, input, wall);
      forall day :: ShiftAt(l'.Schedule().extensions, day)
        == ShiftAt(l.Schedule().extensions, day) + if l.events[t].base <= day then input.days - l.events[t].days else 0
  {
    var l' := RevisedLedger(l, t, input, wall);
    forall day
      ensures ShiftAt(l'.Schedule().extensions, day)
        == ShiftAt(l.Schedule().extensions, day) + if l.events[t].base <= day then input.days - l.events[t].days else 0
    {
      RevisionShift(l, t, input, wall, day);
      SortKeepsShift(l.Active(), day);
      SortKeepsShift(l'.Active(), day);
    }
  }

  /** A price date that maps its period afresh sits on that period. */
  lemma RevisionKeepsPrice(l: Ledger, l': Ledger)
    requires l.PriceInPlace() && l'.rule == l.rule && l.Schedule().Valid() && l'.Schedule().Valid()
    requires l.pending.Some? && l.Schedule().IsEffectiveDay(l.pending.value.dueDate) ==>
      var period := PeriodOn(l.Schedule(), l.pending.value.dueDate);
      l'.pending == Some(l.pending.value.(dueDate := period + ShiftAt(l'.Active(), period)))
    requires l.pending.None? ==> l'.pending.None?
    ensures l'.PriceInPlace()
    ensures l.pending.Some? ==> l.Schedule().IsEffectiveDay(l.pending.value.dueDate)
  {
    if l.pending.Some? {
      var s, s' := l.Schedule(), l'.Schedule();
      var k: nat :| l.rule.DueDay(k) == l.pending.value.period && s.EffectiveDay(k) == l.pending.value.dueDate;
      PeriodOnUnique(s, k);
      SortKeepsShift(l'.Active(), l.rule.DueDay(k));
      assert s'.EffectiveDay(k) == l'.pending.value.dueDate;
    }
  }

  lemma RevisionKeepsBills(l: Ledger, l': Ledger, t: nat, days: int)
    requires l.InPlace() && IsLastActive(l.events, l.Revised(), t) && !BilledFrom(l, l.events[t].previousDue)
    requires l'.bills == l.bills && l'.Schedule().Valid() && l.Schedule().Valid() && l'.rule == l.rule
    requires forall day :: ShiftAt(l'.Schedule().extensions, day)
                           == ShiftAt(l.Schedule().extensions, day) + if l.events[t].base <= day
                             then days - l.events[t].days else 0
    ensures l'.BillsInPlace()
  {
    var s, s' := l.Schedule(), l'.Schedule();
    forall day | day in l'.bills
      ensures l'.IsPeriodOn(l'.bills[day].period, day)
    {
      BilledPeriodsPrecede(l, t, day);
      PeriodUnmoved(s, s', l.events[t].base, l.bills[day].period, day);
    }
  }

  lemma RevisionKeepsPreviousDues(l: Ledger, t: nat, input: Revising, wall: int)
    requires l.InPlace() && IsLastActive(l.events, l.Revised(), t) && 0 <= input.days <= 365
    requires l.pending.Some? ==> l.Schedule().IsEffectiveDay(l.pending.value.dueDate)
    ensures RevisedLedger(l, t, input, wall).PreviousDuesValid()
  {
    var l' := RevisedLedger(l, t, input, wall);
    RevisedIdsAppend(l.revisions, l'.revisions[|l.revisions|]);
    RevisedIdsExist(l);
    var revised := l.Revised() + {t};
    forall i: nat | IsActive(l'.events, l'.Revised(), i)
      ensures l'.events[i].previousDue <= l'.events[i].base + ShiftBefore(l'.events, l'.Revised(), i, |l'.events|)
    {
      if i < |l.events| {
        assert IsActive(l.events, l.Revised(), i) && i != t;
        assert Precedes(l.events, i, t);
        ShiftBeforeUnderRevision(l.events, l.Revised(), t, i, |l.events|);
        if input.days > 0 {
          ShiftBeforeUnderAppend(l.events, l'.events[|l.events|], revised, i, |l.events|);
        }
      } else {
        ShiftBeforeNewest(l.events, l'.events[|l.events|], revised, |l.events|);
      }
    }
  }

  // ---- runs

  datatype Op =
    | PayOp(day: int, expected: int, wall: int)
    | UnpayOp(day: int, expected: int, wall: int)
    | CorrectOp(day: int, amountCents: int, wall: int)
    | WithdrawOp(day: int, wall: int)
    | ExtendOp(benefitId: int, days: int, now: Instant, expectation: Option<Expectation>, wall: int)
    | ApplyOp(benefitId: int, days: int, previousDue: int, now: Instant, wall: int)
    | ReviseOp(input: Revising, wall: int)
    | PriceOp(cents: int, day: int, expected: int, wall: int)
    | DeferOp(reviewed: Expectation, now: Instant, wall: int)
    | ResumeOp(wall: int)
    | ElsewhereOp(standing: Standing, notified: set<int>, linked: set<int>)

  /** What one operation leaves behind; a refused one leaves everything as it was. `ElsewhereOp` is
      any change the rest of the program makes to the columns this ledger only reads. */
  ghost function Step(l: Ledger, op: Op): Ledger
    requires l.Sound()
  {
    match op
    case PayOp(day, expected, wall) => Kept(l, Pay(l, day, expected, wall))
    case UnpayOp(day, expected, wall) => Kept(l, Unpay(l, day, expected, wall))
    case CorrectOp(day, amountCents, wall) => Kept(l, CorrectBill(l, day, amountCents, wall))
    case WithdrawOp(day, wall) => Kept(l, WithdrawBill(l, day, wall))
    case ExtendOp(benefitId, days, now, expectation, wall) =>
      Kept(l, Extend(l, benefitId, days, now, expectation, wall))
    case ApplyOp(benefitId, days, previousDue, now, wall) =>
      Kept(l, ApplyBenefit(l, benefitId, days, previousDue, now, wall))
    case ReviseOp(input, wall) =>
      var result := Revise(l, input, wall);
      if result.Done? then result.value.0 else l
    case PriceOp(cents, day, expected, wall) => Kept(l, SchedulePrice(l, cents, day, expected, wall))
    case DeferOp(reviewed, now, wall) => Kept(l, Defer(l, reviewed, now, wall))
    case ResumeOp(wall) => Kept(l, Resume(l, wall))
    case ElsewhereOp(standing, notified, linked) => l.(standing := standing, notified := notified, linked := linked)
  }

  function Kept(l: Ledger, result: Outcome<Ledger>): Ledger {
    if result.Done? then result.value else l
  }

  lemma PayKeepsInPlace(l: Ledger, day: int, expected: int, wall: int)
    requires l.InPlace()
    ensures Kept(l, Pay(l, day, expected, wall)).InPlace()
  {
    var l' := Kept(l, Pay(l, day, expected, wall));
    assert l'.Schedule() == l.Schedule() && l'.Revised() == l.Revised();
    forall d | d in l'.bills
      ensures l'.IsPeriodOn(l'.bills[d].period, d)
    {
      if d in l.bills && l'.bills[d] == l.bills[d] {
        assert l.IsPeriodOn(l.bills[d].period, d);
      }
    }
    assert l'.pending.Some? ==> l.IsPeriodOn(l.pending.value.period, l.pending.value.dueDate);
  }

  lemma UnpayKeepsInPlace(l: Ledger, day: int, expected: int, wall: int)
    requires l.InPlace()
    ensures Kept(l, Unpay(l, day, expected, wall)).InPlace()
  {
    BillEditKeepsInPlace(l, Kept(l, Unpay(l, day, expected, wall)));
  }

  /** Bills may go, and those that stay keep their period. */
  lemma BillEditKeepsInPlace(l: Ledger, l': Ledger)
    requires l.InPlace()
    requires l'.rule == l.rule && l'.events == l.events && l'.revisions == l.revisions && l'.pending == l.pending
    requires forall d :: d in l'.bills ==> d in l.bills && l'.bills[d].period == l.bills[d].period
    ensures l'.InPlace()
  {
    assert l'.Schedule() == l.Schedule() && l'.Revised() == l.Revised();
    forall d | d in l'.bills
      ensures l'.IsPeriodOn(l'.bills[d].period, d)
    {
      assert l.IsPeriodOn(l.bills[d].period, d);
    }
    assert l'.pending.Some? ==> l.IsPeriodOn(l.pending.value.period, l.pending.value.dueDate);
  }

  lemma ExtendKeepsInPlace(
      l: Ledger, benefitId: int, days: int, now: Instant, expectation: Option<Expectation>, wall: int)
    requires l.InPlace()
    ensures Kept(l, Extend(l, benefitId, days, now, expectation, wall)).InPlace()
    ensures Extend(l, benefitId, days, now, expectation, wall) != Refused(PriceDateUnresolved)
  {
    assert l.pending.Some? ==> l.IsPeriodOn(l.pending.value.period, l.pending.value.dueDate);
    if Extend(l, benefitId, days, now, expectation, wall).Done? {
      DeliveryKeepsInPlace(l, benefitId, days, CurrentPeriod(l, now, true), wall);
    }
  }

  lemma ReviseKeepsInPlace(l: Ledger, input: Revising, wall: int)
    requires l.InPlace()
    ensures Step(l, ReviseOp(input, wall)).InPlace()
    ensures Revise(l, input, wall) != Refused(PriceDateUnresolved)
  {
    hide RevisedLedger, ShiftAt, ActiveAmong, SortByBase, PrefixDays, ShiftBefore;
    assert l.pending.Some? ==> l.IsPeriodOn(l.pending.value.period, l.pending.value.dueDate);
    var id := FindBenefit(l.events, input.benefitId);
    if Revise(l, input, wall).Done? && FindOperation(l.revisions, input.operationKey).None? {
      RevisionKeepsInPlace(l, id.value, input, wall);
    }
  }

  lemma PriceKeepsInPlace(l: Ledger, cents: int, day: int, expected: int, wall: int)
    requires l.InPlace()
    ensures Kept(l, SchedulePrice(l, cents, day, expected, wall)).InPlace()
  {
    var l' := Kept(l, SchedulePrice(l, cents, day, expected, wall));
    UnchangedTablesInPlace(l, l');
  }

  lemma UnchangedTablesInPlace(l: Ledger, l': Ledger)
    requires l.InPlace()
    requires l'.rule == l.rule && l'.events == l.events && l'.revisions == l.revisions && l'.bills == l.bills
    requires l'.pending == l.pending || l'.PriceInPlace()
    ensures l'.InPlace()
  {
    assert l'.Schedule() == l.Schedule() && l'.Revised() == l.Revised();
    forall d | d in l'.bills
      ensures l'.IsPeriodOn(l'.bills[d].period, d)
    {
      assert l.IsPeriodOn(l.bills[d].period, d);
    }
    assert l.pending.Some? ==> l.IsPeriodOn(l.pending.value.period, l.pending.value.dueDate);
  }

  predicate OnBills(op: Op) {
    op.PayOp? || op.UnpayOp? || op.CorrectOp? || op.WithdrawOp?
  }

  predicate OnExtensions(op: Op) {
    op.ExtendOp? || op.ApplyOp? || op.ReviseOp?
  }

  lemma BillOpKeepsInPlace(l: Ledger, op: Op)
    requires l.InPlace() && OnBills(op)
    ensures Step(l, op).InPlace()
  {
    match op
    case PayOp(day, expected, wall) => PayKeepsInPlace(l, day, expected, wall);
    case UnpayOp(day, expected, wall) => UnpayKeepsInPlace(l, day, expected, wall);
    case CorrectOp(_, _, _) => BillEditKeepsInPlace(l, Step(l, op));
    case WithdrawOp(_, _) => BillEditKeepsInPlace(l, Step(l, op));
  }

  lemma ExtensionOpKeepsInPlace(l: Ledger, op: Op)
    requires l.InPlace() && OnExtensions(op)
    ensures Step(l, op).InPlace()
  {
    match op
    case ExtendOp(benefitId, days, now, expectation, wall) =>
      ExtendKeepsInPlace(l, benefitId, days, now, expectation, wall);
    case ApplyOp(benefitId, days, previousDue, now, wall) => ExtendKeepsInPlace(l, benefitId, days, now, None, wall);
    case ReviseOp(input, wall) => ReviseKeepsInPlace(l, input, wall);
  }

  /** Whatever happens next, every bill and the pending price stay on their own periods. */
  lemma StepKeepsInPlace(l: Ledger, op: Op)
    requires l.InPlace()
    ensures Step(l, op).InPlace()
  {
    if OnBills(op) {
      BillOpKeepsInPlace(l, op);
    } else if OnExtensions(op) {
      ExtensionOpKeepsInPlace(l, op);
    } else if op.PriceOp? {
      PriceKeepsInPlace(l, op.cents, op.day, op.expected, op.wall);
    } else {
      UnchangedTablesInPlace(l, Step(l, op));
    }
  }

  /** Nothing is ever removed from the extension and revision tables. */
  ghost predicate Audited(l: Ledger, l': Ledger) {
    && l.events <= l'.events
    && l.revisions <= l'.revisions
    && l'.rule == l.rule
  }

  /** No operation rewrites the period of a bill that it leaves in place, and a bill named by an after-sales
      case it leaves entirely alone. */
  ghost predicate BillsKept(l: Ledger, l': Ledger) {
    && (forall day :: day in l.bills && day in l'.bills ==> l'.bills[day].period == l.bills[day].period)
    && (forall day :: day in l.bills && day in l.linked ==> day in l'.bills && l'.bills[day] == l.bills[day])
  }

  ghost predicate Moves(l: Ledger, op: Op, l': Ledger) {
    l.Sound() && l' == Step(l, op)
  }

  lemma StepIsAudited(l: Ledger, op: Op, l': Ledger)
    requires Moves(l, op, l')
    ensures Audited(l, l') && l.version <= l'.version && BillsKept(l, l')
  {
    if OnBills(op) {
      BillOpIsAudited(l, op);
    } else {
      match op
      case ExtendOp(benefitId, days, now, expectation, wall) =>
        DeliveryIsAudited(l, benefitId, days, now, expectation, wall);
      case ApplyOp(benefitId, days, previousDue, now, wall) => DeliveryIsAudited(l, benefitId, days, now, None, wall);
      case ReviseOp(input, wall) => RewriteIsAudited(l, input, wall);
      case _ =>
    }
  }

  lemma BillOpIsAudited(l: Ledger, op: Op)
    requires l.Sound() && OnBills(op)
    ensures var l' := Step(l, op); Audited(l, l') && l.version <= l'.version && BillsKept(l, l')
  {
  }

  lemma DeliveryIsAudited(
      l: Ledger, benefitId: int, days: int, now: Instant, expectation: Option<Expectation>, wall: int)
    requires l.Sound()
    ensures var l' := Kept(l, Extend(l, benefitId, days, now, expectation, wall));
      Audited(l, l') && l.version <= l'.version && l'.bills == l.bills
  {
  }

  lemma RewriteIsAudited(l: Ledger, input: Revising, wall: int)
    requires l.Sound()
    ensures var l' := Step(l, ReviseOp(input, wall)); Audited(l, l') && l.version <= l'.version && l'.bills == l.bills
  {
  }

  ghost predicate IsRun(ledgers: seq<Ledger>, ops: seq<Op>) {
    |ledgers| == |ops| + 1 && forall i {:trigger ops[i]} :: 0 <= i < |ops| ==> Moves(ledgers[i], ops[i], ledgers[i + 1])
  }

  lemma EachStep(ledgers: seq<Ledger>, ops: seq<Op>, n: nat)
    requires IsRun(ledgers, ops) && n < |ops|
    ensures Audited(ledgers[n], ledgers[n + 1]) && BillsKept(ledgers[n], ledgers[n + 1])
    ensures ledgers[n].InPlace() ==> ledgers[n + 1].InPlace()
  {
    assert Moves(ledgers[n], ops[n], ledgers[n + 1]);
    StepIsAudited(ledgers[n], ops[n], ledgers[n + 1]);
    if ledgers[n].InPlace() { StepKeepsInPlace(ledgers[n], ops[n]); }
  }

  /** Over every run each bill stays on a due date of the current schedule and keeps the period it
      was entered for, a pending price keeps its period, and the history only grows. */
  lemma {:induction false} RunKeepsInPlace(ledgers: seq<Ledger>, ops: seq<Op>, n: nat)
    requires IsRun(ledgers, ops) && ledgers[0].InPlace() && n < |ledgers|
    ensures ledgers[n].InPlace()
    ensures Audited(ledgers[0], ledgers[n])
  {
    if n > 0 {
      RunKeepsInPlace(ledgers, ops, n - 1);
      EachStep(ledgers, ops, n - 1);
    }
  }

  /** A bill that survives a stretch of a run keeps its period through all of it, even if its amount is corrected. */
  lemma {:induction false} SurvivingBillKeepsPeriod(ledgers: seq<Ledger>, ops: seq<Op>, from: nat, to: nat, day: int)
    requires IsRun(ledgers, ops) && from <= to < |ledgers|
    requires forall i :: from <= i <= to ==> day in ledgers[i].bills
    ensures ledgers[to].bills[day].period == ledgers[from].bills[day].period
  {
    if from < to {
      SurvivingBillKeepsPeriod(ledgers, ops, from, to - 1, day);
      EachStep(ledgers, ops, to - 1);
    }
  }

  /** From the moment an after-sales case names it, and for as long as one does, a bill can neither be
      withdrawn nor corrected. */
  lemma {:induction false} LinkedBillIsFixed(ledgers: seq<Ledger>, ops: seq<Op>, from: nat, to: nat, day: int)
    requires IsRun(ledgers, ops) && from <= to < |ledgers| && day in ledgers[from].bills
    requires forall i :: from <= i < to ==> day in ledgers[i].linked
    ensures day in ledgers[to].bills && ledgers[to].bills[day] == ledgers[from].bills[day]
  {
    if from < to {
      LinkedBillIsFixed(ledgers, ops, from, to - 1, day);
      EachStep(ledgers, ops, to - 1);
    }
  }

  /** A bill that no case names can take any other amount. */
  lemma UnlinkedBillIsNotFixed(l: Ledger, day: int, amountCents: int, wall: int)
    requires l.Sound() && day in l.bills && 0 <= amountCents && amountCents != l.bills[day].amountCents
    ensures Step(l, CorrectOp(day, amountCents, wall)).bills == l.bills <==> day in l.linked
  {
  }

  // ---- what a delivered extension means

  ghost function DueAfter(l: Ledger, now: Instant): int
    requires l.Sound()
  {
    l.Schedule().EffectiveDay(CurrentPeriod(l, now, true))
  }

  lemma HistoryRefocused(l: Ledger, l': Ledger, m: nat)
    requires l.Sound() && l'.Sound() && l'.rule == l.rule
    requires l.events < l'.events && forall i :: |l.events| <= i < |l'.events| ==> l'.events[i].base == l.rule.DueDay(m)
    ensures Refocused(Anchors(l.Schedule(), l.Historical(true)), Anchors(l'.Schedule(), l'.Historical(true)),
      l.rule.DueDay(m))
  {
    var before, after := l.Historical(true), l'.Historical(true);
    var base := l.rule.DueDay(m);
    assert l'.events[|l.events|].base == base;
    assert after[0] in Anchors(l'.Schedule(), after) && after[0] <= base;
    forall anchor | anchor in Anchors(l'.Schedule(), after)
      ensures base <= anchor || exists old_ :: old_ in Anchors(l.Schedule(), before) && old_ <= anchor
    {
      AnchorsFromHistory(l', anchor);
      var i :| 0 <= i < |l'.events| && l'.events[i].base <= anchor;
      if i < |l.events| {
        assert l.events[i].base == l'.events[i].base;
        assert before[0] in Anchors(l.Schedule(), before);
      }
    }
  }

  /** Every anchor of an extended ledger is the base date of a delivered extension. */
  lemma AnchorsFromHistory(l: Ledger, anchor: int)
    requires l.Sound() && l.events != [] && anchor in Anchors(l.Schedule(), l.Historical(true))
    ensures exists i :: 0 <= i < |l.events| && l.events[i].base <= anchor
  {
    if anchor !in l.Historical(true) {
      var first := l.Schedule().extensions[0];
      SortByBaseSorts(l.Active());
      MultisetMembers(l.Schedule().extensions, l.Active());
      ActiveAmongMembers(l.events, l.Revised(), |l.events|);
      assert first in l.Active();
    }
  }

  lemma BillsPrecede(l: Ledger, m: nat)
    requires l.InPlace() && !BilledFrom(l, l.Schedule().EffectiveDay(m))
    ensures forall day :: day in l.bills.Keys ==> l.Schedule().IsEffectiveDay(day) && day < l.Schedule().EffectiveDay(m)
  {
    forall day | day in l.bills.Keys
      ensures l.Schedule().IsEffectiveDay(day) && day < l.Schedule().EffectiveDay(m)
    {
      assert l.IsPeriodOn(l.bills[day].period, day);
    }
  }

  lemma DeliveryKeepsPeriod(l: Ledger, l': Ledger, now: Instant, days: int, m: nat)
    requires l.InPlace() && !BilledFrom(l, l.Schedule().EffectiveDay(m)) && 1 <= days
    requires IsDelivery(l, l', days, m)
    requires l.events < l'.events && forall i :: |l.events| <= i < |l'.events| ==> l'.events[i].base == l.rule.DueDay(m)
    requires m == CurrentPeriod(l, now, true)
    ensures CurrentPeriod(l', now, true) == m
    ensures l'.Schedule().EffectiveDay(m) == l.Schedule().EffectiveDay(m) + days
  {
    ScheduleValid(l);
    ScheduleValid(l');
    BillsPrecede(l, m);
    HistoryRefocused(l, l', m);
    var before, after := Anchors(l.Schedule(), l.Historical(true)), Anchors(l'.Schedule(), l'.Historical(true));
    ExtensionMovesByExactly(l.Schedule(), l'.Schedule(), now, l.bills.Keys, before, after, m, days);
    FirstUnpaidUnique(l'.Schedule(), now, l'.bills.Keys, after, m, CurrentPeriod(l', now, true));
  }

  /** Delivering d days moves the actionable date by exactly d days, whether the ledger is empty,
      pinned by an anchor, overdue or prepaid, and the stored record says so. */
  lemma ExtendingMovesDueDate(
    l: Ledger, benefitId: int, days: int, now: Instant, expectation: Option<Expectation>, wall: int, l': Ledger)
    requires l.InPlace() && Extend(l, benefitId, days, now, expectation, wall) == Done(l')
    ensures l'.InPlace()
    ensures DueAfter(l', now) == DueAfter(l, now) + days
    ensures CurrentPeriod(l', now, true) == CurrentPeriod(l, now, true)
    ensures |l'.events| == |l.events| + 1 && l'.events[|l.events|].days == days
    ensures l'.events[|l.events|].previousDue == DueAfter(l, now)
    ensures l'.events[|l.events|].effectiveDue == DueAfter(l', now)
  {
    ExtendKeepsInPlace(l, benefitId, days, now, expectation, wall);
    ExtendUnfolds(l, benefitId, days, now, expectation, wall, l');
    DeliveryMovesDueDate(l, benefitId, days, CurrentPeriod(l, now, true), wall, now);
  }

  lemma DeliveryMovesDueDate(l: Ledger, benefitId: int, days: int, m: nat, wall: int, now: Instant)
    requires l.InPlace() && 1 <= days <= 365 && FindBenefit(l.events, benefitId).None?
    requires m == CurrentPeriod(l, now, true) && !BilledFrom(l, l.Schedule().EffectiveDay(m))
    requires Delivered(l, benefitId, days, m, wall).InPlace()
    ensures var l' := Delivered(l, benefitId, days, m, wall);
      && CurrentPeriod(l', now, true) == m && DueAfter(l', now) == DueAfter(l, now) + days
      && |l'.events| == |l.events| + 1 && l'.events[|l.events|].days == days
      && l'.events[|l.events|].previousDue == DueAfter(l, now)
      && l'.events[|l.events|].effectiveDue == DueAfter(l', now)
  {
    DeliveryIsSound(l, benefitId, days, m, wall);
    DeliveryKeepsPeriod(l, Delivered(l, benefitId, days, m, wall), now, days, m);
  }

  /** Shifting the pending price date by d days gives what mapping its period afresh would give. */
  lemma PriceDateRecomputed(
    l: Ledger, benefitId: int, days: int, now: Instant, expectation: Option<Expectation>, wall: int, l': Ledger)
    requires l.InPlace() && l.pending.Some? && Extend(l, benefitId, days, now, expectation, wall) == Done(l')
    ensures l'.pending.Some? && l'.pending.value.period == l.pending.value.period
    ensures l'.pending.value.dueDate == l.pending.value.period + ShiftAt(l'.Active(), l.pending.value.period)
  {
    ExtendKeepsInPlace(l, benefitId, days, now, expectation, wall);
    ScheduleValid(l');
    assert l'.IsPeriodOn(l'.pending.value.period, l'.pending.value.dueDate);
  }

  /** A bill is charged the pending price exactly when its period is not before the price's period. */
  lemma PriceFollowsPeriod(l: Ledger, k: nat)
    requires l.InPlace() && l.pending.Some? && !l.standing.resale
    ensures l.BillAmount(l.Schedule().EffectiveDay(k))
         == if l.pending.value.period <= l.rule.DueDay(k) then l.pending.value.cents else l.priceCents
  {
    ScheduleValid(l);
    assert l.IsPeriodOn(l.pending.value.period, l.pending.value.dueDate);
    var j: nat :| l.rule.DueDay(j) == l.pending.value.period && l.Schedule().EffectiveDay(j) == l.pending.value.dueDate;
    EarlierDayEarlierPeriod(l.Schedule(), k, j);
  }

  // ---- what revising means

  lemma {:induction false} ActiveIgnoresLaterIds(events: seq<Extension>, revised: set<nat>, id: nat, n: nat)
    requires n <= |events| && n <= id
    ensures ActiveAmong(events, revised + {id}, n) == ActiveAmong(events, revised, n)
  {
    if n > 0 {
      ActiveIgnoresLaterIds(events, revised, id, n - 1);
    }
  }

  /** What an accepted delivery has checked and done. */
  lemma ExtendUnfolds(
      l: Ledger, benefitId: int, days: int, now: Instant, expectation: Option<Expectation>, wall: int, l': Ledger)
    requires l.Sound() && Extend(l, benefitId, days, now, expectation, wall) == Done(l')
    ensures 1 <= days <= 365 && FindBenefit(l.events, benefitId).None?
    ensures !BilledFrom(l, DueAfter(l, now))
    ensures l.pending.Some? ==> l.Schedule().IsEffectiveDay(l.pending.value.dueDate)
    ensures l' == Delivered(l, benefitId, days, CurrentPeriod(l, now, true), wall)
  {
  }

  /** What an accepted revision has checked and done. */
  lemma ReviseUnfolds(l: Ledger, input: Revising, wall: int, l': Ledger, receipt: Receipt)
    requires l.Sound() && Revise(l, input, wall) == Done((l', receipt)) && !receipt.replayed
    ensures FindBenefit(l.events, input.benefitId).Some?
    ensures FindOperation(l.revisions, input.operationKey).None?
    ensures var t := FindBenefit(l.events, input.benefitId).value;
      && IsLastActive(l.events, l.Revised(), t) && !BilledFrom(l, l.events[t].previousDue)
      && (l.pending.Some? ==> l.Schedule().IsEffectiveDay(l.pending.value.dueDate))
      && l' == RevisedLedger(l, t, input, wall)
    ensures 0 <= input.days <= 365 && (input.days > 0 ==> FindBenefit(l.events, input.newBenefitId).None?)
  {
  }

  lemma RevisedRows(l: Ledger, l1: Ledger, l2: Ledger, e: Extension, e': Extension, revision: Revision, replaced: bool)
    requires l.Sound()
    requires l1.events == l.events + [e] && l1.revisions == l.revisions
    requires l2.events == l1.events + (if replaced then [e'] else []) && l2.revisions == l1.revisions + [revision]
    requires revision.extension == |l.events|
    ensures l2.Active() == l.Active() + if replaced then [DueExtension(e'.base, e'.days)] else []
  {
    var n := |l.events|;
    var revised := l.Revised() + {n};
    RevisedIdsExist(l);
    RevisedIdsAppend(l1.revisions, revision);
    ActiveIgnoresLaterIds(l.events, l.Revised(), n, n);
    ActiveUnderAppend(l.events, e, revised, n);
    assert ActiveAmong(l1.events, revised, n + 1) == l.Active();
    if replaced {
      assert n + 1 !in revised;
      ActiveUnderAppend(l1.events, e', revised, n + 1);
    } else {
      assert l2.events == l1.events;
    }
  }

  /** Two ledgers with the same active extensions date the same pending price alike. */
  lemma SamePendingDate(a: Ledger, b: Ledger)
    requires a.InPlace() && b.InPlace() && a.rule == b.rule && a.Active() == b.Active()
    requires a.pending.Some? <==> b.pending.Some?
    requires a.pending.Some? ==> a.pending.value.(dueDate := 0) == b.pending.value.(dueDate := 0)
    ensures a.pending == b.pending
  {
    if a.pending.Some? {
      assert a.IsPeriodOn(a.pending.value.period, a.pending.value.dueDate);
      assert b.IsPeriodOn(b.pending.value.period, b.pending.value.dueDate);
      var i: nat :| a.rule.DueDay(i) == a.pending.value.period
        && a.Schedule().EffectiveDay(i) == a.pending.value.dueDate;
      var j: nat :| b.rule.DueDay(j) == b.pending.value.period
        && b.Schedule().EffectiveDay(j) == b.pending.value.dueDate;
      a.rule.DueDayInjective(i, j);
    }
  }

  /** `l1` extends `l` at period `m`, and `l2` revises that extension at once. */
  ghost predicate IsNewestRevision(
    l: Ledger, l1: Ledger, l2: Ledger, benefitId: int, days: int, m: nat, wall: int, input: Revising, wall': int)
  {
    && l.InPlace() && 1 <= days <= 365 && 0 <= input.days <= 365
    && FindBenefit(l.events, benefitId).None? && !BilledFrom(l, l.Schedule().EffectiveDay(m))
    && (l.pending.Some? ==> l.Schedule().IsEffectiveDay(l.pending.value.dueDate))
    && l1 == Delivered(l, benefitId, days, m, wall)
    && (l1.pending.Some? ==> l1.Schedule().IsEffectiveDay(l1.pending.value.dueDate))
    && l2 == RevisedLedger(l1, |l.events|, input, wall')
    && IsLastActive(l1.events, l1.Revised(), |l.events|)
    && FindOperation(l1.revisions, input.operationKey).None?
    && (input.days > 0 ==> FindBenefit(l1.events, input.newBenefitId).None?)
  }

  /** A revision accepted right after the extension it names revises the newest row. */
  lemma RevisesNewest(
    l: Ledger, l1: Ledger, l2: Ledger, benefitId: int, days: int, now: Instant, expectation: Option<Expectation>,
    wall: int, input: Revising, wall': int, receipt: Receipt)
    requires l.InPlace() && Extend(l, benefitId, days, now, expectation, wall) == Done(l1) && l1.Sound()
    requires input.benefitId == benefitId
    requires Revise(l1, input, wall') == Done((l2, receipt)) && !receipt.replayed
    ensures IsNewestRevision(l, l1, l2, benefitId, days, CurrentPeriod(l, now, true), wall, input, wall')
    ensures 1 <= days <= 365 && 0 <= input.days <= 365
    ensures input.days > 0 ==> FindBenefit(l.events, input.newBenefitId).None?
  {
    hide Extend, Revise, CurrentPeriod, RevisedLedger, ShiftAt, ActiveAmong, SortByBase, PrefixDays, ShiftBefore;
    ExtendUnfolds(l, benefitId, days, now, expectation, wall, l1);
    ReviseUnfolds(l1, input, wall', l2, receipt);
    FindsIt(l1.events, |l.events|);
    if input.days > 0 { FreshBenefit(l.events, l1.events[|l.events|], input.newBenefitId); }
  }

  lemma NewestInPlace(
    l: Ledger, l1: Ledger, l2: Ledger, benefitId: int, days: int, m: nat, wall: int, input: Revising, wall': int)
    requires IsNewestRevision(l, l1, l2, benefitId, days, m, wall, input, wall')
    ensures l2.InPlace()
  {
    DeliveryKeepsInPlace(l, benefitId, days, m, wall);
    assert BilledFrom(l1, l1.events[|l.events|].previousDue) ==> BilledFrom(l, l.Schedule().EffectiveDay(m));
    RevisionKeepsInPlace(l1, |l.events|, input, wall');
  }

  lemma NewestRows(
    l: Ledger, l1: Ledger, l2: Ledger, benefitId: int, days: int, m: nat, wall: int, input: Revising, wall': int)
    requires IsNewestRevision(l, l1, l2, benefitId, days, m, wall, input, wall')
    ensures l2.rule == l.rule && l2.bills == l.bills
    ensures l.events < l2.events && |l2.events| == |l.events| + if input.days > 0 then 2 else 1
    ensures forall i :: |l.events| <= i < |l2.events| ==> l2.events[i].base == l.rule.DueDay(m)
    ensures l2.pending.Some? <==> l.pending.Some?
    ensures l.pending.Some? ==> l2.pending.value.(dueDate := 0) == l.pending.value.(dueDate := 0)
  {
  }

  lemma NewestActive(
    l: Ledger, l1: Ledger, l2: Ledger, benefitId: int, days: int, m: nat, wall: int, input: Revising, wall': int)
    requires IsNewestRevision(l, l1, l2, benefitId, days, m, wall, input, wall')
    ensures l2.Active() == l.Active() + if input.days > 0 then [DueExtension(l.rule.DueDay(m), input.days)] else []
  {
    var n := |l.events|;
    RevisedRows(l, l1, l2, l1.events[n], if input.days > 0 then l2.events[n + 1] else l1.events[n],
                l2.revisions[|l.revisions|], input.days > 0);
  }

  /** Revoking an extension right after delivering it restores the effective schedule, the pending
      price date and the actionable date, even when that date has become overdue meanwhile. */
  lemma RevokingUndoesExtending(
    l: Ledger, l1: Ledger, l2: Ledger, benefitId: int, days: int, now: Instant, expectation: Option<Expectation>,
    wall: int, input: Revising, later: Instant, wall': int, receipt: Receipt)
    requires l.InPlace() && Extend(l, benefitId, days, now, expectation, wall) == Done(l1) && l1.Sound()
    requires input.benefitId == benefitId && input.days == 0 && !later.Before(now)
    requires Revise(l1, input, wall') == Done((l2, receipt)) && !receipt.replayed
    ensures l2.InPlace() && l2.Schedule() == l.Schedule()
    ensures l2.pending == l.pending && l2.bills == l.bills
    ensures CurrentPeriod(l2, later, true) == CurrentPeriod(l, now, true)
    ensures DueAfter(l2, later) == DueAfter(l, now)
  {
    hide Extend, Revise, IsNewestRevision, ShiftAt, ActiveAmong, SortByBase, PrefixDays, ShiftBefore;
    RevisesNewest(l, l1, l2, benefitId, days, now, expectation, wall, input, wall', receipt);
    RevokedRestores(l, l1, l2, benefitId, days, CurrentPeriod(l, now, true), wall, input, now, later, wall');
  }

  lemma RevokedRestores(
    l: Ledger, l1: Ledger, l2: Ledger, benefitId: int, days: int, m: nat, wall: int, input: Revising,
    now: Instant, later: Instant, wall': int)
    requires IsNewestRevision(l, l1, l2, benefitId, days, m, wall, input, wall') && input.days == 0
    requires m == CurrentPeriod(l, now, true) && !later.Before(now)
    ensures l2.InPlace() && l2.Schedule() == l.Schedule() && l2.pending == l.pending && l2.bills == l.bills
    ensures CurrentPeriod(l2, later, true) == m
  {
    NewestInPlace(l, l1, l2, benefitId, days, m, wall, input, wall');
    NewestRows(l, l1, l2, benefitId, days, m, wall, input, wall');
    NewestActive(l, l1, l2, benefitId, days, m, wall, input, wall');
    SamePendingDate(l2, l);
    RestoredPeriod(l, l2, now, later, m);
  }

  lemma RestoredPeriod(l: Ledger, l2: Ledger, now: Instant, later: Instant, m: nat)
    requires l.Sound() && l2.Sound() && l2.rule == l.rule && l2.bills == l.bills
    requires l2.Schedule() == l.Schedule() && m == CurrentPeriod(l, now, true) && !later.Before(now)
    requires l.events < l2.events && forall i :: |l.events| <= i < |l2.events| ==> l2.events[i].base == l.rule.DueDay(m)
    ensures CurrentPeriod(l2, later, true) == m
  {
    HistoryRefocused(l, l2, m);
    ScheduleValid(l);
    var before, after := Anchors(l.Schedule(), l.Historical(true)), Anchors(l2.Schedule(), l2.Historical(true));
    WithdrawalKeepsPeriod(l.Schedule(), now, later, l.bills.Keys, before, after, m);
    FirstUnpaidUnique(l2.Schedule(), later, l2.bills.Keys, after, m, CurrentPeriod(l2, later, true));
  }

  /** Replacing d days by e leaves the schedule, the pending price date and the actionable date that
      extending by e in the first place would have given, and that extension would have been accepted. */
  lemma ReplacingEqualsExtending(
    l: Ledger, l1: Ledger, l2: Ledger, benefitId: int, days: int, now: Instant, expectation: Option<Expectation>,
    wall: int, input: Revising, wall': int, receipt: Receipt) returns (direct: Ledger)
    requires l.InPlace() && Extend(l, benefitId, days, now, expectation, wall) == Done(l1) && l1.Sound()
    requires input.benefitId == benefitId && input.days > 0
    requires Revise(l1, input, wall') == Done((l2, receipt)) && !receipt.replayed
    ensures Extend(l, input.newBenefitId, input.days, now, expectation, wall) == Done(direct)
    ensures l2.InPlace() && direct.InPlace() && l2.Schedule() == direct.Schedule()
    ensures l2.pending == direct.pending && l2.bills == direct.bills
    ensures DueAfter(l2, now) == DueAfter(direct, now) == DueAfter(l, now) + input.days
  {
    hide Extend, Revise, IsNewestRevision, Delivered, DueAfter, CurrentPeriod, FindBenefit, ShiftAt, ActiveAmong;
    hide SortByBase, PrefixDays, ShiftBefore;
    RevisesNewest(l, l1, l2, benefitId, days, now, expectation, wall, input, wall', receipt);
    direct := DirectAccepted(l, benefitId, days, now, expectation, wall, input.newBenefitId, input.days);
    ReplacedLikeDirect(l, l1, l2, benefitId, days, CurrentPeriod(l, now, true), wall, input, now, wall', direct);
  }

  lemma DirectAccepted(
    l: Ledger, benefitId: int, days: int, now: Instant, expectation: Option<Expectation>, wall: int,
    benefitId': int, days': int) returns (direct: Ledger)
    requires l.Sound() && Extend(l, benefitId, days, now, expectation, wall).Done?
    requires 1 <= days' <= 365 && FindBenefit(l.events, benefitId').None?
    ensures l.pending.Some? ==> l.Schedule().IsEffectiveDay(l.pending.value.dueDate)
    ensures direct == Delivered(l, benefitId', days', CurrentPeriod(l, now, true), wall)
    ensures Extend(l, benefitId', days', now, expectation, wall) == Done(direct)
  {
    direct := Delivered(l, benefitId', days', CurrentPeriod(l, now, true), wall);
  }

  lemma ReplacedLikeDirect(
    l: Ledger, l1: Ledger, l2: Ledger, benefitId: int, days: int, m: nat, wall: int, input: Revising,
    now: Instant, wall': int, direct: Ledger)
    requires IsNewestRevision(l, l1, l2, benefitId, days, m, wall, input, wall') && input.days > 0
    requires FindBenefit(l.events, input.newBenefitId).None?
    requires m == CurrentPeriod(l, now, true) && direct == Delivered(l, input.newBenefitId, input.days, m, wall)
    ensures l2.InPlace() && direct.InPlace() && l2.Schedule() == direct.Schedule()
    ensures l2.pending == direct.pending && l2.bills == direct.bills
    ensures DueAfter(l2, now) == DueAfter(direct, now) == DueAfter(l, now) + input.days
  {
    hide ShiftAt, ActiveAmong, SortByBase, PrefixDays, ShiftBefore;
    NewestInPlace(l, l1, l2, benefitId, days, m, wall, input, wall');
    NewestRows(l, l1, l2, benefitId, days, m, wall, input, wall');
    NewestActive(l, l1, l2, benefitId, days, m, wall, input, wall');
    DirectRows(l, input.newBenefitId, input.days, m, wall);
    SamePendingDate(l2, direct);
    SameDelivery(l, l2, direct, now, input.days, m);
  }

  lemma DirectRows(l: Ledger, benefitId: int, days: int, m: nat, wall: int)
    requires l.InPlace() && 1 <= days <= 365 && FindBenefit(l.events, benefitId).None?
    requires !BilledFrom(l, l.Schedule().EffectiveDay(m))
    ensures l.pending.Some? ==> l.Schedule().IsEffectiveDay(l.pending.value.dueDate)
    ensures var direct := Delivered(l, benefitId, days, m, wall);
      && direct.InPlace() && direct.rule == l.rule && direct.bills == l.bills
      && IsDelivery(l, direct, days, m)
      && l.events < direct.events && |direct.events| == |l.events| + 1
      && direct.events[|l.events|].base == l.rule.DueDay(m)
      && direct.Active() == l.Active() + [DueExtension(l.rule.DueDay(m), days)]
      && (direct.pending.Some? <==> l.pending.Some?)
      && (l.pending.Some? ==> direct.pending.value.(dueDate := 0) == l.pending.value.(dueDate := 0))
  {
    DeliveryKeepsInPlace(l, benefitId, days, m, wall);
    DeliveryIsSound(l, benefitId, days, m, wall);
    RevisedIdsExist(l);
    ActiveUnderAppend(l.events, Delivered(l, benefitId, days, m, wall).events[|l.events|], l.Revised(), |l.events|);
  }

  lemma SameDelivery(l: Ledger, l2: Ledger, direct: Ledger, now: Instant, days: int, m: nat)
    requires l.InPlace() && !BilledFrom(l, l.Schedule().EffectiveDay(m)) && 1 <= days
    requires m == CurrentPeriod(l, now, true)
    requires IsDelivery(l, direct, days, m) && l2.Sound() && l2.rule == l.rule && l2.bills == l.bills
    requires l2.Schedule() == direct.Schedule()
    requires l.events < direct.events
    requires forall i :: |l.events| <= i < |direct.events| ==> direct.events[i].base == l.rule.DueDay(m)
    requires l.events < l2.events && forall i :: |l.events| <= i < |l2.events| ==> l2.events[i].base == l.rule.DueDay(m)
    ensures DueAfter(l2, now) == DueAfter(direct, now) == DueAfter(l, now) + days
  {
    DeliveryKeepsPeriod(l, direct, now, days, m);
    DeliveryKeepsPeriod(l, l2, now, days, m);
  }

  lemma FreshBenefit(events: seq<Extension>, e: Extension, benefitId: int)
    requires FindBenefit(events + [e], benefitId).None?
    ensures FindBenefit(events, benefitId).None?
  {
    forall i | 0 <= i < |events|
      ensures events[i].benefitId != benefitId
    {
      assert (events + [e])[i] == events[i];
    }
  }

  lemma FindsOperation(revisions: seq<Revision>, id: nat)
    requires id < |revisions|
    requires forall i, j :: 0 <= i < j < |revisions| ==> revisions[i].operationKey != revisions[j].operationKey
    ensures FindOperation(revisions, revisions[id].operationKey) == Some(id)
  {
    var found := FindOperation(revisions, revisions[id].operationKey);
    assert found.Some?;
    assert !(found.value < id) && !(id < found.value);
  }

  /** Repeating an accepted revision at any later point of any run changes nothing and reports the
      same replacement. */
  lemma RevisionReplay(l: Ledger, l': Ledger, input: Revising, wall: int, receipt: Receipt, later: Ledger, again: int)
    requires l.Sound() && Revise(l, input, wall) == Done((l', receipt))
    requires l'.Sound() && later.Sound() && Audited(l', later)
    ensures Revise(later, input, again) == Done((later, Receipt(receipt.replacementBenefit, true)))
  {
    var id := FindBenefit(l.events, input.benefitId);
    assert later.events[id.value] == l.events[id.value];
    FindsIt(later.events, id.value);
    var operation := FindOperation(l.revisions, input.operationKey);
    var r := if operation.Some? then operation.value else |l.revisions|;
    assert later.revisions[r] == l'.revisions[r];
    FindsOperation(later.revisions, r);
    if l'.revisions[r].replacement.Some? {
      var e := l'.revisions[r].replacement.value;
      assert later.events[e] == l'.events[e];
    }
  }

  /** So does repeating an applied benefit, even after its extension was revised away. */
  lemma BenefitReplay(
    l: Ledger, l': Ledger, benefitId: int, days: int, previous: int, now: Instant, wall: int,
    later: Ledger, again: Instant, wall': int)
    requires l.Sound() && ApplyBenefit(l, benefitId, days, previous, now, wall) == Done(l')
    requires l'.Sound() && later.Sound() && Audited(l', later)
    ensures ApplyBenefit(later, benefitId, days, previous, again, wall') == Done(later)
  {
    var id := FindBenefit(l.events, benefitId);
    var e := if id.Some? then id.value else |l.events|;
    assert later.events[e] == l'.events[e];
    FindsIt(later.events, e);
  }
}
