/** What delivering, withdrawing and waiting do to the actionable period. */
module CalendarLaws {
  import opened Collections
  import opened Instants
  import opened BaseRules
  import opened EffectiveSchedules
  import opened UnpaidBoundary

  /** `later` is `s` with every boundary from base day `base` on postponed by `days`. */
  ghost predicate Delays(s: BillingSchedule, later: BillingSchedule, base: int, days: int) {
    && later.rule == s.rule
    && forall day :: ShiftAt(later.extensions, day) == ShiftAt(s.extensions, day) + if base <= day then days else 0
  }

  /** The anchors now include the period based on `base`, and nothing earlier that was not pinned before. */
  ghost predicate Refocused(before: set<int>, after: set<int>, base: int) {
    && (exists anchor :: anchor in after && anchor <= base)
    && forall anchor :: anchor in after ==> base <= anchor || exists old_ :: old_ in before && old_ <= anchor
  }

  lemma RefocusedAnchors(s: BillingSchedule, before: set<int>, after: set<int>, m: nat, j: nat)
    requires s.Valid() && Refocused(before, after, s.rule.DueDay(m))
    ensures j < m && StartedByAnchor(s, after, j) ==> StartedByAnchor(s, before, j)
    ensures StartedByAnchor(s, after, m)
  {
    if j < m && StartedByAnchor(s, after, j) {
      s.rule.DueDaysIncrease(j, m);
    }
  }

  /** The heart of due_extension.go: delivering `days` extra days at the first unpaid period makes
      the next actionable date exactly `days` later, and it is still the same logical period. */
  lemma ExtensionMovesByExactly(
    s: BillingSchedule, later: BillingSchedule, now: Instant, paid: set<int>,
    before: set<int>, after: set<int>, m: nat, days: int)
    requires s.Valid() && later.Valid() && 1 <= days
    requires IsFirstUnpaid(s, now, paid, before, m)
    requires forall day :: day in paid ==> s.IsEffectiveDay(day) && day < s.EffectiveDay(m)
    requires Delays(s, later, s.rule.DueDay(m), days)
    requires Refocused(before, after, s.rule.DueDay(m))
    ensures IsFirstUnpaid(later, now, paid, after, m)
    ensures later.EffectiveDay(m) == s.EffectiveDay(m) + days
  {
    RefocusedAnchors(s, before, after, m, m);
    forall j: nat | j < m
      ensures !Open(later, now, paid, after, j)
    {
      assert !Open(s, now, paid, before, j);
      EarlierPeriodsUntouched(s, later, m, days, j);
      if Started(later, now, paid, after, j) {
        StartedBeforeDelay(s, later, now, paid, before, after, m, days, j);
      }
    }
  }

  lemma EarlierPeriodsUntouched(s: BillingSchedule, later: BillingSchedule, m: nat, days: int, j: nat)
    requires s.Valid() && Delays(s, later, s.rule.DueDay(m), days)
    ensures later.EffectiveDay(j) == s.EffectiveDay(j) + if m <= j then days else 0
  {
    if j < m {
      s.rule.DueDaysIncrease(j, m);
    } else if m < j {
      s.rule.DueDaysIncrease(m, j);
    }
  }

  lemma StartedBeforeDelay(
    s: BillingSchedule, later: BillingSchedule, now: Instant, paid: set<int>,
    before: set<int>, after: set<int>, m: nat, days: int, j: nat)
    requires s.Valid() && j < m
    requires forall day :: day in paid ==> s.IsEffectiveDay(day) && day < s.EffectiveDay(m)
    requires Delays(s, later, s.rule.DueDay(m), days)
    requires Refocused(before, after, s.rule.DueDay(m))
    requires Started(later, now, paid, after, j)
    ensures Started(s, now, paid, before, j)
  {
    RefocusedAnchors(s, before, after, m, j);
    EarlierPeriodsUntouched(s, later, m, days, j);
    EarlierPeriodsUntouched(s, later, m, days, j + 1);
    if j + 1 == m && paid != {} {
      // Some bill exists, and every bill belongs to a period before m.
      BillBefore(s, paid, m);
    }
  }

  lemma BillBefore(s: BillingSchedule, paid: set<int>, m: nat)
    requires s.Valid() && paid != {} && 0 < m
    requires forall day :: day in paid ==> s.IsEffectiveDay(day) && day < s.EffectiveDay(m)
    ensures StartedByBill(s, paid, m - 1)
  {
    var day := SomeMember(paid);
    var i: nat :| s.EffectiveDay(i) == day;
    if m <= i {
      s.LaterIffAfter(i, m);
    }
    if i < m - 1 {
      s.EffectiveDaysIncrease(i, m - 1);
    }
  }

  /** Withdrawing an extension keeps its period actionable, even once it is overdue. */
  lemma WithdrawalKeepsPeriod(
    s: BillingSchedule, delivered: Instant, now: Instant, paid: set<int>,
    before: set<int>, after: set<int>, m: nat)
    requires s.Valid() && !now.Before(delivered)
    requires IsFirstUnpaid(s, delivered, paid, before, m)
    requires Refocused(before, after, s.rule.DueDay(m))
    ensures IsFirstUnpaid(s, now, paid, after, m)
  {
    RefocusedAnchors(s, before, after, m, m);
    forall j: nat | j < m
      ensures !Open(s, now, paid, after, j)
    {
      assert !Open(s, delivered, paid, before, j);
      RefocusedAnchors(s, before, after, m, j);
    }
  }

  /** Waiting alone never changes the answer exactly when a bill or an anchor holds it in place. */
  lemma WaitingChangesNothing(s: BillingSchedule, now: Instant, paid: set<int>, anchors: set<int>, m: nat)
    requires s.Valid() && IsFirstUnpaid(s, now, paid, anchors, m)
    ensures (forall later: Instant :: !later.Before(now) ==> IsFirstUnpaid(s, later, paid, anchors, m))
       <==> StartedByBill(s, paid, m) || StartedByAnchor(s, anchors, m)
  {
    if StartedByBill(s, paid, m) || StartedByAnchor(s, anchors, m) {
      forall later: Instant | !later.Before(now)
        ensures IsFirstUnpaid(s, later, paid, anchors, m)
      {
        forall j: nat | j < m
          ensures !Open(s, later, paid, anchors, j)
        {
          assert !Open(s, now, paid, anchors, j);
        }
      }
    } else {
      var end := s.EffectiveAt(m + 1);
      s.EffectiveDaysIncrease(m, m + 1);
      var later := if now.Before(end) then end else now;
      assert !later.Before(now) && !Open(s, later, paid, anchors, m);
    }
  }

  /** In particular it never does once the earliest bill is not after the last due date. */
  lemma LedgerHoldsStill(
    s: BillingSchedule, now: Instant, later: Instant, paid: set<int>, anchors: set<int>, m: nat, bill: int, last: nat)
    requires s.Valid() && IsFirstUnpaid(s, now, paid, anchors, m) && !later.Before(now)
    requires bill in paid && s.IsLast(now, last) && bill <= s.EffectiveDay(last)
    ensures IsFirstUnpaid(s, later, paid, anchors, m)
  {
    if Running(s, now, paid, m) {
      s.LaterIffAfter(m + 1, last);
      if last < m {
        s.EffectiveDaysIncrease(last, m);
      }
      assert StartedByBill(s, paid, m);
    }
    WaitingChangesNothing(s, now, paid, anchors, m);
  }

  /** Paying the actionable period makes the next answer strictly later, except in one case: the
      first bill ever, entered ahead of time while an earlier period has already come due. */
  lemma PayingMovesForward(
    s: BillingSchedule, now: Instant, paid: set<int>, before: set<int>, after: set<int>, m: nat, next: nat)
    requires s.Valid()
    requires IsFirstUnpaid(s, now, paid, before, m)
    requires after <= before
    requires IsFirstUnpaid(s, now, paid + {s.EffectiveDay(m)}, after, next)
    ensures m < next <==> paid != {} || !now.Before(s.EffectiveAt(m)) || m == s.rule.First()
  {
    var paid' := paid + {s.EffectiveDay(m)};
    assert s.EffectiveDay(m) in paid';
    if paid != {} || !now.Before(s.EffectiveAt(m)) || m == s.rule.First() {
      if next < m {
        assert !Open(s, now, paid, before, next);
        s.EffectiveDaysIncrease(next, m);
        s.LaterIffAfter(next + 1, m);
        s.LaterIffAfter(m, next + 1);
        assert StartedByAnchor(s, after, next) ==> StartedByAnchor(s, before, next);
        assert StartedByBill(s, paid', next) ==> StartedByBill(s, paid, next);
      }
    } else {
      s.EffectiveDaysIncrease(m - 1, m);
      assert Open(s, now, paid', after, m - 1);
    }
  }

  /** The exception is real, for every schedule whose k-th period is the last one due: the fresh
      subscriber who prepays period k + 1 is afterwards asked for period k. */
  lemma PrepayingFirstMovesBack(s: BillingSchedule, now: Instant, k: nat, paid: set<int>)
    requires s.Valid() && s.rule.First() <= k && !now.Before(s.EffectiveAt(k)) && now.Before(s.EffectiveAt(k + 1))
    requires paid == {s.EffectiveDay(k + 1)}
    ensures IsFirstUnpaid(s, now, {}, {}, k + 1) && IsFirstUnpaid(s, now, paid, {}, k)
  {
    forall j: nat | j <= k
      ensures !Open(s, now, {}, {}, j)
    {
      s.LaterIffAfter(k, j);
    }
    s.EffectiveDaysIncrease(k, k + 1);
    assert Running(s, now, paid, k);
    forall j: nat | j < k
      ensures !Open(s, now, paid, {}, j)
    {
      s.LaterIffAfter(k, j + 1);
      s.EffectiveDaysIncrease(j, k + 1);
      assert !Running(s, now, paid, j);
    }
  }

  /** For instance on any interval rule during its first period: with a 30-day rule boarded on day 0,
      prepaying day 30 on day 10 makes day 0 the first unpaid date. */
  lemma PrepayingFirstExample(s: BillingSchedule, now: Instant)
    requires s.rule.Interval? && s.extensions == [] && 1 <= s.rule.step <= 3650
    requires s.rule.anchor <= now.day < s.rule.anchor + s.rule.step
    ensures s.EffectiveDay(0) == s.rule.anchor && s.EffectiveDay(1) == s.rule.anchor + s.rule.step
    ensures IsFirstUnpaid(s, now, {}, {}, 1)
    ensures IsFirstUnpaid(s, now, {s.rule.anchor + s.rule.step}, {}, 0)
  {
    PrepayingFirstMovesBack(s, now, 0, {s.EffectiveDay(1)});
  }
}
