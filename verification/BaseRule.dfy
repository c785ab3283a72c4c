/** The unshifted billing rules of internal/cycle/cycle.go. */
module BaseRules {
  import opened Arithmetic
  import opened Instants

  /** `Interval` fires at midnight of the boarding day and every `step` days after it.
      `Calendar` stands for a parsed cron expression: its k-th trigger falls on day `trigger(k)` at
      one fixed time of day, and only triggers numbered `boarded` or later are at or after the
      boarding date. */
  datatype BaseRule =
    | Interval(anchor: int, step: int)
    | Calendar(trigger: nat -> int, boarded: nat, timeOfDay: Nanos)
  {
    ghost predicate Valid() {
      match this
      case Interval(_, step) => 1 <= step <= 3650
      case Calendar(trigger, _, _) => forall i: nat, j: nat :: i < j ==> trigger(i) < trigger(j)
    }

    /** The day of the k-th occurrence. */
    function DueDay(k: nat): int {
      match this
      case Interval(anchor, step) => anchor + k * step
      case Calendar(trigger, _, _) => trigger(k)
    }

    function TimeOfDay(): Nanos {
      if Calendar? then timeOfDay else 0
    }

    /** The first occurrence that is ever billed. */
    function First(): nat {
      if Calendar? then boarded else 0
    }

    function DueAt(k: nat): Instant {
      Instant(DueDay(k), TimeOfDay())
    }

    ghost predicate IsDueDay(day: int) {
      exists k: nat :: DueDay(k) == day
    }

    lemma DueDaysIncrease(i: nat, j: nat)
      requires Valid()
      requires i < j
      ensures DueDay(i) < DueDay(j)
    {
      if Interval? {
        MulIncreases(i, j, step);
      }
    }

    /** No two occurrences share a day, so each is at least one day after the one before. */
    lemma {:induction false} DueDaysSpread(i: nat, j: nat)
      requires Valid()
      requires i <= j
      ensures DueDay(i) + (j - i) <= DueDay(j)
      decreases j
    {
      if i < j {
        DueDaysSpread(i, j - 1);
        DueDaysIncrease(j - 1, j);
      }
    }

    lemma DueDayInjective(i: nat, j: nat)
      requires Valid()
      requires DueDay(i) == DueDay(j)
      ensures i == j
    {
      if i < j {
        DueDaysIncrease(i, j);
      } else if j < i {
        DueDaysIncrease(j, i);
      }
    }

    // ---- what NextDue and LastDue must return

    /** `k` is the earliest billed occurrence strictly after `now`. */
    ghost predicate IsNext(now: Instant, k: nat) {
      && First() <= k
      && now.Before(DueAt(k))
      && forall j: nat :: First() <= j < k ==> !now.Before(DueAt(j))
    }

    ghost predicate IsNextDue(now: Instant, due: Instant) {
      exists k: nat :: IsNext(now, k) && due == DueAt(k)
    }

    /** `k` is the latest billed occurrence at or before `now`. */
    ghost predicate IsLast(now: Instant, k: nat) {
      && First() <= k
      && !now.Before(DueAt(k))
      && forall j: nat :: k < j ==> now.Before(DueAt(j))
    }

    // ---- the interval rule

    method NextIntervalDue(now: Instant) returns (due: Instant, ghost k: nat)
      requires Valid() && Interval?
      ensures IsNext(now, k) && due == DueAt(k)
      ensures IsNextDue(now, due)
    {
      if now.Before(Midnight(anchor)) {
        k := 0;
        return Midnight(anchor), 0;
      }
      var interval := step * NANOS_PER_DAY;
      var elapsed := now.Since(Midnight(anchor));
      WholeIntervals(now.day - anchor, now.nanos, step);
      var intervals := elapsed / interval + 1;
      due := Midnight(anchor).AddDays(intervals * step);
      k := intervals;
      forall j: nat | First() <= j < k
        ensures !now.Before(DueAt(j))
      {
        MulMonotonic(j, intervals - 1, step);
      }
    }

    method LastIntervalDue(now: Instant) returns (due: Instant, found: bool, ghost k: nat)
      requires Valid() && Interval?
      ensures found ==> IsLast(now, k) && due == DueAt(k)
      ensures !found ==> now.Before(DueAt(First()))
    {
      if now.Before(Midnight(anchor)) {
        return now, false, 0;
      }
      var interval := step * NANOS_PER_DAY;
      WholeIntervals(now.day - anchor, now.nanos, step);
      var intervals := now.Since(Midnight(anchor)) / interval;
      due := Midnight(anchor).AddDays(intervals * step);
      forall j: nat | intervals < j
        ensures now.Before(DueAt(j))
      {
        MulMonotonic(intervals + 1, j, step);
      }
      while now.Before(due) && intervals > 0
        invariant 0 <= intervals && due == DueAt(intervals)
        invariant forall j: nat :: intervals < j ==> now.Before(DueAt(j))
        decreases intervals
      {
        intervals := intervals - 1;
        due := Midnight(anchor).AddDays(intervals * step);
      }
      k := intervals;
      found := true;
    }

    // ---- both rules

    /** The earliest occurrence strictly after `now`. The forward scan stands for the cron library. */
    method NextDue(now: Instant) returns (due: Instant, ghost k: nat)
      requires Valid()
      ensures IsNext(now, k) && due == DueAt(k)
      ensures IsNextDue(now, due)
    {
      if Interval? {
        due, k := NextIntervalDue(now);
        return;
      }
      var i := boarded;
      while !now.Before(DueAt(i))
        invariant boarded <= i
        invariant forall j: nat :: First() <= j < i ==> !now.Before(DueAt(j))
        decreases now.day - DueDay(i) + 1
      {
        DueDaysIncrease(i, i + 1);
        i := i + 1;
      }
      due, k := DueAt(i), i;
    }

    /** The latest occurrence at or before `now`, if any occurrence has been billed by then. */
    method LastDue(now: Instant) returns (due: Instant, found: bool, ghost k: nat)
      requires Valid()
      ensures found ==> IsLast(now, k) && due == DueAt(k)
      ensures !found ==> now.Before(DueAt(First()))
    {
      if Interval? {
        due, found, k := LastIntervalDue(now);
        return;
      }
      due, found, k := now, false, 0;
      var i := boarded;
      while !now.Before(DueAt(i))
        invariant boarded <= i
        invariant !found ==> i == boarded
        invariant found ==> k == i - 1 && boarded <= k && due == DueAt(k) && !now.Before(due)
        decreases now.day - DueDay(i) + 1
      {
        DueDaysIncrease(i, i + 1);
        due, found, k := DueAt(i), true, i;
        i := i + 1;
      }
      forall j: nat | i < j
        ensures now.Before(DueAt(j))
      {
        DueDaysIncrease(i, j);
      }
    }

    /** How the program finds it for a cron rule: it walks the occurrences after a lookback moment, boarded or
        not, and drops a result from before boarding. */
    method LookbackLastDue(now: Instant, from: Instant) returns (due: Instant, found: bool)
      requires Valid() && Calendar?
      ensures found <==> exists k: nat :: IsLast(now, k) && from.Before(DueAt(k))
      ensures found ==> exists k: nat :: IsLast(now, k) && due == DueAt(k)
    {
      due, found := now, false;
      var i := 0;
      while !from.Before(DueAt(i))
        invariant forall j: nat :: j < i ==> !from.Before(DueAt(j))
        decreases from.day - DueDay(i) + 1
      {
        DueDaysIncrease(i, i + 1);
        i := i + 1;
      }
      ghost var first := i;
      while !now.Before(DueAt(i))
        invariant first <= i && (found <==> first < i)
        invariant forall j: nat :: j < i ==> !now.Before(DueAt(j)) || j < first
        invariant found ==> due == DueAt(i - 1) && from.Before(due) && !now.Before(due)
        decreases now.day - DueDay(i) + 1
      {
        DueDaysIncrease(i, i + 1);
        if from.Before(DueAt(i)) { LaterStays(from, i, i + 1); }
        due, found := DueAt(i), true;
        i := i + 1;
      }
      LookbackFinds(now, from, first, i);
      if found && due.day < DueDay(boarded) {
        DayBefore(i - 1, boarded);
        return due, false;
      }
    }

    lemma LaterStays(from: Instant, i: nat, j: nat)
      requires Valid() && i <= j && from.Before(DueAt(i))
      ensures from.Before(DueAt(j))
    {
      if i < j { DueDaysIncrease(i, j); }
    }

    lemma DayBefore(i: nat, j: nat)
      requires Valid() && DueDay(i) < DueDay(j)
      ensures i < j
    {
      if j < i { DueDaysIncrease(j, i); }
    }

    /** The occurrences between the lookback moment and now are those from `first` up to `end`. */
    lemma LookbackFinds(now: Instant, from: Instant, first: nat, end: nat)
      requires Valid() && Calendar? && first <= end
      requires from.Before(DueAt(first)) && (forall j: nat :: j < first ==> !from.Before(DueAt(j)))
      requires now.Before(DueAt(end)) && (forall j: nat :: first <= j < end ==> !now.Before(DueAt(j)))
      ensures forall k: nat :: IsLast(now, k) && from.Before(DueAt(k)) ==> k == end - 1 && first < end
      ensures first < end && First() <= end - 1 ==> IsLast(now, end - 1) && from.Before(DueAt(end - 1))
    {
      forall j: nat | end <= j ensures now.Before(DueAt(j)) { LaterStays(now, end, j); }
      if first < end { LaterStays(from, first, end - 1); }
      forall k: nat | IsLast(now, k) && from.Before(DueAt(k))
        ensures k == end - 1 && first < end
      {
      }
    }

    /** Whether `day` carries an occurrence. A cron rule does not compare it with the boarding date. */
    method IsDueDate(day: int) returns (due: bool)
      requires Valid()
      ensures due <==> IsDueDay(day)
    {
      if Interval? {
        if day < anchor {
          forall k: nat
            ensures DueDay(k) != day
          {
            MulMonotonic(0, k, step);
          }
          return false;
        }
        due := (day - anchor) % step == 0;
        IntervalDays(day);
      } else {
        var i := 0;
        while DueDay(i) < day
          invariant forall j: nat :: j < i ==> DueDay(j) < day
          decreases day - DueDay(i)
        {
          DueDaysIncrease(i, i + 1);
          i := i + 1;
        }
        due := DueDay(i) == day;
        if !due {
          forall k: nat
            ensures DueDay(k) != day
          {
            if i < k {
              DueDaysIncrease(i, k);
            }
          }
        }
      }
    }

    ghost predicate IsBilledDay(day: int) {
      exists k: nat :: First() <= k && DueDay(k) == day
    }

    /** A day that IsDueDate accepts is one that NextDue and LastDue can ever return exactly when the rule is
        an interval or the day is not before the first billed occurrence. */
    lemma BilledDaysExactly(day: int)
      requires Valid() && IsDueDay(day)
      ensures IsBilledDay(day) <==> Interval? || DueDay(First()) <= day
    {
      var k: nat :| DueDay(k) == day;
      if First() < k {
        DueDaysIncrease(First(), k);
      } else if k < First() {
        DueDaysIncrease(k, First());
        forall j: nat | First() < j
          ensures DueDay(First()) < DueDay(j)
        {
          DueDaysIncrease(First(), j);
        }
      }
    }

    /** The difference is real: every cron rule boarded after its first occurrence accepts a day it never bills. */
    lemma AcceptedBeforeBoarding()
      requires Valid() && Calendar? && 0 < boarded
      ensures IsDueDay(DueDay(0)) && !IsBilledDay(DueDay(0))
    {
      DueDaysIncrease(0, First());
      BilledDaysExactly(DueDay(0));
    }

    lemma IntervalDays(day: int)
      requires Valid() && Interval? && anchor <= day
      ensures (day - anchor) % step == 0 <==> IsDueDay(day)
    {
      if (day - anchor) % step == 0 {
        assert DueDay((day - anchor) / step) == day;
      }
      if IsDueDay(day) {
        var k: nat :| DueDay(k) == day;
        DivideUnique(k * step, step, k, 0);
      }
    }
  }

  // ---- arithmetic

  /** Counting whole intervals in nanoseconds or in days gives the same number. */
  lemma WholeIntervals(days: int, nanos: Nanos, step: int)
    requires 0 <= days && 0 < step
    ensures 0 < step * NANOS_PER_DAY
    ensures (days * NANOS_PER_DAY + nanos) / (step * NANOS_PER_DAY) == days / step
    ensures 0 <= days / step && (days / step) * step <= days < (days / step + 1) * step
  {
    var q, r := days / step, days % step;
    var interval := step * NANOS_PER_DAY;
    MulMonotonic(r + 1, step, NANOS_PER_DAY);
    assert (q * step) * NANOS_PER_DAY == q * interval;
    DivideUnique(days * NANOS_PER_DAY + nanos, interval, q, r * NANOS_PER_DAY + nanos);
  }
}
